/*
 * The TriangleBuilder component of WaterInteraction/TriangleBuilder.cs. Once
 * per physics step CreateTriangleData samples every hull triangle against
 * the water, rotates the per-triangle buffers and fills two parallel lists:
 * the submerged pieces and, for each, the index of the hull triangle it
 * came from. The class keeps the source's fields and is proved to produce
 * exactly the pieces module TriangleCutting describes.
 */
module TriangleBuilder {
  import opened UnityMath
  import opened InteractionTypes
  import opened InteractionUtils
  import opened TriangleData
  import opened TriangleCutting

  /** Mesh.vertices and Mesh.triangles: three vertex indices per triangle. */
  datatype HullMesh = HullMesh(vertices: seq<Vec3>, triangles: seq<int>)

  /** Every triangle corner names a vertex of the mesh, as Unity guarantees. */
  predicate WellFormed(mesh: HullMesh) {
    forall k :: 0 <= k < |mesh.triangles| ==> 0 <= mesh.triangles[k] < |mesh.vertices|
  }

  function TriangleCount(mesh: HullMesh): nat {
    |mesh.triangles| / 3
  }

  /** transform.TransformPoint of corner k of triangle i. */
  function Corner(ctx: Context, mesh: HullMesh, i: nat, k: nat): Vec3
    requires WellFormed(mesh) && i < TriangleCount(mesh) && k < 3
  {
    ctx.transform(mesh.vertices[mesh.triangles[i * 3 + k]])
  }

  /** The three corners of triangle i as SetSortedTriangleVertices fills them before sorting. */
  function RawVertices(ctx: Context, mesh: HullMesh, i: nat, timeStamp: real): (r: seq<VertexInfo>)
    requires WellFormed(mesh) && i < TriangleCount(mesh)
    ensures |r| == 3 && HasSlotPermutation(r)
  {
    seq(3, k requires 0 <= k < 3 => VertexInfo(ctx.water(Corner(ctx, mesh, i, k), timeStamp), k, Corner(ctx, mesh, i, k)))
  }

  function SortedVertices(ctx: Context, mesh: HullMesh, i: nat, timeStamp: real): (r: seq<VertexInfo>)
    requires WellFormed(mesh) && i < TriangleCount(mesh)
    ensures |r| == 3
  {
    SortByHeight(RawVertices(ctx, mesh, i, timeStamp))
  }

  /** The pieces CreateTriangleData emits for triangle i. */
  function PiecesOf(st: Step, mesh: HullMesh, i: nat): seq<Piece>
    requires WellFormed(mesh) && i < TriangleCount(mesh)
  {
    TrianglePieces(st, SortedVertices(st.ctx, mesh, i, st.timeStamp))
  }

  /** CurrentBuffers[i] after CreateTriangleData. */
  function StepBuffer(st: Step, mesh: HullMesh, i: nat): TriangleBuffer
    requires WellFormed(mesh) && i < TriangleCount(mesh)
  {
    var s := SortedVertices(st.ctx, mesh, i, st.timeStamp);
    var b := NewTriangleBuffer(st.ctx.math, s[0].globalVertex, s[1].globalVertex, s[2].globalVertex, st.ctx.body);
    b.(submergedArea := StoredArea(st, s, b.originalArea))
  }

  /** The concatenation parts(0) + ... + parts(k - 1). */
  function Concat<T>(parts: nat -> seq<T>, k: nat): seq<T> {
    if k == 0 then [] else Concat(parts, k - 1) + parts(k - 1)
  }

  /** Each i < k repeated once per entry of parts(i): which part every entry of the concatenation came from. */
  function Owners<T>(parts: nat -> seq<T>, k: nat): seq<int> {
    if k == 0 then [] else Owners(parts, k - 1) + Repeat(k - 1, |parts(k - 1)|)
  }

  /** The metrics of the pieces of triangle i, and nothing for an index past the mesh. */
  function TriangleInfos(st: Step, mesh: HullMesh): nat -> seq<TriangleInfo> {
    (i: nat) => if WellFormed(mesh) && i < TriangleCount(mesh) then Infos(st, PiecesOf(st, mesh, i)) else []
  }

  /** SubmergedTriangles after the first k triangles. */
  function AllPieces(st: Step, mesh: HullMesh, k: nat): seq<TriangleInfo> {
    Concat(TriangleInfos(st, mesh), k)
  }

  /** TriangleBufferIndices after the first k triangles. */
  function AllIndices(st: Step, mesh: HullMesh, k: nat): seq<int> {
    Owners(TriangleInfos(st, mesh), k)
  }

  /** CurrentBuffers after the first k triangles: each one's buffer for this step. */
  function StepBuffers(st: Step, mesh: HullMesh, k: nat): (r: seq<TriangleBuffer>)
    requires WellFormed(mesh) && k <= TriangleCount(mesh)
    ensures |r| == k
  {
    seq(k, i requires 0 <= i < k => StepBuffer(st, mesh, i))
  }

  /** One more triangle appends its buffer. */
  lemma StepBuffersGrow(st: Step, mesh: HullMesh, k: nat)
    requires WellFormed(mesh) && k < TriangleCount(mesh)
    ensures StepBuffers(st, mesh, k + 1) == StepBuffers(st, mesh, k) + [StepBuffer(st, mesh, k)]
  {
    forall i | 0 <= i < k + 1
      ensures StepBuffers(st, mesh, k + 1)[i] == (StepBuffers(st, mesh, k) + [StepBuffer(st, mesh, k)])[i]
    {
    }
  }

  /** One more triangle appends its pieces and its index, once per piece. */
  lemma AllPiecesStep(st: Step, mesh: HullMesh, k: nat)
    requires WellFormed(mesh) && k < TriangleCount(mesh)
    ensures AllPieces(st, mesh, k + 1) == AllPieces(st, mesh, k) + Infos(st, PiecesOf(st, mesh, k))
    ensures AllIndices(st, mesh, k + 1) == AllIndices(st, mesh, k) + Repeat(k, |PiecesOf(st, mesh, k)|)
  {
    assert TriangleInfos(st, mesh)(k) == Infos(st, PiecesOf(st, mesh, k));
  }

  /** Overwriting the entry just after a prefix moves the prefix boundary one place on. */
  lemma ReplaceAfterPrefix<T>(a: seq<T>, done: seq<T>, rest: seq<T>, x: T)
    requires a == done + rest && |rest| > 0
    ensures a[|done|] == rest[0]
    ensures a[|done| := x] == (done + [x]) + rest[1..]
  {
  }

  /** Moving the boundary of a prefix and of a suffix by one place. */
  lemma PrefixGrows<T>(s: seq<T>, t: seq<T>, i: nat)
    requires i < |s| && i < |t|
    ensures s[..i] + [s[i]] == s[..i + 1]
    ensures t[i..][1..] == t[i + 1..]
  {
  }

  /** The world-space area of triangle i. */
  function CornerArea(ctx: Context, mesh: HullMesh, i: nat): real
    requires WellFormed(mesh) && i < TriangleCount(mesh)
  {
    GetTriangleArea(ctx.math, Corner(ctx, mesh, i, 0), Corner(ctx, mesh, i, 1), Corner(ctx, mesh, i, 2))
  }

  /** The summed area of the first k triangles of the mesh, in world space. */
  function MeshArea(ctx: Context, mesh: HullMesh, k: nat): real
    requires WellFormed(mesh) && k <= TriangleCount(mesh)
  {
    if k == 0 then 0.0 else MeshArea(ctx, mesh, k - 1) + CornerArea(ctx, mesh, k - 1)
  }
  /** One piece adds one entry to each list, carrying the piece's area. */
  lemma ListsOfOne(st: Step, p: Piece, x: int)
    ensures Infos(st, [p]) == [Info(st, p)]
    ensures AreaSum(Infos(st, [p])) == Info(st, p).area
    ensures Repeat(x, 1) == [x]
  {
    assert Infos(st, [p])[..0] == [];
  }

  /** Appending d1 and then d2 appends d1 + d2. */
  lemma AppendInTwoSteps<T>(x0: seq<T>, x1: seq<T>, x2: seq<T>, d1: seq<T>, d2: seq<T>)
    requires x1 == x0 + d1 && x2 == x1 + d2
    ensures x2 == x0 + (d1 + d2)
  {
  }

  /** The two halves of a one-above triangle, appended one after the other, append the triangle's pieces. */
  lemma OneAboveListsAppend(st: Step, top: VertexInfo, mid: VertexInfo, bottom: VertexInfo, x: int,
    infos0: seq<TriangleInfo>, infos1: seq<TriangleInfo>, infos2: seq<TriangleInfo>, indices0: seq<int>, indices1: seq<int>, indices2: seq<int>)
    requires var halves := OneAboveTriangles(st, top, mid, bottom);
      && infos1 == infos0 + Infos(st, SortedHorizontalPieces(st, halves.0))
      && infos2 == infos1 + Infos(st, SortedHorizontalPieces(st, halves.1))
    requires var halves := OneAboveTriangles(st, top, mid, bottom);
      && indices1 == indices0 + Repeat(x, |SortedHorizontalPieces(st, halves.0)|)
      && indices2 == indices1 + Repeat(x, |SortedHorizontalPieces(st, halves.1)|)
    ensures var pieces := OneAbovePieces(st, top, mid, bottom);
      infos2 == infos0 + Infos(st, pieces) && indices2 == indices0 + Repeat(x, |pieces|)
    ensures var halves := OneAboveTriangles(st, top, mid, bottom);
      AreaSum(Infos(st, OneAbovePieces(st, top, mid, bottom)))
        == AreaSum(Infos(st, SortedHorizontalPieces(st, halves.0))) + AreaSum(Infos(st, SortedHorizontalPieces(st, halves.1)))
  {
    var halves := OneAboveTriangles(st, top, mid, bottom);
    var pieces1, pieces2 := SortedHorizontalPieces(st, halves.0), SortedHorizontalPieces(st, halves.1);
    assert OneAbovePieces(st, top, mid, bottom) == pieces1 + pieces2;
    ListsAppend(st, pieces1, pieces2, x);
    AppendInTwoSteps(infos0, infos1, infos2, Infos(st, pieces1), Infos(st, pieces2));
    AppendInTwoSteps(indices0, indices1, indices2, Repeat(x, |pieces1|), Repeat(x, |pieces2|));
  }

  /** The lists of two runs of pieces are the lists of each, one after the other. */
  lemma ListsAppend(st: Step, a: seq<Piece>, b: seq<Piece>, x: int)
    ensures Infos(st, a + b) == Infos(st, a) + Infos(st, b)
    ensures Repeat(x, |a + b|) == Repeat(x, |a|) + Repeat(x, |b|)
    ensures AreaSum(Infos(st, a + b)) == AreaSum(Infos(st, a)) + AreaSum(Infos(st, b))
  {
    var ia, ib := Infos(st, a), Infos(st, b);
    InfosAppend(st, a, b);
    AreaSumAppend(ia, ib);
    assert |a + b| == |a| + |b|;
    RepeatAppend(x, |a|, |b|);
  }

  lemma InfosAppend(st: Step, a: seq<Piece>, b: seq<Piece>)
    ensures Infos(st, a + b) == Infos(st, a) + Infos(st, b)
  {
    MapAppend(p => Info(st, p), a, b, Infos(st, a), Infos(st, b), Infos(st, a + b));
  }

  /** Mapping f over a + b gives the mapped a followed by the mapped b. */
  lemma MapAppend<A, B>(f: A -> B, a: seq<A>, b: seq<A>, fa: seq<B>, fb: seq<B>, fab: seq<B>)
    requires |fa| == |a| && forall i :: 0 <= i < |a| ==> fa[i] == f(a[i])
    requires |fb| == |b| && forall i :: 0 <= i < |b| ==> fb[i] == f(b[i])
    requires |fab| == |a + b| && forall i :: 0 <= i < |a + b| ==> fab[i] == f((a + b)[i])
    ensures fab == fa + fb
  {
    forall i | 0 <= i < |fab|
      ensures fab[i] == (fa + fb)[i]
    {
      if i < |a| {
        assert (a + b)[i] == a[i];
      } else {
        assert (a + b)[i] == b[i - |a|];
      }
    }
  }

  /** The loop of OnEnable that adds up the world-space area of every hull triangle. */
  method SumTriangleAreas(ctx: Context, mesh: HullMesh) returns (total: real)
    requires WellFormed(mesh)
    ensures total == MeshArea(ctx, mesh, TriangleCount(mesh))
  {
    total := 0.0;
    var triangleIndex := 0;
    while triangleIndex < |mesh.triangles| / 3
      invariant 0 <= triangleIndex <= TriangleCount(mesh)
      invariant total == MeshArea(ctx, mesh, triangleIndex)
    {
      var area := TriangleArea(ctx, mesh, triangleIndex);
      total := total + area;
      triangleIndex := triangleIndex + 1;
    }
    assert triangleIndex == TriangleCount(mesh);
  }

  /** The body of OnEnable's area loop: the world-space area of triangle i. */
  method TriangleArea(ctx: Context, mesh: HullMesh, triangleIndex: nat) returns (area: real)
    requires WellFormed(mesh) && triangleIndex < TriangleCount(mesh)
    ensures area == CornerArea(ctx, mesh, triangleIndex)
  {
    var v1 := Corner(ctx, mesh, triangleIndex, 0);
    var v2 := Corner(ctx, mesh, triangleIndex, 1);
    var v3 := Corner(ctx, mesh, triangleIndex, 2);
    area := GetTriangleArea(ctx.math, v1, v2, v3);
  }

  class TriangleBuilder {
    var epsilon: real
    var SubmergedTriangles: seq<TriangleInfo>
    var TriangleBufferIndices: seq<int>
    var PreviousBuffers: array<TriangleBuffer>
    var CurrentBuffers: array<TriangleBuffer>
    var TotalArea: real
    var meshVertices: seq<Vec3>
    var meshTriangles: seq<int>
    var timeStamp: real
    var currentVertices: array<VertexInfo>

    function Mesh(): HullMesh
      reads this`meshVertices, this`meshTriangles
    {
      HullMesh(meshVertices, meshTriangles)
    }

    /** The step the builder's cuts read: the collaborators with this builder's epsilon and time stamp. */
    function StepOf(ctx: Context): Step
      reads this`epsilon, this`timeStamp
    {
      Step(ctx, epsilon, timeStamp)
    }

    /** The mesh is well formed and the two buffers are distinct arrays with one entry per triangle. */
    ghost predicate Valid()
      reads this`meshVertices, this`meshTriangles, this`PreviousBuffers, this`CurrentBuffers, this`currentVertices
    {
      && WellFormed(Mesh())
      && PreviousBuffers != CurrentBuffers
      && PreviousBuffers.Length == CurrentBuffers.Length == TriangleCount(Mesh())
      && currentVertices.Length == 3
    }

    /** OnEnable: empty lists, zeroed buffers, and the total area of the hull. */
    constructor OnEnable(ctx: Context, time: real, vertices: seq<Vec3>, triangles: seq<int>)
      requires WellFormed(HullMesh(vertices, triangles))
      ensures Valid()
      ensures fresh(PreviousBuffers) && fresh(CurrentBuffers) && fresh(currentVertices)
      ensures epsilon == 0.00001 && timeStamp == time
      ensures meshVertices == vertices && meshTriangles == triangles
      ensures SubmergedTriangles == [] && TriangleBufferIndices == []
      ensures forall j :: 0 <= j < PreviousBuffers.Length ==> PreviousBuffers[j] == ZeroBuffer
      ensures forall j :: 0 <= j < CurrentBuffers.Length ==> CurrentBuffers[j] == ZeroBuffer
      ensures TotalArea == MeshArea(ctx, HullMesh(vertices, triangles), TriangleCount(HullMesh(vertices, triangles)))
    {
      epsilon := 0.00001;
      currentVertices := new VertexInfo[3](_ => VertexInfo(0.0, 0, Zero));
      timeStamp := time;
      SubmergedTriangles := [];
      TriangleBufferIndices := [];
      meshVertices := vertices;
      meshTriangles := triangles;
      var triangleCount := |triangles| / 3;
      var previous := new TriangleBuffer[triangleCount](_ => ZeroBuffer);
      var current := new TriangleBuffer[triangleCount](_ => ZeroBuffer);
      var total := SumTriangleAreas(ctx, HullMesh(vertices, triangles));
      PreviousBuffers := previous;
      CurrentBuffers := current;
      TotalArea := total;
    }

    /** Initialize: a new time stamp and empty lists. */
    method Initialize(time: real)
      modifies this`timeStamp, this`SubmergedTriangles, this`TriangleBufferIndices
      ensures timeStamp == time && SubmergedTriangles == [] && TriangleBufferIndices == []
    {
      timeStamp := time;
      SubmergedTriangles := [];
      TriangleBufferIndices := [];
    }

    /** Fills currentVertices with triangle i's corners and sorts them: a descending permutation of the corners. */
    method SetSortedTriangleVertices(ctx: Context, triangleIndex: nat)
      requires Valid() && triangleIndex < TriangleCount(Mesh())
      modifies currentVertices
      ensures currentVertices[..] == SortedVertices(ctx, Mesh(), triangleIndex, timeStamp)
      ensures multiset(currentVertices[..]) == multiset(RawVertices(ctx, Mesh(), triangleIndex, timeStamp))
      ensures Descending(currentVertices[..]) && HasSlotPermutation(currentVertices[..])
    {
      ghost var raw := RawVertices(ctx, Mesh(), triangleIndex, timeStamp);
      for i := 0 to 3
        invariant forall k :: 0 <= k < i ==> currentVertices[k] == raw[k]
      {
        var globalVertex := Corner(ctx, Mesh(), triangleIndex, i);
        currentVertices[i] := VertexInfo(ctx.water(globalVertex, timeStamp), i, globalVertex);
      }
      assert currentVertices[..] == raw;
      SortVertices(currentVertices);
      SortByHeightSorts(raw);
      SortKeepsSlots(raw);
    }

    /** SetTriangleState: the state of the sorted current vertices. */
    function SetTriangleState(): (r: TriangleState)
      reads this, currentVertices
      requires currentVertices.Length == 3
      ensures Descending(currentVertices[..]) ==>
        && (r == AboveWater <==> CountAbove(currentVertices[..]) == 3)
        && (r == TwoAboveWater <==> CountAbove(currentVertices[..]) == 2)
        && (r == OneAboveWater <==> CountAbove(currentVertices[..]) == 1)
        && (r == Submerged <==> CountAbove(currentVertices[..]) == 0)
    {
      StateCountsIfSorted(currentVertices[..]);
      StateOf(currentVertices[0].height, currentVertices[1].height, currentVertices[2].height)
    }

    /** SubmergedTriangles.Add(new TriangleInfo(...)) beside TriangleBufferIndices.Add(triangleIndex). */
    method AddPiece(ctx: Context, p: Piece, triangleIndex: nat) returns (area: real)
      modifies this`SubmergedTriangles, this`TriangleBufferIndices
      ensures SubmergedTriangles == old(SubmergedTriangles) + Infos(StepOf(ctx), [p])
      ensures TriangleBufferIndices == old(TriangleBufferIndices) + Repeat(triangleIndex, 1)
      ensures area == AreaSum(Infos(StepOf(ctx), [p]))
    {
      var triangle := NewTriangleInfo(ctx.math, ctx.water, p.vi1, p.vi2, p.vi3, p.triangleType, ctx.body, timeStamp);
      TriangleBufferIndices := TriangleBufferIndices + [triangleIndex];
      SubmergedTriangles := SubmergedTriangles + [triangle];
      area := triangle.area;
      ListsOfOne(StepOf(ctx), p, triangleIndex);
    }

    /** Two pieces added in turn, as the cut case of CuttingAlgorithmHorizontal does; returns their summed area. */
    method AddTwoPieces(ctx: Context, p: Piece, q: Piece, triangleIndex: nat) returns (area: real)
      modifies this`SubmergedTriangles, this`TriangleBufferIndices
      ensures SubmergedTriangles == old(SubmergedTriangles) + Infos(StepOf(ctx), [p, q])
      ensures TriangleBufferIndices == old(TriangleBufferIndices) + Repeat(triangleIndex, 2)
      ensures area == AreaSum(Infos(StepOf(ctx), [p, q]))
    {
      ghost var infos0, indices0 := SubmergedTriangles, TriangleBufferIndices;
      var firstArea := AddPiece(ctx, p, triangleIndex);
      ghost var infos1, indices1 := SubmergedTriangles, TriangleBufferIndices;
      var secondArea := AddPiece(ctx, q, triangleIndex);
      area := firstArea + secondArea;
      assert [p] + [q] == [p, q];
      ListsAppend(StepOf(ctx), [p], [q], triangleIndex);
      AppendInTwoSteps(infos0, infos1, SubmergedTriangles, Infos(StepOf(ctx), [p]), Infos(StepOf(ctx), [q]));
      AppendInTwoSteps(indices0, indices1, TriangleBufferIndices, Repeat(triangleIndex, 1), Repeat(triangleIndex, 1));
    }

    /** Adds one or two pieces for a triangle whose vertices are given highest first, and returns their area. */
    method CuttingAlgorithmHorizontal(ctx: Context, top: VertexInfo, mid: VertexInfo, bottom: VertexInfo, triangleIndex: nat)
      returns (area: real)
      modifies this`SubmergedTriangles, this`TriangleBufferIndices
      ensures SubmergedTriangles == old(SubmergedTriangles) + Infos(StepOf(ctx), HorizontalPieces(StepOf(ctx), top, mid, bottom))
      ensures TriangleBufferIndices == old(TriangleBufferIndices) + Repeat(triangleIndex, |HorizontalPieces(StepOf(ctx), top, mid, bottom)|)
      ensures area == AreaSum(Infos(StepOf(ctx), HorizontalPieces(StepOf(ctx), top, mid, bottom)))
    {
      ghost var st := StepOf(ctx);
      var clockwise := NextSlot(top.clockwiseOrder) == mid.clockwiseOrder;
      if top.height - mid.height < epsilon {
        var triangleType := if mid.height - bottom.height < epsilon then 2 else 1;
        var piece := if clockwise then Piece(top, mid, bottom, triangleType) else Piece(mid, top, bottom, triangleType);
        assert HorizontalPieces(st, top, mid, bottom) == [piece];
        area := AddPiece(ctx, piece, triangleIndex);
        return;
      } else if mid.height - bottom.height < epsilon {
        var piece := if clockwise then Piece(top, mid, bottom, 0) else Piece(top, bottom, mid, 0);
        assert HorizontalPieces(st, top, mid, bottom) == [piece];
        area := AddPiece(ctx, piece, triangleIndex);
        return;
      }

      var tPointCutTB := ctx.math.divide(mid.height - bottom.height, top.height - bottom.height);
      var cutTB := CutVertex(ctx, bottom, top, tPointCutTB);
      assert cutTB == CutAt(st, bottom, top, LevelParameter(st, top, mid, bottom));

      var upside := if clockwise then Piece(top, mid, cutTB, 0) else Piece(top, cutTB, mid, 0);
      var downside := if clockwise then Piece(cutTB, mid, bottom, 1) else Piece(mid, cutTB, bottom, 1);
      assert HorizontalPieces(st, top, mid, bottom) == [upside, downside];
      area := AddTwoPieces(ctx, upside, downside, triangleIndex);
    }

    /** The vertex at parameter t along the edge from lower to upper, with its height above the water. */
    method CutVertex(ctx: Context, lower: VertexInfo, upper: VertexInfo, t: real) returns (cut: VertexInfo)
      ensures cut == CutAt(StepOf(ctx), lower, upper, t)
    {
      var point := Add(lower.globalVertex, Scale(Sub(upper.globalVertex, lower.globalVertex), t));
      cut := VertexInfo(ctx.water(point, timeStamp), -1, point);
    }

    /** Cuts off the two corners above the water and adds the submerged remainder; returns its area. */
    method CuttingAlgorithmTwoAbove(ctx: Context, top: VertexInfo, mid: VertexInfo, bottom: VertexInfo, triangleIndex: nat)
      returns (area: real)
      modifies this`SubmergedTriangles, this`TriangleBufferIndices
      ensures SubmergedTriangles == old(SubmergedTriangles) + Infos(StepOf(ctx), TwoAbovePieces(StepOf(ctx), top, mid, bottom))
      ensures TriangleBufferIndices == old(TriangleBufferIndices) + Repeat(triangleIndex, |TwoAbovePieces(StepOf(ctx), top, mid, bottom)|)
      ensures area == AreaSum(Infos(StepOf(ctx), TwoAbovePieces(StepOf(ctx), top, mid, bottom)))
    {
      ghost var st := StepOf(ctx);
      var tPointCutTB := ctx.math.divide(-bottom.height, top.height - bottom.height);
      var cutTB := CutVertex(ctx, bottom, top, tPointCutTB);
      assert cutTB == WaterlineCut(st, bottom, top);

      var tPointCutMB := ctx.math.divide(-bottom.height, mid.height - bottom.height);
      var cutMB := CutVertex(ctx, bottom, mid, tPointCutMB);
      assert cutMB == WaterlineCut(st, bottom, mid);

      if NextSlot(top.clockwiseOrder) == mid.clockwiseOrder {
        cutTB := cutTB.(clockwiseOrder := NextSlot(bottom.clockwiseOrder));
        cutMB := cutMB.(clockwiseOrder := NextSlot(cutTB.clockwiseOrder));
      } else {
        cutMB := cutMB.(clockwiseOrder := NextSlot(bottom.clockwiseOrder));
        cutTB := cutTB.(clockwiseOrder := NextSlot(cutMB.clockwiseOrder));
      }
      assert (cutTB, cutMB) == TwoAboveCuts(st, top, mid, bottom);

      if cutTB.height > cutMB.height {
        area := CuttingAlgorithmHorizontal(ctx, cutTB, cutMB, bottom, triangleIndex);
      } else {
        area := CuttingAlgorithmHorizontal(ctx, cutMB, cutTB, bottom, triangleIndex);
      }
    }

    /** new VertexInfo[] {a, b, c}, Array.Sort, then CuttingAlgorithmHorizontal on the sorted vertices. */
    method SortAndCutHorizontal(ctx: Context, a: VertexInfo, b: VertexInfo, c: VertexInfo, triangleIndex: nat)
      returns (area: real)
      modifies this`SubmergedTriangles, this`TriangleBufferIndices
      ensures SubmergedTriangles == old(SubmergedTriangles) + Infos(StepOf(ctx), SortedHorizontalPieces(StepOf(ctx), [a, b, c]))
      ensures TriangleBufferIndices == old(TriangleBufferIndices) + Repeat(triangleIndex, |SortedHorizontalPieces(StepOf(ctx), [a, b, c])|)
      ensures area == AreaSum(Infos(StepOf(ctx), SortedHorizontalPieces(StepOf(ctx), [a, b, c])))
    {
      var sortingVertices := new VertexInfo[3](_ => a);
      sortingVertices[1], sortingVertices[2] := b, c;
      assert sortingVertices[..] == [a, b, c];
      SortVertices(sortingVertices);
      area := CuttingAlgorithmHorizontal(ctx, sortingVertices[0], sortingVertices[1], sortingVertices[2], triangleIndex);
    }

    /**
     * Cuts off the corner above the water and adds the submerged
     * quadrilateral as two triangles, each sorted and cut horizontally;
     * returns their area.
     */
    method CuttingAlgorithmOneAbove(ctx: Context, top: VertexInfo, mid: VertexInfo, bottom: VertexInfo, triangleIndex: nat)
      returns (submergedArea: real)
      modifies this`SubmergedTriangles, this`TriangleBufferIndices
      ensures SubmergedTriangles == old(SubmergedTriangles) + Infos(StepOf(ctx), OneAbovePieces(StepOf(ctx), top, mid, bottom))
      ensures TriangleBufferIndices == old(TriangleBufferIndices) + Repeat(triangleIndex, |OneAbovePieces(StepOf(ctx), top, mid, bottom)|)
      ensures submergedArea == AreaSum(Infos(StepOf(ctx), OneAbovePieces(StepOf(ctx), top, mid, bottom)))
    {
      ghost var st := StepOf(ctx);
      ghost var triangles := OneAboveTriangles(st, top, mid, bottom);
      ghost var infos0, indices0 := SubmergedTriangles, TriangleBufferIndices;
      submergedArea := 0.0;
      var bottomVertex := bottom;

      var tPointCutTB := ctx.math.divide(-bottom.height, top.height - bottom.height);
      var cutTB := CutVertex(ctx, bottom, top, tPointCutTB);
      assert cutTB == WaterlineCut(st, bottom, top);

      var tPointCutTM := ctx.math.divide(-mid.height, top.height - mid.height);
      var cutTM := CutVertex(ctx, mid, top, tPointCutTM);
      assert cutTM == WaterlineCut(st, mid, top);

      if NextSlot(top.clockwiseOrder) == mid.clockwiseOrder {
        cutTB := cutTB.(clockwiseOrder := NextSlot(mid.clockwiseOrder));
        cutTM := cutTM.(clockwiseOrder := NextSlot(cutTB.clockwiseOrder));
      } else {
        cutTM := cutTM.(clockwiseOrder := NextSlot(mid.clockwiseOrder));
        cutTB := cutTB.(clockwiseOrder := NextSlot(cutTM.clockwiseOrder));
      }
      assert [mid, cutTB, cutTM] == triangles.0;
      var area1 := SortAndCutHorizontal(ctx, mid, cutTB, cutTM, triangleIndex);
      submergedArea := submergedArea + area1;
      ghost var infos1, indices1 := SubmergedTriangles, TriangleBufferIndices;

      if NextSlot(top.clockwiseOrder) == mid.clockwiseOrder {
        bottomVertex := bottomVertex.(clockwiseOrder := NextSlot(mid.clockwiseOrder));
        cutTB := cutTB.(clockwiseOrder := NextSlot(bottomVertex.clockwiseOrder));
      } else {
        cutTB := cutTB.(clockwiseOrder := NextSlot(mid.clockwiseOrder));
        bottomVertex := bottomVertex.(clockwiseOrder := NextSlot(cutTB.clockwiseOrder));
      }
      assert [mid, cutTB, bottomVertex] == triangles.1;
      var area2 := SortAndCutHorizontal(ctx, mid, cutTB, bottomVertex, triangleIndex);
      submergedArea := submergedArea + area2;

      OneAboveListsAppend(st, top, mid, bottom, triangleIndex, infos0, infos1, SubmergedTriangles, indices0, indices1, TriangleBufferIndices);
    }

    /**
     * CreateTriangleData: the lists hold exactly the pieces of every
     * triangle in mesh order, PreviousBuffers takes the old CurrentBuffers,
     * and CurrentBuffers holds this step's buffer of every triangle.
     */
    method CreateTriangleData(ctx: Context, time: real)
      requires Valid()
      modifies this`timeStamp, this`SubmergedTriangles, this`TriangleBufferIndices
      modifies PreviousBuffers, CurrentBuffers, currentVertices
      ensures Valid() && timeStamp == time
      ensures SubmergedTriangles == AllPieces(StepOf(ctx), Mesh(), TriangleCount(Mesh()))
      ensures TriangleBufferIndices == AllIndices(StepOf(ctx), Mesh(), TriangleCount(Mesh()))
      ensures PreviousBuffers[..] == old(CurrentBuffers[..])
      ensures CurrentBuffers[..] == StepBuffers(StepOf(ctx), Mesh(), TriangleCount(Mesh()))
      ensures |SubmergedTriangles| == |TriangleBufferIndices|
      ensures forall i: nat :: i < CurrentBuffers.Length && StateAt(StepOf(ctx), Mesh(), i) != Submerged ==>
        CurrentBuffers[i].submergedArea == OwnedArea(SubmergedTriangles, TriangleBufferIndices, i)
    {
      Initialize(time);
      ghost var st := StepOf(ctx);
      ghost var mesh := Mesh();
      ghost var oldPrevious, oldCurrent := PreviousBuffers[..], CurrentBuffers[..];
      var triangleIndex := 0;
      while triangleIndex < |meshTriangles| / 3
        invariant Valid() && StepOf(ctx) == st && Mesh() == mesh
        invariant 0 <= triangleIndex <= TriangleCount(mesh)
        invariant SubmergedTriangles == AllPieces(st, mesh, triangleIndex)
        invariant TriangleBufferIndices == AllIndices(st, mesh, triangleIndex)
        invariant PreviousBuffers[..] == oldCurrent[..triangleIndex] + oldPrevious[triangleIndex..]
        invariant CurrentBuffers[..] == StepBuffers(st, mesh, triangleIndex) + oldCurrent[triangleIndex..]
      {
        Turn(ctx, triangleIndex, st, mesh, oldPrevious, oldCurrent);
        triangleIndex := triangleIndex + 1;
      }
      assert triangleIndex == TriangleCount(mesh);
      assert oldCurrent[..triangleIndex] == oldCurrent && oldPrevious[triangleIndex..] == [];
      assert oldCurrent[triangleIndex..] == [];
      StoredAreasAreOwnedAreas(st, mesh, CurrentBuffers[..], SubmergedTriangles, TriangleBufferIndices);
    }

    /** One turn of CreateTriangleData's loop, as the loop's invariant sees it: triangle i is done. */
    method Turn(ctx: Context, triangleIndex: nat, ghost st: Step, ghost mesh: HullMesh,
      ghost oldPrevious: seq<TriangleBuffer>, ghost oldCurrent: seq<TriangleBuffer>)
      requires Valid() && StepOf(ctx) == st && Mesh() == mesh && triangleIndex < TriangleCount(mesh)
      requires |oldPrevious| == |oldCurrent| == TriangleCount(mesh)
      requires SubmergedTriangles == AllPieces(st, mesh, triangleIndex)
      requires TriangleBufferIndices == AllIndices(st, mesh, triangleIndex)
      requires PreviousBuffers[..] == oldCurrent[..triangleIndex] + oldPrevious[triangleIndex..]
      requires CurrentBuffers[..] == StepBuffers(st, mesh, triangleIndex) + oldCurrent[triangleIndex..]
      modifies this`SubmergedTriangles, this`TriangleBufferIndices, currentVertices
      modifies PreviousBuffers, CurrentBuffers
      ensures Valid()
      ensures SubmergedTriangles == AllPieces(st, mesh, triangleIndex + 1)
      ensures TriangleBufferIndices == AllIndices(st, mesh, triangleIndex + 1)
      ensures PreviousBuffers[..] == oldCurrent[..triangleIndex + 1] + oldPrevious[triangleIndex + 1..]
      ensures CurrentBuffers[..] == StepBuffers(st, mesh, triangleIndex + 1) + oldCurrent[triangleIndex + 1..]
    {
      ghost var previous, current := PreviousBuffers[..], CurrentBuffers[..];
      ProcessTriangle(ctx, triangleIndex);
      ReplaceAfterPrefix(previous, oldCurrent[..triangleIndex], oldPrevious[triangleIndex..], current[triangleIndex]);
      ReplaceAfterPrefix(current, StepBuffers(st, mesh, triangleIndex), oldCurrent[triangleIndex..], StepBuffer(st, mesh, triangleIndex));
      PrefixGrows(oldCurrent, oldPrevious, triangleIndex);
      StepBuffersGrow(st, mesh, triangleIndex);
    }

    /**
     * One turn of CreateTriangleData's loop: sort triangle i's vertices,
     * rotate its buffer entry, and add its pieces to the lists.
     */
    method ProcessTriangle(ctx: Context, triangleIndex: nat)
      requires Valid() && triangleIndex < TriangleCount(Mesh())
      requires SubmergedTriangles == AllPieces(StepOf(ctx), Mesh(), triangleIndex)
      requires TriangleBufferIndices == AllIndices(StepOf(ctx), Mesh(), triangleIndex)
      modifies this`SubmergedTriangles, this`TriangleBufferIndices, currentVertices
      modifies PreviousBuffers, CurrentBuffers
      ensures Valid()
      ensures SubmergedTriangles == AllPieces(StepOf(ctx), Mesh(), triangleIndex + 1)
      ensures TriangleBufferIndices == AllIndices(StepOf(ctx), Mesh(), triangleIndex + 1)
      ensures PreviousBuffers[..] == old(PreviousBuffers[..])[triangleIndex := old(CurrentBuffers[triangleIndex])]
      ensures CurrentBuffers[..] == old(CurrentBuffers[..])[triangleIndex := StepBuffer(StepOf(ctx), Mesh(), triangleIndex)]
    {
      SetSortedTriangleVertices(ctx, triangleIndex);
      PreviousBuffers[triangleIndex] := CurrentBuffers[triangleIndex];
      var buffer := NewTriangleBuffer(ctx.math, currentVertices[0].globalVertex,
        currentVertices[1].globalVertex, currentVertices[2].globalVertex, ctx.body);
      var submergedArea := CutSortedTriangle(ctx, triangleIndex, buffer.originalArea);
      CurrentBuffers[triangleIndex] := buffer.(submergedArea := submergedArea);
      AllPiecesStep(StepOf(ctx), Mesh(), triangleIndex);
    }

    /**
     * The switch of CreateTriangleData on the state of the sorted current
     * vertices: adds the pieces and returns the submergedArea to store.
     */
    method CutSortedTriangle(ctx: Context, triangleIndex: nat, originalArea: real) returns (submergedArea: real)
      requires currentVertices.Length == 3
      modifies this`SubmergedTriangles, this`TriangleBufferIndices
      ensures SubmergedTriangles == old(SubmergedTriangles) + Infos(StepOf(ctx), TrianglePieces(StepOf(ctx), currentVertices[..]))
      ensures TriangleBufferIndices == old(TriangleBufferIndices) + Repeat(triangleIndex, |TrianglePieces(StepOf(ctx), currentVertices[..])|)
      ensures submergedArea == StoredArea(StepOf(ctx), currentVertices[..], originalArea)
    {
      ghost var s := currentVertices[..];
      assert s[0] == currentVertices[0] && s[1] == currentVertices[1] && s[2] == currentVertices[2];
      var triangleState := SetTriangleState();
      match triangleState {
        case AboveWater =>
          submergedArea := 0.0;
        case TwoAboveWater =>
          submergedArea := CuttingAlgorithmTwoAbove(ctx, currentVertices[0], currentVertices[1], currentVertices[2], triangleIndex);
        case OneAboveWater =>
          submergedArea := CuttingAlgorithmOneAbove(ctx, currentVertices[0], currentVertices[1], currentVertices[2], triangleIndex);
        case Submerged =>
          var _ := CuttingAlgorithmHorizontal(ctx, currentVertices[0], currentVertices[1], currentVertices[2], triangleIndex);
          submergedArea := originalArea;
      }
    }
  }

  // ---------------------------------------------------------------------
  // Properties of a whole step.

  /** The concatenation and its owner list have the same length. */
  lemma {:induction false} ConcatOwnersSameLength<T>(parts: nat -> seq<T>, k: nat)
    ensures |Concat(parts, k)| == |Owners(parts, k)|
  {
    if k > 0 {
      ConcatOwnersSameLength(parts, k - 1);
    }
  }

  /** Every owner is below k, and owners never decrease along the list. */
  lemma {:induction false} OwnersSortedInRange<T>(parts: nat -> seq<T>, k: nat)
    ensures forall p :: 0 <= p < |Owners(parts, k)| ==> 0 <= Owners(parts, k)[p] < k
    ensures forall p, q :: 0 <= p <= q < |Owners(parts, k)| ==> Owners(parts, k)[p] <= Owners(parts, k)[q]
  {
    if k > 0 {
      OwnersSortedInRange(parts, k - 1);
      var before := Owners(parts, k - 1);
      var owners := Owners(parts, k);
      assert owners == before + Repeat(k - 1, |parts(k - 1)|);
      assert forall p :: |before| <= p < |owners| ==> owners[p] == k - 1;
      assert forall p :: 0 <= p < |before| ==> owners[p] == before[p];
    }
  }

  /** Entry p of the concatenation is an entry of the part its owner names. */
  lemma {:induction false} ConcatEntryInOwnersPart<T>(parts: nat -> seq<T>, k: nat, p: nat)
    requires p < |Concat(parts, k)|
    ensures |Concat(parts, k)| == |Owners(parts, k)|
    ensures 0 <= Owners(parts, k)[p] < k
    ensures Concat(parts, k)[p] in parts(Owners(parts, k)[p])
  {
    ConcatOwnersSameLength(parts, k);
    OwnersSortedInRange(parts, k);
    var before := Concat(parts, k - 1);
    ConcatOwnersSameLength(parts, k - 1);
    assert Concat(parts, k) == before + parts(k - 1);
    assert Owners(parts, k) == Owners(parts, k - 1) + Repeat(k - 1, |parts(k - 1)|);
    if p < |before| {
      ConcatEntryInOwnersPart(parts, k - 1, p);
      assert Concat(parts, k)[p] == before[p];
      assert Owners(parts, k)[p] == Owners(parts, k - 1)[p];
    } else {
      assert Concat(parts, k)[p] == parts(k - 1)[p - |before|];
      assert Owners(parts, k)[p] == k - 1;
    }
  }

  /**
   * The lists run in lockstep: they have equal length, the buffer indices
   * name triangles in mesh order, and entry p of SubmergedTriangles is one of
   * the pieces of the triangle that entry p of TriangleBufferIndices names.
   */
  lemma AllPiecesLockstep(st: Step, mesh: HullMesh, k: nat, p: nat)
    requires WellFormed(mesh) && k <= TriangleCount(mesh) && p < |AllPieces(st, mesh, k)|
    ensures |AllPieces(st, mesh, k)| == |AllIndices(st, mesh, k)|
    ensures 0 <= AllIndices(st, mesh, k)[p] < k
    ensures forall q :: p <= q < |AllIndices(st, mesh, k)| ==> AllIndices(st, mesh, k)[p] <= AllIndices(st, mesh, k)[q]
    ensures AllPieces(st, mesh, k)[p] in Infos(st, PiecesOf(st, mesh, AllIndices(st, mesh, k)[p]))
  {
    ConcatEntryInOwnersPart(TriangleInfos(st, mesh), k, p);
    OwnersSortedInRange(TriangleInfos(st, mesh), k);
  }

  /** How triangle i lies against the water this step, as SetTriangleState reads its sorted heights. */
  function StateAt(st: Step, mesh: HullMesh, i: nat): TriangleState
    requires WellFormed(mesh) && i < TriangleCount(mesh)
  {
    var s := SortedVertices(st.ctx, mesh, i, st.timeStamp);
    StateOf(s[0].height, s[1].height, s[2].height)
  }

  /** The summed area of the entries of `pieces` whose entry in `owners` is i. */
  function OwnedArea(pieces: seq<TriangleInfo>, owners: seq<int>, i: int): real
    requires |pieces| == |owners|
  {
    if |pieces| == 0 then 0.0
    else
      var last := if owners[|owners| - 1] == i then pieces[|pieces| - 1].area else 0.0;
      OwnedArea(pieces[..|pieces| - 1], owners[..|owners| - 1], i) + last
  }

  lemma {:induction false} OwnedAreaAppend(a: seq<TriangleInfo>, oa: seq<int>, b: seq<TriangleInfo>, ob: seq<int>, i: int)
    requires |a| == |oa| && |b| == |ob|
    ensures OwnedArea(a + b, oa + ob, i) == OwnedArea(a, oa, i) + OwnedArea(b, ob, i)
    decreases |b|
  {
    if |b| == 0 {
      assert a + b == a && oa + ob == oa;
    } else {
      assert (a + b)[..|a + b| - 1] == a + b[..|b| - 1];
      assert (oa + ob)[..|oa + ob| - 1] == oa + ob[..|ob| - 1];
      OwnedAreaAppend(a, oa, b[..|b| - 1], ob[..|ob| - 1], i);
    }
  }

  /** A run owned by one triangle contributes its whole area to that triangle and nothing to any other. */
  lemma {:induction false} OwnedAreaOfRun(b: seq<TriangleInfo>, j: int, i: int)
    ensures OwnedArea(b, Repeat(j, |b|), i) == if j == i then AreaSum(b) else 0.0
    decreases |b|
  {
    if |b| > 0 {
      assert Repeat(j, |b|)[..|b| - 1] == Repeat(j, |b| - 1);
      OwnedAreaOfRun(b[..|b| - 1], j, i);
    }
  }

  /** In a concatenation of parts, the entries owned by i sum to the area of part i, or to 0 if i is not among the first k. */
  lemma {:induction false} OwnedAreaOfConcat(parts: nat -> seq<TriangleInfo>, k: nat, i: int)
    ensures |Concat(parts, k)| == |Owners(parts, k)|
    ensures OwnedArea(Concat(parts, k), Owners(parts, k), i) == if 0 <= i < k then AreaSum(parts(i)) else 0.0
  {
    ConcatOwnersSameLength(parts, k);
    if k > 0 {
      OwnedAreaOfConcat(parts, k - 1, i);
      ConcatOwnersSameLength(parts, k - 1);
      OwnedAreaAppend(Concat(parts, k - 1), Owners(parts, k - 1), parts(k - 1), Repeat(k - 1, |parts(k - 1)|), i);
      OwnedAreaOfRun(parts(k - 1), k - 1, i);
    }
  }

  /**
   * The area stored for a triangle that is not fully submerged is the area
   * of exactly the entries of SubmergedTriangles whose buffer index names
   * it; a fully submerged one stores its original area instead.
   */
  lemma {:induction false} StoredAreaIsOwnedArea(st: Step, mesh: HullMesh, i: nat)
    requires WellFormed(mesh) && i < TriangleCount(mesh)
    ensures |AllPieces(st, mesh, TriangleCount(mesh))| == |AllIndices(st, mesh, TriangleCount(mesh))|
    ensures StateAt(st, mesh, i) != Submerged ==>
      StepBuffers(st, mesh, TriangleCount(mesh))[i].submergedArea
        == OwnedArea(AllPieces(st, mesh, TriangleCount(mesh)), AllIndices(st, mesh, TriangleCount(mesh)), i)
    ensures StateAt(st, mesh, i) == Submerged ==>
      StepBuffers(st, mesh, TriangleCount(mesh))[i].submergedArea == StepBuffers(st, mesh, TriangleCount(mesh))[i].originalArea
  {
    var k := TriangleCount(mesh);
    OwnedAreaOfConcat(TriangleInfos(st, mesh), k, i);
    assert StepBuffers(st, mesh, k)[i] == StepBuffer(st, mesh, i);
    assert TriangleInfos(st, mesh)(i) == Infos(st, PiecesOf(st, mesh, i));
    if StateAt(st, mesh, i) == AboveWater {
      assert PiecesOf(st, mesh, i) == [];
    }
  }

  /** StoredAreaIsOwnedArea for every triangle of a finished step. */
  lemma StoredAreasAreOwnedAreas(st: Step, mesh: HullMesh, buffers: seq<TriangleBuffer>, pieces: seq<TriangleInfo>, owners: seq<int>)
    requires WellFormed(mesh) && buffers == StepBuffers(st, mesh, TriangleCount(mesh))
    requires pieces == AllPieces(st, mesh, TriangleCount(mesh)) && owners == AllIndices(st, mesh, TriangleCount(mesh))
    ensures |pieces| == |owners|
    ensures forall i: nat :: i < |buffers| && StateAt(st, mesh, i) != Submerged ==>
      buffers[i].submergedArea == OwnedArea(pieces, owners, i)
  {
    ConcatOwnersSameLength(TriangleInfos(st, mesh), TriangleCount(mesh));
    forall i: nat | i < |buffers| && StateAt(st, mesh, i) != Submerged
      ensures buffers[i].submergedArea == OwnedArea(pieces, owners, i)
    {
      StoredAreaIsOwnedArea(st, mesh, i);
    }
  }

  /** Every piece of a step keeps the winding of the hull triangle it came from. */
  lemma EveryPieceOriented(st: Step, mesh: HullMesh, i: nat)
    requires WellFormed(mesh) && i < TriangleCount(mesh)
    ensures forall p :: p in PiecesOf(st, mesh, i) ==> Oriented(p)
  {
    var raw := RawVertices(st.ctx, mesh, i, st.timeStamp);
    SortKeepsSlots(raw);
    TrianglePiecesOriented(st, SortByHeight(raw));
  }

  /** The hull's total area is never negative. */
  lemma {:induction false} MeshAreaNonNegative(ctx: Context, mesh: HullMesh, k: nat)
    requires SqrtLaws(ctx.math) && TrigLaws(ctx.math) && WellFormed(mesh) && k <= TriangleCount(mesh)
    ensures MeshArea(ctx, mesh, k) >= 0.0
  {
    if k > 0 {
      MeshAreaNonNegative(ctx, mesh, k - 1);
      AreaNonNegative(ctx.math, Corner(ctx, mesh, k - 1, 0), Corner(ctx, mesh, k - 1, 1), Corner(ctx, mesh, k - 1, 2));
    }
  }
}
