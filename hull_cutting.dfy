/*
 * What HullMeshModifier.cs computes in one step, as values: the pieces
 * CutSubmergedTriangleToHorizontal, CutTriangleOneAboveWater and
 * CutTriangleTwoAboveWater emit for one triangle, the triangle above the
 * water, the submerged area stored in the triangle's slamming record, and
 * the whole pass of GenerateSubmergedTriangles over the hull with its
 * triangle counter. The class in module HullMeshModifier is proved to
 * produce exactly these lists.
 *
 * The legacy pipeline tests heights strictly (`> 0f`, `< 0f`), cuts with a
 * fixed 0.001 tolerance, gives new cut vertices slot 0, and does not advance
 * its triangle counter past a triangle entirely above the water. All of
 * this is kept as written; the lemmas below pin each consequence down.
 */
module HullCutting {
  import opened UnityMath
  import opened InteractionTypes
  import opened InteractionUtils
  import opened MeshData
  import TC = TriangleCutting
  import TB = TriangleBuilder

  /** The 0.001f of the level tests in CutSubmergedTriangleToHorizontal. */
  const CutEpsilon: real := 0.001

  /** `new TriangleData(p1, p2, p3, triangleType, hullRB, timeSinceStart)` for the arguments recorded in a piece. */
  function Data(st: TC.Step, p: TC.Piece): TriangleData {
    NewTriangleData(st.ctx.math, st.ctx.water, p.vi1, p.vi2, p.vi3, p.triangleType, st.ctx.body, st.timeStamp)
  }

  /** The TriangleData of each piece, in order. */
  function Datas(st: TC.Step, ps: seq<TC.Piece>): (r: seq<TriangleData>)
    ensures |r| == |ps|
  {
    seq(|ps|, i requires 0 <= i < |ps| => Data(st, ps[i]))
  }

  /** The data of two runs of pieces is the data of each, one after the other. */
  lemma DatasAppend(st: TC.Step, a: seq<TC.Piece>, b: seq<TC.Piece>, x: int)
    ensures Datas(st, a + b) == Datas(st, a) + Datas(st, b)
    ensures TC.Repeat(x, |a + b|) == TC.Repeat(x, |a|) + TC.Repeat(x, |b|)
  {
    assert forall i :: 0 <= i < |a + b| ==> Datas(st, a + b)[i] == (Datas(st, a) + Datas(st, b))[i] by {
      forall i | 0 <= i < |a + b|
        ensures Datas(st, a + b)[i] == (Datas(st, a) + Datas(st, b))[i]
      {
        if i < |a| {
          assert (a + b)[i] == a[i];
        } else {
          assert (a + b)[i] == b[i - |a|];
        }
      }
    }
    TC.RepeatAppend(x, |a|, |b|);
  }

  /** A list grown in two steps is the list grown by both at once. */
  lemma AppendAssociates<T>(a: seq<T>, b: seq<T>, c: seq<T>)
    ensures a + b + c == a + (b + c)
  {
  }

  /** Entries added in two turns are the entries of both runs of pieces, added at once. */
  lemma AddedInTurn(st: TC.Step, submerged: seq<TriangleData>, indices: seq<int>, a: seq<TC.Piece>, b: seq<TC.Piece>, x: int)
    ensures submerged + Datas(st, a) + Datas(st, b) == submerged + Datas(st, a + b)
    ensures indices + TC.Repeat(x, |a|) + TC.Repeat(x, |b|) == indices + TC.Repeat(x, |a + b|)
  {
    DatasAppend(st, a, b, x);
    AppendAssociates(submerged, Datas(st, a), Datas(st, b));
    AppendAssociates(indices, TC.Repeat(x, |a|), TC.Repeat(x, |b|));
  }

  /** Adding no pieces leaves both lists as they are. */
  lemma NoneAdded(st: TC.Step, triangles: seq<TriangleData>, indices: seq<int>, x: int)
    ensures triangles + Datas(st, []) == triangles
    ensures indices + TC.Repeat(x, 0) == indices
  {
    assert Datas(st, []) == [] && TC.Repeat(x, 0) == [];
  }

  /** One or two pieces, as the lists they add. */
  lemma DatasOfFew(st: TC.Step, p: TC.Piece, q: TC.Piece, x: int)
    ensures Datas(st, [p]) == [Data(st, p)] && TC.Repeat(x, 1) == [x]
    ensures Datas(st, [p, q]) == [Data(st, p), Data(st, q)] && TC.Repeat(x, 2) == [x, x]
  {
    assert [p][..0] == [];
    assert [p, q][..1] == [p];
  }

  // ---------------------------------------------------------------------
  // Slots.

  /** DL_clockwiseIndex: the slot before `cw`, wrapping round to 2. */
  function LeftSlot(cw: int): (r: int)
    ensures 0 <= cw < 3 ==> r == Rem(cw + 2, 3)
  {
    if cw - 1 < 0 then 2 else cw - 1
  }

  /** H_clockwiseIndex: the slot after `cw`, wrapping round to 0. */
  function RightSlot(cw: int): (r: int)
    ensures 0 <= cw < 3 ==> r == TC.NextSlot(cw)
  {
    if cw + 1 > 2 then 0 else cw + 1
  }

  /** (DL, DR) of a sorted list: of the two lower vertices, the one in U's left slot, then the other. */
  function LeftAndRight(s: seq<VertexData>): (VertexData, VertexData)
    requires |s| == 3
  {
    if s[1].clockwiseOrder == LeftSlot(s[0].clockwiseOrder) then (s[1], s[2]) else (s[2], s[1])
  }

  /** The list handed to CutSubmergedTriangleToHorizontal after the clockwise indices are set to 0, 1, 2. */
  function Renumbered(a: VertexData, b: VertexData, c: VertexData): (r: seq<VertexData>)
    ensures |r| == 3 && HasSlotPermutation(r)
  {
    [a.(clockwiseOrder := 0), b.(clockwiseOrder := 1), c.(clockwiseOrder := 2)]
  }

  // ---------------------------------------------------------------------
  // Cut vertices: a new VertexData keeps the default clockwiseIndex 0.

  /** cutLU: on the L-U edge at M's relative height. */
  function LevelCut(st: TC.Step, u: VertexData, m: VertexData, l: VertexData): VertexData {
    TC.CutAt(st, l, u, TC.LevelParameter(st, u, m, l)).(clockwiseOrder := 0)
  }

  /**
   * I_M, I_L, J_M, J_H: where the edge from `lower` up to `upper` meets the
   * water, written as the legacy code writes it, t times the edge plus the
   * lower end.
   */
  function WaterlinePoint(st: TC.Step, lower: VertexData, upper: VertexData): VertexData {
    var t := st.ctx.math.divide(-lower.height, upper.height - lower.height);
    var p := Add(Scale(Sub(upper.globalVertex, lower.globalVertex), t), lower.globalVertex);
    VertexInfo(st.ctx.water(p, st.timeStamp), 0, p)
  }

  /** It is the waterline cut of the refined pipeline, in slot 0. */
  lemma WaterlinePointIsCut(st: TC.Step, lower: VertexData, upper: VertexData)
    ensures WaterlinePoint(st, lower, upper) == TC.WaterlineCut(st, lower, upper).(clockwiseOrder := 0)
  {
    var t := TC.WaterlineParameter(st, lower, upper);
    assert Add(Scale(Sub(upper.globalVertex, lower.globalVertex), t), lower.globalVertex)
      == Along(lower.globalVertex, upper.globalVertex, t);
  }

  // ---------------------------------------------------------------------
  // The three cutting methods.

  /**
   * CutSubmergedTriangleToHorizontal on a list sorted highest first: one
   * piece U, DR, DL when U and M (type 1) or M and L (type 0) are level
   * within the tolerance, otherwise two pieces either side of the cut on
   * the L-U edge at M's height.
   */
  function HorizontalPieces(st: TC.Step, s: seq<VertexData>): (r: seq<TC.Piece>)
    requires |s| == 3
    ensures 1 <= |r| <= 2
  {
    var u, m, l := s[0], s[1], s[2];
    var (dl, dr) := LeftAndRight(s);
    if u.height - m.height < st.epsilon then [TC.Piece(u, dr, dl, 1)]
    else if m.height - l.height < st.epsilon then [TC.Piece(u, dr, dl, 0)]
    else
      var cut := LevelCut(st, u, m, l);
      if l.clockwiseOrder == dl.clockwiseOrder then [TC.Piece(u, m, cut, 0), TC.Piece(cut, m, l, 1)]
      else [TC.Piece(u, cut, m, 0), TC.Piece(m, cut, l, 1)]
  }

  /** tempDataList.Sort, Reverse, then CutSubmergedTriangleToHorizontal. */
  function SortedHorizontalPieces(st: TC.Step, s: seq<VertexData>): (r: seq<TC.Piece>)
    requires |s| == 3
    ensures 1 <= |r| <= 2
  {
    HorizontalPieces(st, SortByHeight(s))
  }

  /** U, DL, DR and the waterline points I_M (on DL-U) and I_L (on DR-U) of CutTriangleOneAboveWater. */
  function OneAbovePoints(st: TC.Step, s: seq<VertexData>): (VertexData, VertexData, VertexData, VertexData, VertexData)
    requires |s| == 3
  {
    var (dl, dr) := LeftAndRight(s);
    (s[0], dl, dr, WaterlinePoint(st, dl, s[0]), WaterlinePoint(st, dr, s[0]))
  }

  /** The triangle I_M, U, I_L that stays above the water. */
  function OneAboveCap(st: TC.Step, s: seq<VertexData>): TC.Piece
    requires |s| == 3
  {
    var (u, dl, dr, im, il) := OneAbovePoints(st, s);
    TC.Piece(im, u, il, 2)
  }

  /** The submerged area stored: the quadrilateral DL, I_M, I_L, DR as two triangles. */
  function OneAboveArea(st: TC.Step, s: seq<VertexData>): real
    requires |s| == 3
  {
    var (u, dl, dr, im, il) := OneAbovePoints(st, s);
    GetTriangleArea(st.ctx.math, dl.globalVertex, im.globalVertex, il.globalVertex)
      + GetTriangleArea(st.ctx.math, dl.globalVertex, il.globalVertex, dr.globalVertex)
  }

  /** The two triangles of the submerged quadrilateral, with their clockwise indices reset. */
  function OneAboveTriangles(st: TC.Step, s: seq<VertexData>): (r: (seq<VertexData>, seq<VertexData>))
    requires |s| == 3
    ensures |r.0| == 3 && |r.1| == 3
  {
    var (u, dl, dr, im, il) := OneAbovePoints(st, s);
    (Renumbered(dl, im, il), Renumbered(dl, il, dr))
  }

  function OneAbovePieces(st: TC.Step, s: seq<VertexData>): (r: seq<TC.Piece>)
    requires |s| == 3
    ensures 2 <= |r| <= 4
  {
    var (first, second) := OneAboveTriangles(st, s);
    SortedHorizontalPieces(st, first) + SortedHorizontalPieces(st, second)
  }

  /** The cap, the stored area and the submerged pieces of CutTriangleOneAboveWater in terms of its five points. */
  lemma OneAboveParts(st: TC.Step, s: seq<VertexData>, u: VertexData, dl: VertexData, dr: VertexData, im: VertexData, il: VertexData)
    requires |s| == 3 && OneAbovePoints(st, s) == (u, dl, dr, im, il)
    ensures OneAboveCap(st, s) == TC.Piece(im, u, il, 2)
    ensures OneAboveArea(st, s) == GetTriangleArea(st.ctx.math, dl.globalVertex, im.globalVertex, il.globalVertex)
      + GetTriangleArea(st.ctx.math, dl.globalVertex, il.globalVertex, dr.globalVertex)
    ensures OneAbovePieces(st, s) == SortedHorizontalPieces(st, Renumbered(dl, im, il)) + SortedHorizontalPieces(st, Renumbered(dl, il, dr))
  {
  }

  /** L, H (the vertex in L's right slot), M and the waterline points J_H and J_M of CutTriangleTwoAboveWater. */
  function TwoAbovePoints(st: TC.Step, s: seq<VertexData>): (VertexData, VertexData, VertexData, VertexData, VertexData)
    requires |s| == 3
  {
    var l := s[2];
    var (h, m) := if s[1].clockwiseOrder == RightSlot(l.clockwiseOrder) then (s[1], s[0]) else (s[0], s[1]);
    (l, h, m, WaterlinePoint(st, l, h), WaterlinePoint(st, l, m))
  }

  /** The submerged area stored: the triangle L, J_H, J_M. */
  function TwoAboveArea(st: TC.Step, s: seq<VertexData>): real
    requires |s| == 3
  {
    var (l, h, m, jh, jm) := TwoAbovePoints(st, s);
    GetTriangleArea(st.ctx.math, l.globalVertex, jh.globalVertex, jm.globalVertex)
  }

  /** The submerged triangle with its clockwise indices reset. */
  function TwoAboveTriangle(st: TC.Step, s: seq<VertexData>): (r: seq<VertexData>)
    requires |s| == 3
    ensures |r| == 3
  {
    var (l, h, m, jh, jm) := TwoAbovePoints(st, s);
    Renumbered(l, jh, jm)
  }

  function TwoAbovePieces(st: TC.Step, s: seq<VertexData>): (r: seq<TC.Piece>)
    requires |s| == 3
    ensures 1 <= |r| <= 2
  {
    SortedHorizontalPieces(st, TwoAboveTriangle(st, s))
  }

  // ---------------------------------------------------------------------
  // One triangle of GenerateSubmergedTriangles.

  /** What happens to slammingForceDataList[triangleCounter].submergedArea. */
  datatype AreaUpdate = Unchanged | SetTo(area: real) | SetToOriginal

  /** The pieces a triangle adds to each list, its area update, and whether it advances the counter. */
  datatype Outcome = Outcome(above: seq<TC.Piece>, submerged: seq<TC.Piece>, update: AreaUpdate, counted: bool)

  predicate AllAbove(s: seq<VertexData>)
    requires |s| == 3
  {
    s[0].height > 0.0 && s[1].height > 0.0 && s[2].height > 0.0
  }

  predicate AllBelow(s: seq<VertexData>)
    requires |s| == 3
  {
    s[0].height < 0.0 && s[1].height < 0.0 && s[2].height < 0.0
  }

  /** The branches after the sort, on strict tests; a vertex exactly on the water matches none of them. */
  function SortedOutcome(st: TC.Step, s: seq<VertexData>): Outcome
    requires |s| == 3
  {
    if AllBelow(s) then
      Outcome([], HorizontalPieces(st, s), SetToOriginal, true)
    else if s[0].height > 0.0 && s[1].height < 0.0 && s[2].height < 0.0 then
      Outcome([OneAboveCap(st, s)], OneAbovePieces(st, s), SetTo(OneAboveArea(st, s)), true)
    else if s[0].height > 0.0 && s[1].height > 0.0 && s[2].height < 0.0 then
      Outcome([], TwoAbovePieces(st, s), SetTo(TwoAboveArea(st, s)), true)
    else
      Outcome([], [], Unchanged, true)
  }

  /** A triangle above the water is kept whole and skips `++triangleCounter`; any other is sorted first. */
  function TriangleOutcome(st: TC.Step, raw: seq<VertexData>): Outcome
    requires |raw| == 3
  {
    if AllAbove(raw) then Outcome([TC.Piece(raw[0], raw[1], raw[2], 2)], [], SetTo(0.0), false)
    else SortedOutcome(st, SortByHeight(raw))
  }

  /** The update of one slamming record's submergedArea. */
  function Apply(slamming: seq<SlammingForceData>, counter: nat, update: AreaUpdate): (r: seq<SlammingForceData>)
    requires counter < |slamming|
    ensures |r| == |slamming|
    ensures forall j :: 0 <= j < |slamming| && j != counter ==> r[j] == slamming[j]
    ensures r[counter] == slamming[counter].(submergedArea := r[counter].submergedArea)
    ensures update.Unchanged? ==> r == slamming
    ensures update.SetTo? ==> r[counter].submergedArea == update.area
    ensures update.SetToOriginal? ==> r[counter].submergedArea == slamming[counter].originalArea
  {
    match update
    case Unchanged => slamming
    case SetTo(area) => slamming[counter := slamming[counter].(submergedArea := area)]
    case SetToOriginal => slamming[counter := slamming[counter].(submergedArea := slamming[counter].originalArea)]
  }

  // ---------------------------------------------------------------------
  // The whole pass.

  /** The pieces of the two lists after GenerateSubmergedTriangles, the indices, the slamming records and the counter. */
  datatype HullLists = HullLists(
    submerged: seq<TC.Piece>,
    above: seq<TC.Piece>,
    indices: seq<int>,
    slamming: seq<SlammingForceData>,
    counter: nat)

  /** A mesh whose triangle list holds whole triangles, as Unity's meshes do. */
  predicate Triangulated(mesh: TB.HullMesh) {
    TB.WellFormed(mesh) && |mesh.triangles| % 3 == 0
  }

  /** The outcome of every triangle of the mesh, in mesh order. */
  function Outcomes(st: TC.Step, mesh: TB.HullMesh): (r: seq<Outcome>)
    requires TB.WellFormed(mesh)
    ensures |r| == TB.TriangleCount(mesh)
    ensures forall j :: 0 <= j < |r| ==> r[j] == TriangleOutcome(st, TB.RawVertices(st.ctx, mesh, j, st.timeStamp))
  {
    seq(TB.TriangleCount(mesh), j requires 0 <= j < TB.TriangleCount(mesh) => TriangleOutcome(st, TB.RawVertices(st.ctx, mesh, j, st.timeStamp)))
  }

  /** Entry j of outcomes is the outcome of triangle j of the mesh. */
  ghost predicate IsOutcome(st: TC.Step, mesh: TB.HullMesh, outcomes: seq<Outcome>, j: nat)
    requires TB.WellFormed(mesh) && j < |outcomes| && j < TB.TriangleCount(mesh)
  {
    outcomes[j] == TriangleOutcome(st, TB.RawVertices(st.ctx, mesh, j, st.timeStamp))
  }

  /**
   * The lists after the first k triangles, from their outcomes and the
   * slamming records the pass starts with. The counter stays at most k, so
   * every store lands in the list, and the two submerged lists grow in
   * lockstep.
   */
  function Generate(outcomes: seq<Outcome>, slamming: seq<SlammingForceData>, k: nat): (r: HullLists)
    requires k <= |outcomes| <= |slamming|
    ensures r.counter <= k && |r.slamming| == |slamming| && |r.submerged| == |r.indices|
  {
    if k == 0 then HullLists([], [], [], slamming, 0)
    else
      var prior := Generate(outcomes, slamming, k - 1);
      var o := outcomes[k - 1];
      HullLists(
        prior.submerged + o.submerged,
        prior.above + o.above,
        prior.indices + TC.Repeat(prior.counter, |o.submerged|),
        Apply(prior.slamming, prior.counter, o.update),
        if o.counted then prior.counter + 1 else prior.counter)
  }

  /** One more outcome: each list grows by its pieces, and its update lands at the current counter. */
  lemma GenerateStep(outcomes: seq<Outcome>, slamming: seq<SlammingForceData>, k: nat)
    requires k < |outcomes| <= |slamming|
    ensures var prior := Generate(outcomes, slamming, k);
      var o := outcomes[k];
      Generate(outcomes, slamming, k + 1) == HullLists(
        prior.submerged + o.submerged,
        prior.above + o.above,
        prior.indices + TC.Repeat(prior.counter, |o.submerged|),
        Apply(prior.slamming, prior.counter, o.update),
        if o.counted then prior.counter + 1 else prior.counter)
  {
  }

  /**
   * The lists of GenerateSubmergedTriangles after k triangles: each list
   * is what it held before the pass followed by the pass's own entries.
   */
  ghost predicate ListsAfter(st: TC.Step, outcomes: seq<Outcome>, slamming: seq<SlammingForceData>, k: nat,
    submerged0: seq<TriangleData>, above0: seq<TriangleData>, indices0: seq<int>,
    submerged: seq<TriangleData>, above: seq<TriangleData>, indices: seq<int>, records: seq<SlammingForceData>, counter: nat)
    requires k <= |outcomes| <= |slamming|
  {
    var g := Generate(outcomes, slamming, k);
    && submerged == submerged0 + Datas(st, g.submerged)
    && above == above0 + Datas(st, g.above)
    && indices == indices0 + g.indices
    && records == g.slamming
    && counter == g.counter
  }

  /** Adding triangle k's outcome to the lists after k triangles gives the lists after k + 1. */
  lemma ListsAdvance(st: TC.Step, outcomes: seq<Outcome>, slamming: seq<SlammingForceData>, k: nat,
    submerged0: seq<TriangleData>, above0: seq<TriangleData>, indices0: seq<int>,
    submerged: seq<TriangleData>, above: seq<TriangleData>, indices: seq<int>, records: seq<SlammingForceData>, counter: nat)
    requires k < |outcomes| <= |slamming|
    requires ListsAfter(st, outcomes, slamming, k, submerged0, above0, indices0, submerged, above, indices, records, counter)
    ensures counter < |records|
    ensures ListsAfter(st, outcomes, slamming, k + 1, submerged0, above0, indices0,
      submerged + Datas(st, outcomes[k].submerged), above + Datas(st, outcomes[k].above),
      indices + TC.Repeat(counter, |outcomes[k].submerged|), Apply(records, counter, outcomes[k].update),
      if outcomes[k].counted then counter + 1 else counter)
  {
    var prior := Generate(outcomes, slamming, k);
    var o := outcomes[k];
    GenerateStep(outcomes, slamming, k);
    DatasAppend(st, prior.submerged, o.submerged, counter);
    DatasAppend(st, prior.above, o.above, counter);
    AppendAssociates(submerged0, Datas(st, prior.submerged), Datas(st, o.submerged));
    AppendAssociates(above0, Datas(st, prior.above), Datas(st, o.above));
    AppendAssociates(indices0, prior.indices, TC.Repeat(counter, |o.submerged|));
  }

  /** The loop of CalculateVertexData: every previousSubmergedArea takes the submergedArea, nothing else changes. */
  function Rotated(slamming: seq<SlammingForceData>): (r: seq<SlammingForceData>)
    ensures |r| == |slamming|
    ensures forall j :: 0 <= j < |slamming| ==> r[j].previousSubmergedArea == slamming[j].submergedArea
    ensures forall j :: 0 <= j < |slamming| ==> r[j].(previousSubmergedArea := slamming[j].previousSubmergedArea) == slamming[j]
  {
    seq(|slamming|, j requires 0 <= j < |slamming| => slamming[j].(previousSubmergedArea := slamming[j].submergedArea))
  }

  /** How many of the first k outcomes do not advance the counter. */
  function SkippedCount(outcomes: seq<Outcome>, k: nat): nat
    requires k <= |outcomes|
  {
    if k == 0 then 0 else SkippedCount(outcomes, k - 1) + (if outcomes[k - 1].counted then 0 else 1)
  }

  /** How many of the first k triangles lie entirely above the water. */
  function AboveCount(st: TC.Step, mesh: TB.HullMesh, k: nat): nat
    requires TB.WellFormed(mesh) && k <= TB.TriangleCount(mesh)
  {
    if k == 0 then 0
    else AboveCount(st, mesh, k - 1) + (if AllAbove(TB.RawVertices(st.ctx, mesh, k - 1, st.timeStamp)) then 1 else 0)
  }

  /** The area of triangle j of the mesh in its own (local) coordinates. */
  function OriginalArea(n: Numerics, mesh: TB.HullMesh, j: nat): real
    requires TB.WellFormed(mesh) && j < TB.TriangleCount(mesh)
  {
    GetTriangleArea(n, mesh.vertices[mesh.triangles[j * 3]], mesh.vertices[mesh.triangles[j * 3 + 1]],
      mesh.vertices[mesh.triangles[j * 3 + 2]])
  }

  /** The summed local area of the first k triangles. */
  function OriginalAreaSum(n: Numerics, mesh: TB.HullMesh, k: nat): real
    requires TB.WellFormed(mesh) && k <= TB.TriangleCount(mesh)
  {
    if k == 0 then 0.0 else OriginalAreaSum(n, mesh, k - 1) + OriginalArea(n, mesh, k - 1)
  }

  /** The slamming records after CalculateOriginalTrianglesArea has reached triangle k. */
  function WithOriginalAreas(n: Numerics, mesh: TB.HullMesh, slamming: seq<SlammingForceData>, k: nat): (r: seq<SlammingForceData>)
    requires TB.WellFormed(mesh) && k <= TB.TriangleCount(mesh) <= |slamming|
    ensures |r| == |slamming|
  {
    if k == 0 then slamming
    else
      var prior := WithOriginalAreas(n, mesh, slamming, k - 1);
      prior[k - 1 := prior[k - 1].(originalArea := OriginalArea(n, mesh, k - 1))]
  }

  // ---------------------------------------------------------------------
  // Properties of one triangle.

  /**
   * DL is the vertex in U's left slot and DR the one in its right slot, so
   * a piece U, DR, DL goes round clockwise like the hull triangle.
   */
  lemma LeftAndRightSlots(s: seq<VertexData>, triangleType: int)
    requires |s| == 3 && HasSlotPermutation(s)
    ensures var (dl, dr) := LeftAndRight(s);
      && ((dl == s[1] && dr == s[2]) || (dl == s[2] && dr == s[1]))
      && dl.clockwiseOrder == Rem(s[0].clockwiseOrder + 2, 3)
      && dr.clockwiseOrder == Rem(s[0].clockwiseOrder + 1, 3)
      && TC.Oriented(TC.Piece(s[0], dr, dl, triangleType))
  {
  }

  /** H is the vertex in L's right slot, so L, H, M go round clockwise. */
  lemma TwoAboveSlots(st: TC.Step, s: seq<VertexData>)
    requires |s| == 3 && HasSlotPermutation(s)
    ensures var (l, h, m, jh, jm) := TwoAbovePoints(st, s);
      && l == s[2]
      && ((h == s[1] && m == s[0]) || (h == s[0] && m == s[1]))
      && h.clockwiseOrder == TC.NextSlot(l.clockwiseOrder)
      && TC.Oriented(TC.Piece(l, h, m, 0))
  {
  }

  /**
   * CutSubmergedTriangleToHorizontal emits one piece exactly when U and M
   * or M and L are level within the tolerance; otherwise it emits two and
   * cuts strictly inside the L-U edge.
   */
  lemma {:induction false} HorizontalPieceCount(st: TC.Step, s: seq<VertexData>)
    requires |s| == 3 && DivideLaws(st.ctx.math) && st.epsilon > 0.0
    ensures |HorizontalPieces(st, s)| == 1 <==> s[0].height - s[1].height < st.epsilon || s[1].height - s[2].height < st.epsilon
    ensures |HorizontalPieces(st, s)| == 2 ==> 0.0 < TC.LevelParameter(st, s[0], s[1], s[2]) < 1.0
  {
    if |HorizontalPieces(st, s)| == 2 {
      TC.LevelParameterInside(st, s[0], s[1], s[2]);
    }
  }

  /** On flat water both waterline points of CutTriangleOneAboveWater lie on the surface. */
  lemma {:induction false} OneAboveCutsOnSurface(st: TC.Step, s: seq<VertexData>)
    requires |s| == 3 && DivideLaws(st.ctx.math) && TC.FlatWater(st)
    requires TC.OnFlat(s[0]) && TC.OnFlat(s[1]) && TC.OnFlat(s[2])
    requires s[0].height > 0.0 && s[1].height < 0.0 && s[2].height < 0.0
    ensures var (u, dl, dr, im, il) := OneAbovePoints(st, s);
      im.height == 0.0 && il.height == 0.0 && TC.OnFlat(im) && TC.OnFlat(il)
  {
    var (dl, dr) := LeftAndRight(s);
    TC.WaterlineCutOnSurface(st, dl, s[0]);
    TC.WaterlineCutOnSurface(st, dr, s[0]);
    WaterlinePointIsCut(st, dl, s[0]);
    WaterlinePointIsCut(st, dr, s[0]);
  }

  /**
   * Because the tests are strict, a triangle that is not above the water
   * advances the counter, and it leaves no trace (no piece in either list
   * and its stored area unchanged) exactly when one of its vertices lies
   * on the water.
   */
  lemma {:induction false} StrictTests(st: TC.Step, raw: seq<VertexData>)
    requires |raw| == 3
    ensures TriangleOutcome(st, raw).counted <==> !AllAbove(raw)
    ensures TriangleOutcome(st, raw).update == Unchanged <==> !AllAbove(raw) && exists k :: 0 <= k < 3 && raw[k].height == 0.0
    ensures TriangleOutcome(st, raw).update == Unchanged ==> TriangleOutcome(st, raw).above == [] && TriangleOutcome(st, raw).submerged == []
  {
    if !AllAbove(raw) {
      var s := SortByHeight(raw);
      SortByHeightSorts(raw);
      assert s[0] in multiset(raw) && s[1] in multiset(raw) && s[2] in multiset(raw);
      assert raw[0] in multiset(s) && raw[1] in multiset(s) && raw[2] in multiset(s);
      if exists k :: 0 <= k < 3 && raw[k].height == 0.0 {
        var k :| 0 <= k < 3 && raw[k].height == 0.0;
        assert raw[k] in multiset(s);
        assert s[0].height == 0.0 || s[1].height == 0.0 || s[2].height == 0.0;
      } else {
        assert s[0].height != 0.0 && s[1].height != 0.0 && s[2].height != 0.0;
        assert s[0].height >= s[1].height >= s[2].height;
        assert !AllAbove(s);
      }
    }
  }

  // ---------------------------------------------------------------------
  // Properties of the whole pass.

  /** A triangle above the water adds its whole self to the above list, stores 0 and is not counted. */
  lemma AboveOutcome(st: TC.Step, raw: seq<VertexData>)
    requires |raw| == 3 && AllAbove(raw)
    ensures TriangleOutcome(st, raw) == Outcome([TC.Piece(raw[0], raw[1], raw[2], 2)], [], SetTo(0.0), false)
  {
  }

  /** A triangle entirely below the water adds one or two pieces, stores its original area and is counted. */
  lemma {:induction false} BelowOutcome(st: TC.Step, raw: seq<VertexData>)
    requires |raw| == 3 && AllBelow(raw)
    ensures var o := TriangleOutcome(st, raw);
      o.update == SetToOriginal && o.counted && o.above == [] && 1 <= |o.submerged| <= 2
  {
    SortKeepsBelow(raw);
  }

  /** Sorting a triangle below the water leaves it below the water. */
  lemma SortKeepsBelow(raw: seq<VertexData>)
    requires |raw| == 3 && AllBelow(raw)
    ensures AllBelow(SortByHeight(raw))
  {
    var s1 := SwapIfGreater(raw, 0, 1);
    var s2 := SwapIfGreater(s1, 0, 2);
    assert AllBelow(s1);
    assert AllBelow(s2);
  }

  /** A triangle that adds pieces to the submerged list also advances the counter. */
  predicate CountsItsPieces(o: Outcome) {
    |o.submerged| > 0 ==> o.counted
  }

  lemma OutcomesCountTheirPieces(st: TC.Step, mesh: TB.HullMesh)
    requires TB.WellFormed(mesh)
    ensures forall j :: 0 <= j < |Outcomes(st, mesh)| ==> CountsItsPieces(Outcomes(st, mesh)[j])
  {
  }

  /** The counter ends at the number of outcomes that advance it. */
  lemma {:induction false} GenerateCounter(outcomes: seq<Outcome>, slamming: seq<SlammingForceData>, k: nat)
    requires k <= |outcomes| <= |slamming|
    ensures Generate(outcomes, slamming, k).counter == k - SkippedCount(outcomes, k)
  {
    if k > 0 {
      GenerateCounter(outcomes, slamming, k - 1);
    }
  }

  /** Only a triangle entirely above the water leaves the counter where it is. */
  lemma CountedUnlessAbove(st: TC.Step, raw: seq<VertexData>, o: Outcome)
    requires |raw| == 3 && o == TriangleOutcome(st, raw)
    ensures o.counted <==> !AllAbove(raw)
  {
  }

  /** On a hull the skipped outcomes are exactly the triangles above the water. */
  lemma SkippedAreAbove(st: TC.Step, mesh: TB.HullMesh, k: nat)
    requires TB.WellFormed(mesh) && k <= TB.TriangleCount(mesh)
    ensures SkippedCount(Outcomes(st, mesh), k) == AboveCount(st, mesh, k)
  {
    var outcomes := Outcomes(st, mesh);
    forall j | 0 <= j < |outcomes|
      ensures outcomes[j].counted <==> !AllAbove(TB.RawVertices(st.ctx, mesh, j, st.timeStamp))
    {
      CountedUnlessAbove(st, TB.RawVertices(st.ctx, mesh, j, st.timeStamp), outcomes[j]);
    }
    SkippedMatchAbove(st, mesh, outcomes, k);
  }

  /** Any list of outcomes that skips exactly the triangles above the water skips as many as lie above it. */
  lemma {:induction false} SkippedMatchAbove(st: TC.Step, mesh: TB.HullMesh, outcomes: seq<Outcome>, k: nat)
    requires TB.WellFormed(mesh) && k <= TB.TriangleCount(mesh) == |outcomes|
    requires forall j :: 0 <= j < |outcomes| ==> (outcomes[j].counted <==> !AllAbove(TB.RawVertices(st.ctx, mesh, j, st.timeStamp)))
    ensures SkippedCount(outcomes, k) == AboveCount(st, mesh, k)
  {
    if k > 0 {
      SkippedMatchAbove(st, mesh, outcomes, k - 1);
    }
  }

  /** Every stored index is below the counter, and the indices never decrease. */
  predicate IndicesOrdered(r: HullLists) {
    && (forall j :: 0 <= j < |r.indices| ==> 0 <= r.indices[j] < r.counter)
    && (forall a, b :: 0 <= a < b < |r.indices| ==> r.indices[a] <= r.indices[b])
  }

  /** Every stored index names a triangle already counted, and the indices never decrease. */
  lemma {:induction false} GenerateIndices(outcomes: seq<Outcome>, slamming: seq<SlammingForceData>, k: nat)
    requires k <= |outcomes| <= |slamming|
    requires forall j :: 0 <= j < k ==> CountsItsPieces(outcomes[j])
    ensures IndicesOrdered(Generate(outcomes, slamming, k))
  {
    if k > 0 {
      GenerateIndices(outcomes, slamming, k - 1);
      var prior := Generate(outcomes, slamming, k - 1);
      var o := outcomes[k - 1];
      assert CountsItsPieces(o);
      var r := Generate(outcomes, slamming, k);
      var added := TC.Repeat(prior.counter, |o.submerged|);
      assert r.indices == prior.indices + added;
      assert |added| > 0 ==> r.counter == prior.counter + 1;
      assert prior.counter <= r.counter;
      forall j | 0 <= j < |r.indices|
        ensures 0 <= r.indices[j] < r.counter
      {
        if j < |prior.indices| {
          assert r.indices[j] == prior.indices[j];
        } else {
          assert r.indices[j] == added[j - |prior.indices|];
        }
      }
      forall a, b | 0 <= a < b < |r.indices|
        ensures r.indices[a] <= r.indices[b]
      {
        if b < |prior.indices| {
          assert r.indices[a] == prior.indices[a] && r.indices[b] == prior.indices[b];
        } else if a < |prior.indices| {
          assert r.indices[a] == prior.indices[a] && r.indices[b] == added[b - |prior.indices|];
        } else {
          assert r.indices[a] == added[a - |prior.indices|] && r.indices[b] == added[b - |prior.indices|];
        }
      }
    }
  }

  /** The pass changes only the submergedArea of each slamming record. */
  lemma {:induction false} GenerateTouchesOnlySubmergedArea(outcomes: seq<Outcome>, slamming: seq<SlammingForceData>, k: nat)
    requires k <= |outcomes| <= |slamming|
    ensures var r := Generate(outcomes, slamming, k);
      forall j :: 0 <= j < |slamming| ==> r.slamming[j] == slamming[j].(submergedArea := r.slamming[j].submergedArea)
  {
    if k > 0 {
      GenerateTouchesOnlySubmergedArea(outcomes, slamming, k - 1);
    }
  }

  /**
   * The skipped counter, exhibited: when the first triangle is above the
   * water and the second entirely below it, the second triangle's pieces
   * are recorded against triangle 0, and the original area it stores lands
   * in triangle 0's slamming record while triangle 1's keeps its old value.
   */
  lemma {:induction false} SkippedCounterShiftsIndices(st: TC.Step, mesh: TB.HullMesh, slamming: seq<SlammingForceData>)
    requires TB.WellFormed(mesh) && 2 <= TB.TriangleCount(mesh) <= |slamming|
    requires AllAbove(TB.RawVertices(st.ctx, mesh, 0, st.timeStamp))
    requires AllBelow(TB.RawVertices(st.ctx, mesh, 1, st.timeStamp))
    ensures var r := Generate(Outcomes(st, mesh), slamming, 2);
      && |r.indices| >= 1 && (forall j :: 0 <= j < |r.indices| ==> r.indices[j] == 0)
      && r.slamming[0].submergedArea == slamming[0].originalArea
      && r.slamming[1] == slamming[1]
      && r.counter == 1
  {
    AboveOutcome(st, TB.RawVertices(st.ctx, mesh, 0, st.timeStamp));
    BelowOutcome(st, TB.RawVertices(st.ctx, mesh, 1, st.timeStamp));
    ShiftedPass(Outcomes(st, mesh), slamming);
  }

  /** Two outcomes, the first skipped and the second storing its original area: both land at counter 0. */
  lemma ShiftedPass(outcomes: seq<Outcome>, slamming: seq<SlammingForceData>)
    requires 2 <= |outcomes| <= |slamming|
    requires outcomes[0].submerged == [] && outcomes[0].update == SetTo(0.0) && !outcomes[0].counted
    requires outcomes[1].update == SetToOriginal && outcomes[1].counted && |outcomes[1].submerged| >= 1
    ensures var r := Generate(outcomes, slamming, 2);
      && |r.indices| >= 1 && (forall j :: 0 <= j < |r.indices| ==> r.indices[j] == 0)
      && r.slamming[0].submergedArea == slamming[0].originalArea
      && r.slamming[1] == slamming[1]
      && r.counter == 1
  {
    var start := Generate(outcomes, slamming, 0);
    assert start == HullLists([], [], [], slamming, 0);
    var first := Generate(outcomes, slamming, 1);
    assert first.counter == 0;
    assert first.indices == [] + TC.Repeat(0, 0);
    assert first.slamming[0].originalArea == slamming[0].originalArea;
    assert first.slamming[1] == slamming[1];
  }

  /** The first k records get their triangle's local area as originalArea; nothing else changes. */
  lemma {:induction false} WithOriginalAreasSets(n: Numerics, mesh: TB.HullMesh, slamming: seq<SlammingForceData>, k: nat)
    requires TB.WellFormed(mesh) && k <= TB.TriangleCount(mesh) <= |slamming|
    ensures forall j :: 0 <= j < k ==>
      WithOriginalAreas(n, mesh, slamming, k)[j] == slamming[j].(originalArea := OriginalArea(n, mesh, j))
    ensures forall j :: k <= j < |slamming| ==> WithOriginalAreas(n, mesh, slamming, k)[j] == slamming[j]
  {
    if k > 0 {
      WithOriginalAreasSets(n, mesh, slamming, k - 1);
    }
  }

  /** Every triangle's local area is non-negative, so their sum is too. */
  lemma {:induction false} OriginalAreaSumNonNegative(n: Numerics, mesh: TB.HullMesh, k: nat)
    requires TrigLaws(n) && SqrtLaws(n) && TB.WellFormed(mesh) && k <= TB.TriangleCount(mesh)
    ensures OriginalAreaSum(n, mesh, k) >= 0.0
  {
    if k > 0 {
      OriginalAreaSumNonNegative(n, mesh, k - 1);
      OriginalAreaNonNegative(n, mesh, k - 1);
    }
  }

  lemma OriginalAreaNonNegative(n: Numerics, mesh: TB.HullMesh, j: nat)
    requires TrigLaws(n) && SqrtLaws(n) && TB.WellFormed(mesh) && j < TB.TriangleCount(mesh)
    ensures OriginalArea(n, mesh, j) >= 0.0
  {
    AreaNonNegative(n, mesh.vertices[mesh.triangles[j * 3]], mesh.vertices[mesh.triangles[j * 3 + 1]],
      mesh.vertices[mesh.triangles[j * 3 + 2]]);
  }
}
