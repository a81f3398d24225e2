/*
 * The legacy HullMeshModifier: the hull mesh, the world positions and
 * water distances of its vertices, and the lists one physics step fills.
 * Each method is proved to produce what module HullCutting computes as
 * values, so the properties proved there hold of the class.
 *
 * hullRB and hullTrans are the body and transform of a Context; the
 * submerged mesh and its collider only serve DisplayMesh and
 * CalculateUnderWaterLength, which are not part of this model.
 */
module HullMeshModifier {
  import opened UnityMath
  import opened InteractionTypes
  import opened InteractionUtils
  import opened MeshData
  import opened HullCutting
  import TC = TriangleCutting
  import TB = TriangleBuilder

  /** `list.Sort((x, y) => x.distance.CompareTo(y.distance)); list.Reverse();` on the list a, b, c. */
  method SortAndReverse(a: VertexData, b: VertexData, c: VertexData) returns (s: seq<VertexData>)
    ensures s == SortByHeight([a, b, c])
  {
    var list := new VertexData[3](_ => a);
    list[1], list[2] := b, c;
    assert list[..] == [a, b, c];
    SortVertices(list);
    s := list[..];
  }

  class HullMeshModifier {
    const hullVertices: seq<Vec3>
    const hullTriangles: seq<int>
    const hulVerticesGlobalPos: array<Vec3>
    const hullDistances: array<real>

    var submergedTriangles: seq<TriangleData>
    var aboveWaterTriangles: seq<TriangleData>
    var slammingForceDataList: seq<SlammingForceData>
    var indexOfOriginalTriangle: seq<int>
    var boatArea: real
    var timeSinceStart: real

    function Mesh(): TB.HullMesh {
      TB.HullMesh(hullVertices, hullTriangles)
    }

    /** The step every cut of this modifier reads: the collaborators, the 0.001 tolerance and timeSinceStart. */
    function StepOf(ctx: Context): TC.Step
      reads this`timeSinceStart
    {
      TC.Step(ctx, CutEpsilon, timeSinceStart)
    }

    /** Whole triangles, one slamming record per triangle, and one array entry per vertex. */
    ghost predicate Valid()
      reads this`slammingForceDataList
    {
      && Triangulated(Mesh())
      && |slammingForceDataList| == TB.TriangleCount(Mesh())
      && hulVerticesGlobalPos.Length == |hullVertices|
      && hullDistances.Length == |hullVertices|
    }

    /** The arrays hold every vertex's world position and its distance to the water at timeSinceStart. */
    ghost predicate Sampled(ctx: Context)
      reads this`timeSinceStart, hulVerticesGlobalPos, hullDistances
    {
      && hulVerticesGlobalPos.Length == |hullVertices|
      && hullDistances.Length == |hullVertices|
      && forall v :: 0 <= v < |hullVertices| ==>
           && hulVerticesGlobalPos[v] == ctx.transform(hullVertices[v])
           && hullDistances[v] == ctx.water(hulVerticesGlobalPos[v], timeSinceStart)
    }

    /** One default slamming record per triangle, empty lists, and zeroed arrays. */
    constructor (vertices: seq<Vec3>, triangles: seq<int>)
      requires Triangulated(TB.HullMesh(vertices, triangles))
      ensures Valid()
      ensures hullVertices == vertices && hullTriangles == triangles
      ensures slammingForceDataList == seq(|triangles| / 3, _ => NewSlammingForceData)
      ensures submergedTriangles == [] && aboveWaterTriangles == [] && indexOfOriginalTriangle == []
      ensures boatArea == 0.0 && timeSinceStart == 0.0
    {
      hullVertices := vertices;
      hullTriangles := triangles;
      hulVerticesGlobalPos := new Vec3[|vertices|](_ => Zero);
      hullDistances := new real[|vertices|](_ => 0.0);
      var list := [];
      for i := 0 to |triangles| / 3
        invariant list == seq(i, _ => NewSlammingForceData)
      {
        list := list + [NewSlammingForceData];
      }
      slammingForceDataList := list;
      submergedTriangles := [];
      aboveWaterTriangles := [];
      indexOfOriginalTriangle := [];
      boatArea := 0.0;
      timeSinceStart := 0.0;
    }

    /**
     * CalculateVertexData: empties the lists, moves every submergedArea to
     * previousSubmergedArea, samples every vertex at the new time, then
     * generates the pieces. The lists are then exactly those of the whole
     * pass over the hull.
     */
    method CalculateVertexData(ctx: Context, time: real)
      requires Valid()
      modifies this`submergedTriangles, this`aboveWaterTriangles, this`slammingForceDataList
      modifies this`indexOfOriginalTriangle, this`timeSinceStart
      modifies hulVerticesGlobalPos, hullDistances
      ensures Valid() && Sampled(ctx) && timeSinceStart == time
      ensures submergedTriangles == Datas(StepOf(ctx), PassOf(ctx, Rotated(old(slammingForceDataList))).submerged)
      ensures aboveWaterTriangles == Datas(StepOf(ctx), PassOf(ctx, Rotated(old(slammingForceDataList))).above)
      ensures indexOfOriginalTriangle == PassOf(ctx, Rotated(old(slammingForceDataList))).indices
      ensures slammingForceDataList == PassOf(ctx, Rotated(old(slammingForceDataList))).slamming
    {
      submergedTriangles := [];
      aboveWaterTriangles := [];

      ghost var before := slammingForceDataList;
      for j := 0 to |slammingForceDataList|
        modifies this`slammingForceDataList
        invariant |slammingForceDataList| == |before|
        invariant forall k :: 0 <= k < j ==> slammingForceDataList[k] == Rotated(before)[k]
        invariant forall k :: j <= k < |before| ==> slammingForceDataList[k] == before[k]
      {
        slammingForceDataList := slammingForceDataList[j := slammingForceDataList[j].(previousSubmergedArea := slammingForceDataList[j].submergedArea)];
      }
      assert slammingForceDataList == Rotated(before);

      indexOfOriginalTriangle := [];
      timeSinceStart := time;

      for vertexIndex := 0 to |hullVertices|
        modifies hulVerticesGlobalPos, hullDistances
        invariant forall v :: 0 <= v < vertexIndex ==>
          && hulVerticesGlobalPos[v] == ctx.transform(hullVertices[v])
          && hullDistances[v] == ctx.water(hulVerticesGlobalPos[v], timeSinceStart)
      {
        var globalPos := ctx.transform(hullVertices[vertexIndex]);
        hulVerticesGlobalPos[vertexIndex] := globalPos;
        hullDistances[vertexIndex] := ctx.water(globalPos, timeSinceStart);
      }

      GenerateSubmergedTriangles(ctx);
    }

    /** The whole pass over this hull, at this step, from the given slamming records. */
    ghost function PassOf(ctx: Context, slamming: seq<SlammingForceData>): HullLists
      reads this`timeSinceStart
      requires Triangulated(Mesh()) && |slamming| == TB.TriangleCount(Mesh())
    {
      Generate(Outcomes(StepOf(ctx), Mesh()), slamming, TB.TriangleCount(Mesh()))
    }

    /**
     * GenerateSubmergedTriangles: every triangle of the hull in turn adds
     * its pieces and updates one slamming record; the lists grow by
     * exactly the whole pass.
     */
    method GenerateSubmergedTriangles(ctx: Context)
      requires Valid() && Sampled(ctx)
      modifies this`submergedTriangles, this`aboveWaterTriangles, this`slammingForceDataList, this`indexOfOriginalTriangle
      ensures Valid()
      ensures submergedTriangles == old(submergedTriangles) + Datas(StepOf(ctx), PassOf(ctx, old(slammingForceDataList)).submerged)
      ensures aboveWaterTriangles == old(aboveWaterTriangles) + Datas(StepOf(ctx), PassOf(ctx, old(slammingForceDataList)).above)
      ensures indexOfOriginalTriangle == old(indexOfOriginalTriangle) + PassOf(ctx, old(slammingForceDataList)).indices
      ensures slammingForceDataList == PassOf(ctx, old(slammingForceDataList)).slamming
    {
      ghost var st := StepOf(ctx);
      ghost var outcomes := Outcomes(st, Mesh());
      ghost var start := slammingForceDataList;
      ghost var submerged0, above0, indices0 := submergedTriangles, aboveWaterTriangles, indexOfOriginalTriangle;
      NoneAdded(st, submerged0, indices0, 0);
      NoneAdded(st, above0, indices0, 0);
      var triangleCounter := TriangleLoop(ctx, st, outcomes, start, submerged0, above0, indices0);
      ghost var g := Generate(outcomes, start, TB.TriangleCount(Mesh()));
      assert PassOf(ctx, start) == g;
      assert submergedTriangles == submerged0 + Datas(st, g.submerged);
      assert aboveWaterTriangles == above0 + Datas(st, g.above);
      assert indexOfOriginalTriangle == indices0 + g.indices;
      assert slammingForceDataList == g.slamming;
    }

    /** The loop of GenerateSubmergedTriangles: from no triangle to every triangle of the hull. */
    method TriangleLoop(ctx: Context, ghost st: TC.Step, ghost outcomes: seq<Outcome>, ghost start: seq<SlammingForceData>,
      ghost submerged0: seq<TriangleData>, ghost above0: seq<TriangleData>, ghost indices0: seq<int>)
      returns (triangleCounter: nat)
      requires Valid() && Sampled(ctx) && st == StepOf(ctx) && start == slammingForceDataList
      requires |outcomes| == TB.TriangleCount(Mesh()) && forall j :: 0 <= j < |outcomes| ==> IsOutcome(st, Mesh(), outcomes, j)
      requires ListsAfter(st, outcomes, start, 0, submerged0, above0, indices0,
        submergedTriangles, aboveWaterTriangles, indexOfOriginalTriangle, slammingForceDataList, 0)
      modifies this`submergedTriangles, this`aboveWaterTriangles, this`slammingForceDataList, this`indexOfOriginalTriangle
      ensures Valid() && |start| == TB.TriangleCount(Mesh())
      ensures ListsAfter(st, outcomes, start, TB.TriangleCount(Mesh()), submerged0, above0, indices0,
        submergedTriangles, aboveWaterTriangles, indexOfOriginalTriangle, slammingForceDataList, triangleCounter)
    {
      var vertexDataList := new VertexData[3](_ => VertexInfo(0.0, 0, Zero));
      var i := 0;
      triangleCounter := 0;
      ghost var t := 0;
      while i < |hullTriangles|
        invariant Valid() && Sampled(ctx) && StepOf(ctx) == st
        invariant i == 3 * t && t <= TB.TriangleCount(Mesh())
        invariant ListsAfter(st, outcomes, start, t, submerged0, above0, indices0,
          submergedTriangles, aboveWaterTriangles, indexOfOriginalTriangle, slammingForceDataList, triangleCounter)
      {
        triangleCounter := Turn(ctx, vertexDataList, i, t, triangleCounter, st, outcomes, start, submerged0, above0, indices0);
        i := i + 3;
        t := t + 1;
      }
      assert t == TB.TriangleCount(Mesh());
    }

    /** One turn of the loop of GenerateSubmergedTriangles: the lists after t triangles become the lists after t + 1. */
    method Turn(ctx: Context, vertexDataList: array<VertexData>, i: nat, ghost t: nat, triangleCounter: nat,
      ghost st: TC.Step, ghost outcomes: seq<Outcome>, ghost start: seq<SlammingForceData>,
      ghost submerged0: seq<TriangleData>, ghost above0: seq<TriangleData>, ghost indices0: seq<int>)
      returns (nextCounter: nat)
      requires Valid() && Sampled(ctx) && vertexDataList.Length == 3
      requires st == StepOf(ctx) && |outcomes| == TB.TriangleCount(Mesh()) == |start|
      requires forall j :: 0 <= j < |outcomes| ==> IsOutcome(st, Mesh(), outcomes, j)
      requires i == 3 * t && t < TB.TriangleCount(Mesh())
      requires ListsAfter(st, outcomes, start, t, submerged0, above0, indices0,
        submergedTriangles, aboveWaterTriangles, indexOfOriginalTriangle, slammingForceDataList, triangleCounter)
      modifies vertexDataList
      modifies this`submergedTriangles, this`aboveWaterTriangles, this`slammingForceDataList, this`indexOfOriginalTriangle
      ensures Valid()
      ensures ListsAfter(st, outcomes, start, t + 1, submerged0, above0, indices0,
        submergedTriangles, aboveWaterTriangles, indexOfOriginalTriangle, slammingForceDataList, nextCounter)
    {
      ListsAdvance(st, outcomes, start, t, submerged0, above0, indices0,
        submergedTriangles, aboveWaterTriangles, indexOfOriginalTriangle, slammingForceDataList, triangleCounter);
      assert IsOutcome(st, Mesh(), outcomes, t);
      nextCounter := ProcessTriangle(ctx, vertexDataList, i, t, triangleCounter, st, outcomes[t]);
    }

    /**
     * One turn of GenerateSubmergedTriangles's loop, on triangle t, whose
     * corners start at hullTriangles[i]: the lists grow by that triangle's
     * outcome, and the counter advances unless it lies above the water.
     */
    method ProcessTriangle(ctx: Context, vertexDataList: array<VertexData>, i: nat, ghost t: nat, triangleCounter: nat,
      ghost st: TC.Step, ghost o: Outcome)
      returns (nextCounter: nat)
      requires Valid() && Sampled(ctx) && vertexDataList.Length == 3
      requires i == 3 * t && t < TB.TriangleCount(Mesh()) && triangleCounter < |slammingForceDataList|
      requires st == StepOf(ctx) && o == TriangleOutcome(st, TB.RawVertices(ctx, Mesh(), t, timeSinceStart))
      modifies vertexDataList
      modifies this`submergedTriangles, this`aboveWaterTriangles, this`slammingForceDataList, this`indexOfOriginalTriangle
      ensures Valid()
      ensures submergedTriangles == old(submergedTriangles) + Datas(st, o.submerged)
      ensures aboveWaterTriangles == old(aboveWaterTriangles) + Datas(st, o.above)
      ensures indexOfOriginalTriangle == old(indexOfOriginalTriangle) + TC.Repeat(triangleCounter, |o.submerged|)
      ensures slammingForceDataList == Apply(old(slammingForceDataList), triangleCounter, o.update)
      ensures nextCounter == if o.counted then triangleCounter + 1 else triangleCounter
    {
      ghost var raw := TB.RawVertices(ctx, Mesh(), t, timeSinceStart);
      ReadTriangle(ctx, vertexDataList, i, t);

      if vertexDataList[0].height > 0.0 && vertexDataList[1].height > 0.0 && vertexDataList[2].height > 0.0 {
        aboveWaterTriangles := aboveWaterTriangles + [NewTriangleData(ctx.math, ctx.water, vertexDataList[0], vertexDataList[1],
          vertexDataList[2], 2, ctx.body, timeSinceStart)];
        slammingForceDataList := slammingForceDataList[triangleCounter := slammingForceDataList[triangleCounter].(submergedArea := 0.0)];
        DatasOfFew(st, TC.Piece(raw[0], raw[1], raw[2], 2), TC.Piece(raw[0], raw[1], raw[2], 2), triangleCounter);
        return triangleCounter;
      }

      SortVertices(vertexDataList);
      var s := vertexDataList[..];
      assert s[0] == vertexDataList[0] && s[1] == vertexDataList[1] && s[2] == vertexDataList[2];
      ProcessSorted(ctx, s, triangleCounter);
      nextCounter := triangleCounter + 1;
    }

    /** The inner loop of GenerateSubmergedTriangles: the three corners of triangle t, in clockwise order. */
    method ReadTriangle(ctx: Context, vertexDataList: array<VertexData>, i: nat, ghost t: nat)
      requires Valid() && Sampled(ctx) && vertexDataList.Length == 3
      requires i == 3 * t && t < TB.TriangleCount(Mesh())
      modifies vertexDataList
      ensures vertexDataList[..] == TB.RawVertices(ctx, Mesh(), t, timeSinceStart)
    {
      ghost var raw := TB.RawVertices(ctx, Mesh(), t, timeSinceStart);
      var index := i;
      for clockwiseIndex := 0 to 3
        invariant index == i + clockwiseIndex
        invariant forall k :: 0 <= k < clockwiseIndex ==> vertexDataList[k] == raw[k]
      {
        var corner := hullTriangles[index];
        assert TB.Corner(ctx, Mesh(), t, clockwiseIndex) == ctx.transform(hullVertices[corner]);
        assert raw[clockwiseIndex] == VertexInfo(ctx.water(ctx.transform(hullVertices[corner]), timeSinceStart), clockwiseIndex,
          ctx.transform(hullVertices[corner]));
        vertexDataList[clockwiseIndex] := VertexInfo(hullDistances[corner], clockwiseIndex, hulVerticesGlobalPos[corner]);
        index := index + 1;
      }
    }

    /** The branches of the loop after the sort: all below, one above, two above, or none of them. */
    method ProcessSorted(ctx: Context, s: seq<VertexData>, triangleCounter: nat)
      requires |s| == 3 && triangleCounter < |slammingForceDataList|
      modifies this`submergedTriangles, this`aboveWaterTriangles, this`slammingForceDataList, this`indexOfOriginalTriangle
      ensures submergedTriangles == old(submergedTriangles) + Datas(StepOf(ctx), SortedOutcome(StepOf(ctx), s).submerged)
      ensures aboveWaterTriangles == old(aboveWaterTriangles) + Datas(StepOf(ctx), SortedOutcome(StepOf(ctx), s).above)
      ensures indexOfOriginalTriangle == old(indexOfOriginalTriangle) + TC.Repeat(triangleCounter, |SortedOutcome(StepOf(ctx), s).submerged|)
      ensures slammingForceDataList == Apply(old(slammingForceDataList), triangleCounter, SortedOutcome(StepOf(ctx), s).update)
    {
      ghost var st := StepOf(ctx);
      if s[0].height < 0.0 && s[1].height < 0.0 && s[2].height < 0.0 {
        NoneAdded(st, aboveWaterTriangles, indexOfOriginalTriangle, triangleCounter);
        slammingForceDataList := slammingForceDataList[triangleCounter := slammingForceDataList[triangleCounter].(submergedArea := slammingForceDataList[triangleCounter].originalArea)];
        CutSubmergedTriangleToHorizontal(ctx, s, triangleCounter);
      } else if s[0].height > 0.0 && s[1].height < 0.0 && s[2].height < 0.0 {
        CutTriangleOneAboveWater(ctx, s, triangleCounter);
      } else if s[0].height > 0.0 && s[1].height > 0.0 && s[2].height < 0.0 {
        NoneAdded(st, aboveWaterTriangles, indexOfOriginalTriangle, triangleCounter);
        CutTriangleTwoAboveWater(ctx, s, triangleCounter);
      } else {
        NoneAdded(st, aboveWaterTriangles, indexOfOriginalTriangle, triangleCounter);
        NoneAdded(st, submergedTriangles, indexOfOriginalTriangle, triangleCounter);
      }
      assert StepOf(ctx) == st;
    }

    /** submergedTriangles.Add(new TriangleData(...)) beside indexOfOriginalTriangle.Add(triangleCounter). */
    method AddSubmerged(ctx: Context, p: TC.Piece, triangleCounter: int)
      modifies this`submergedTriangles, this`indexOfOriginalTriangle
      ensures submergedTriangles == old(submergedTriangles) + Datas(StepOf(ctx), [p])
      ensures indexOfOriginalTriangle == old(indexOfOriginalTriangle) + TC.Repeat(triangleCounter, 1)
    {
      indexOfOriginalTriangle := indexOfOriginalTriangle + [triangleCounter];
      submergedTriangles := submergedTriangles + [NewTriangleData(ctx.math, ctx.water, p.vi1, p.vi2, p.vi3, p.triangleType, ctx.body, timeSinceStart)];
      DatasOfFew(StepOf(ctx), p, p, triangleCounter);
    }

    /**
     * CutSubmergedTriangleToHorizontal on a list sorted highest first: adds
     * one or two pieces, all recorded against triangleCounter.
     */
    method CutSubmergedTriangleToHorizontal(ctx: Context, vertexDataList: seq<VertexData>, triangleCounter: int)
      requires |vertexDataList| == 3
      modifies this`submergedTriangles, this`indexOfOriginalTriangle
      ensures submergedTriangles == old(submergedTriangles) + Datas(StepOf(ctx), HorizontalPieces(StepOf(ctx), vertexDataList))
      ensures indexOfOriginalTriangle == old(indexOfOriginalTriangle) + TC.Repeat(triangleCounter, |HorizontalPieces(StepOf(ctx), vertexDataList)|)
    {
      ghost var st := StepOf(ctx);
      var u, m, l := vertexDataList[0], vertexDataList[1], vertexDataList[2];

      var dlClockwiseIndex := u.clockwiseOrder - 1;
      if dlClockwiseIndex < 0 {
        dlClockwiseIndex := 2;
      }
      var dl, dr;
      if vertexDataList[1].clockwiseOrder == dlClockwiseIndex {
        dl, dr := vertexDataList[1], vertexDataList[2];
      } else {
        dl, dr := vertexDataList[2], vertexDataList[1];
      }
      assert (dl, dr) == LeftAndRight(vertexDataList);

      if u.height - m.height < CutEpsilon {
        AddSubmerged(ctx, TC.Piece(u, dr, dl, 1), triangleCounter);
        return;
      } else if m.height - l.height < CutEpsilon {
        AddSubmerged(ctx, TC.Piece(u, dr, dl, 0), triangleCounter);
        return;
      }

      var tCutLU := ctx.math.divide(m.height - l.height, u.height - l.height);
      var cutLU := Add(l.globalVertex, Scale(Sub(u.globalVertex, l.globalVertex), tCutLU));
      var cutLUData := VertexInfo(ctx.water(cutLU, timeSinceStart), 0, cutLU);
      assert cutLUData == LevelCut(st, u, m, l);

      var upside, downside;
      if l.clockwiseOrder == dl.clockwiseOrder {
        upside, downside := TC.Piece(u, m, cutLUData, 0), TC.Piece(cutLUData, m, l, 1);
      } else {
        upside, downside := TC.Piece(u, cutLUData, m, 0), TC.Piece(m, cutLUData, l, 1);
      }
      assert HorizontalPieces(st, vertexDataList) == [upside] + [downside];
      ghost var submerged0, indices0 := submergedTriangles, indexOfOriginalTriangle;
      AddSubmerged(ctx, upside, triangleCounter);
      AddSubmerged(ctx, downside, triangleCounter);
      AddedInTurn(st, submerged0, indices0, [upside], [downside], triangleCounter);
    }

    /**
     * The block that finds I_M, I_L, J_M or J_H: the parameter t along the
     * edge from `lower` up to `upper`, the point t times the edge past the
     * lower end, and a new VertexData there with its distance to the water.
     */
    method WaterlineVertex(ctx: Context, lower: VertexData, upper: VertexData) returns (cut: VertexData)
      ensures cut == WaterlinePoint(StepOf(ctx), lower, upper)
    {
      var edge := Sub(upper.globalVertex, lower.globalVertex);
      var t := ctx.math.divide(-lower.height, upper.height - lower.height);
      var point := Add(Scale(edge, t), lower.globalVertex);
      cut := VertexInfo(ctx.water(point, timeSinceStart), 0, point);
    }

    /** tempDataList holding a, b, c with the clockwise indices 0, 1, 2, sorted, reversed and cut horizontally. */
    method SortAndCut(ctx: Context, a: VertexData, b: VertexData, c: VertexData, triangleCounter: int)
      modifies this`submergedTriangles, this`indexOfOriginalTriangle
      ensures submergedTriangles == old(submergedTriangles) + Datas(StepOf(ctx), SortedHorizontalPieces(StepOf(ctx), Renumbered(a, b, c)))
      ensures indexOfOriginalTriangle == old(indexOfOriginalTriangle)
        + TC.Repeat(triangleCounter, |SortedHorizontalPieces(StepOf(ctx), Renumbered(a, b, c))|)
    {
      var tempDataList := SortAndReverse(a.(clockwiseOrder := 0), b.(clockwiseOrder := 1), c.(clockwiseOrder := 2));
      CutSubmergedTriangleToHorizontal(ctx, tempDataList, triangleCounter);
    }

    /**
     * CutTriangleOneAboveWater on a sorted list with only U above the
     * water: adds the cap I_M, U, I_L above, stores the area of the
     * submerged quadrilateral, and cuts its two triangles horizontally.
     */
    method CutTriangleOneAboveWater(ctx: Context, vertexDataList: seq<VertexData>, triangleCounter: nat)
      requires |vertexDataList| == 3 && triangleCounter < |slammingForceDataList|
      modifies this`submergedTriangles, this`aboveWaterTriangles, this`slammingForceDataList, this`indexOfOriginalTriangle
      ensures aboveWaterTriangles == old(aboveWaterTriangles) + [Data(StepOf(ctx), OneAboveCap(StepOf(ctx), vertexDataList))]
      ensures submergedTriangles == old(submergedTriangles) + Datas(StepOf(ctx), OneAbovePieces(StepOf(ctx), vertexDataList))
      ensures indexOfOriginalTriangle == old(indexOfOriginalTriangle) + TC.Repeat(triangleCounter, |OneAbovePieces(StepOf(ctx), vertexDataList)|)
      ensures slammingForceDataList == old(slammingForceDataList)[triangleCounter :=
        old(slammingForceDataList)[triangleCounter].(submergedArea := OneAboveArea(StepOf(ctx), vertexDataList))]
    {
      ghost var st := StepOf(ctx);
      var u, dl, dr, iMData, iLData := OneAboveVertices(ctx, vertexDataList);
      OneAboveParts(st, vertexDataList, u, dl, dr, iMData, iLData);

      aboveWaterTriangles := aboveWaterTriangles + [NewTriangleData(ctx.math, ctx.water, iMData, u, iLData, 2, ctx.body, timeSinceStart)];

      var totalArea := GetTriangleArea(ctx.math, dl.globalVertex, iMData.globalVertex, iLData.globalVertex)
        + GetTriangleArea(ctx.math, dl.globalVertex, iLData.globalVertex, dr.globalVertex);
      assert totalArea == OneAboveArea(st, vertexDataList);
      slammingForceDataList := slammingForceDataList[triangleCounter := slammingForceDataList[triangleCounter].(submergedArea := totalArea)];

      ghost var submerged0, indices0 := submergedTriangles, indexOfOriginalTriangle;
      SortAndCut(ctx, dl, iMData, iLData, triangleCounter);
      SortAndCut(ctx, dl, iLData, dr, triangleCounter);
      AddedInTurn(st, submerged0, indices0, SortedHorizontalPieces(st, Renumbered(dl, iMData, iLData)),
        SortedHorizontalPieces(st, Renumbered(dl, iLData, dr)), triangleCounter);
      assert StepOf(ctx) == st;
    }

    /** The first half of CutTriangleOneAboveWater: U, DL, DR, and the points I_M and I_L where DL-U and DR-U meet the water. */
    method OneAboveVertices(ctx: Context, vertexDataList: seq<VertexData>)
      returns (u: VertexData, dl: VertexData, dr: VertexData, iMData: VertexData, iLData: VertexData)
      requires |vertexDataList| == 3
      ensures (u, dl, dr, iMData, iLData) == OneAbovePoints(StepOf(ctx), vertexDataList)
    {
      u := vertexDataList[0];
      var dlClockwiseIndex := u.clockwiseOrder - 1;
      if dlClockwiseIndex < 0 {
        dlClockwiseIndex := 2;
      }
      if vertexDataList[1].clockwiseOrder == dlClockwiseIndex {
        dl, dr := vertexDataList[1], vertexDataList[2];
      } else {
        dl, dr := vertexDataList[2], vertexDataList[1];
      }
      assert (dl, dr) == LeftAndRight(vertexDataList);
      iMData := WaterlineVertex(ctx, dl, u);
      iLData := WaterlineVertex(ctx, dr, u);
    }

    /**
     * CutTriangleTwoAboveWater on a sorted list with only L below the
     * water: stores the area of L, J_H, J_M and cuts that triangle
     * horizontally.
     */
    method CutTriangleTwoAboveWater(ctx: Context, vertexDataList: seq<VertexData>, triangleCounter: nat)
      requires |vertexDataList| == 3 && triangleCounter < |slammingForceDataList|
      modifies this`submergedTriangles, this`slammingForceDataList, this`indexOfOriginalTriangle
      ensures submergedTriangles == old(submergedTriangles) + Datas(StepOf(ctx), TwoAbovePieces(StepOf(ctx), vertexDataList))
      ensures indexOfOriginalTriangle == old(indexOfOriginalTriangle) + TC.Repeat(triangleCounter, |TwoAbovePieces(StepOf(ctx), vertexDataList)|)
      ensures slammingForceDataList == old(slammingForceDataList)[triangleCounter :=
        old(slammingForceDataList)[triangleCounter].(submergedArea := TwoAboveArea(StepOf(ctx), vertexDataList))]
    {
      ghost var st := StepOf(ctx);
      var lData := vertexDataList[2];
      var l := vertexDataList[2].globalVertex;

      var hClockwiseIndex := vertexDataList[2].clockwiseOrder + 1;
      if hClockwiseIndex > 2 {
        hClockwiseIndex := 0;
      }

      var hData, mData;
      if vertexDataList[1].clockwiseOrder == hClockwiseIndex {
        hData, mData := vertexDataList[1], vertexDataList[0];
      } else {
        hData, mData := vertexDataList[0], vertexDataList[1];
      }

      var jMData := WaterlineVertex(ctx, lData, mData);
      var jHData := WaterlineVertex(ctx, lData, hData);
      assert (lData, hData, mData, jHData, jMData) == TwoAbovePoints(st, vertexDataList);

      slammingForceDataList := slammingForceDataList[triangleCounter :=
        slammingForceDataList[triangleCounter].(submergedArea := GetTriangleArea(ctx.math, l, jHData.globalVertex, jMData.globalVertex))];

      SortAndCut(ctx, lData, jHData, jMData, triangleCounter);
    }

    /**
     * CalculateOriginalTrianglesArea: every slamming record gets the local
     * area of its triangle, and boatArea grows by the sum of them.
     */
    method CalculateOriginalTrianglesArea(n: Numerics)
      requires Valid()
      modifies this`slammingForceDataList, this`boatArea
      ensures Valid()
      ensures slammingForceDataList == WithOriginalAreas(n, Mesh(), old(slammingForceDataList), TB.TriangleCount(Mesh()))
      ensures boatArea == old(boatArea) + OriginalAreaSum(n, Mesh(), TB.TriangleCount(Mesh()))
    {
      ghost var before := slammingForceDataList;
      ghost var area0 := boatArea;
      ghost var mesh := Mesh();
      ghost var count := TB.TriangleCount(mesh);
      assert |hullTriangles| == 3 * count;
      var i := 0;
      var triangleCounter := 0;
      while i < |hullTriangles|
        invariant Valid() && Mesh() == mesh
        invariant i == 3 * triangleCounter && triangleCounter <= count
        invariant slammingForceDataList == WithOriginalAreas(n, mesh, before, triangleCounter)
        invariant boatArea == area0 + OriginalAreaSum(n, mesh, triangleCounter)
      {
        StoreOriginalArea(n, i, triangleCounter, before, area0);
        i := i + 3;
        triangleCounter := triangleCounter + 1;
      }
      assert triangleCounter == count;
    }

    /** One turn of CalculateOriginalTrianglesArea's loop, on the triangle whose corners start at hullTriangles[i]. */
    method StoreOriginalArea(n: Numerics, i: nat, triangleCounter: nat, ghost before: seq<SlammingForceData>, ghost area0: real)
      requires Valid() && i == 3 * triangleCounter && triangleCounter < TB.TriangleCount(Mesh()) && |before| == |slammingForceDataList|
      requires slammingForceDataList == WithOriginalAreas(n, Mesh(), before, triangleCounter)
      requires boatArea == area0 + OriginalAreaSum(n, Mesh(), triangleCounter)
      modifies this`slammingForceDataList, this`boatArea
      ensures Valid()
      ensures slammingForceDataList == WithOriginalAreas(n, Mesh(), before, triangleCounter + 1)
      ensures boatArea == area0 + OriginalAreaSum(n, Mesh(), triangleCounter + 1)
    {
      var p1 := hullVertices[hullTriangles[i]];
      var p2 := hullVertices[hullTriangles[i + 1]];
      var p3 := hullVertices[hullTriangles[i + 2]];

      var triangleArea := GetTriangleArea(n, p1, p2, p3);
      assert triangleArea == OriginalArea(n, Mesh(), triangleCounter);
      slammingForceDataList := slammingForceDataList[triangleCounter := slammingForceDataList[triangleCounter].(originalArea := triangleArea)];
      boatArea := boatArea + triangleArea;
    }
  }
}
