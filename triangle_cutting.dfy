/*
 * What TriangleBuilder.cs computes for one hull triangle, as values: its
 * state against the water (SetTriangleState), the pieces each cutting
 * algorithm emits (CuttingAlgorithmHorizontal, -TwoAbove, -OneAbove) and
 * the submerged area it stores. The class in module TriangleBuilder is
 * proved to append exactly these pieces.
 *
 * A piece is recorded by the arguments of its TriangleInfo constructor; the
 * builder turns each into a TriangleInfo with `Info`.
 */
module TriangleCutting {
  import opened UnityMath
  import opened InteractionTypes
  import opened InteractionUtils
  import opened TriangleData

  datatype TriangleState = AboveWater | TwoAboveWater | OneAboveWater | Submerged

  /** What one physics step of the builder reads besides the vertices: collaborators, epsilon, time stamp. */
  datatype Step = Step(ctx: Context, epsilon: real, timeStamp: real)

  /** The arguments of one `new TriangleInfo(vi1, vi2, vi3, triangleType, ...)`. */
  datatype Piece = Piece(vi1: VertexInfo, vi2: VertexInfo, vi3: VertexInfo, triangleType: int)

  function Info(st: Step, p: Piece): TriangleInfo {
    NewTriangleInfo(st.ctx.math, st.ctx.water, p.vi1, p.vi2, p.vi3, p.triangleType, st.ctx.body, st.timeStamp)
  }

  function Infos(st: Step, ps: seq<Piece>): (r: seq<TriangleInfo>)
    ensures |r| == |ps|
    ensures forall i :: 0 <= i < |ps| ==> r[i] == Info(st, ps[i])
  {
    seq(|ps|, i requires 0 <= i < |ps| => Info(st, ps[i]))
  }

  /** The sum of the areas of a list of pieces. */
  function AreaSum(ts: seq<TriangleInfo>): real {
    if |ts| == 0 then 0.0 else AreaSum(ts[..|ts| - 1]) + ts[|ts| - 1].area
  }

  lemma {:induction false} AreaSumAppend(a: seq<TriangleInfo>, b: seq<TriangleInfo>)
    ensures AreaSum(a + b) == AreaSum(a) + AreaSum(b)
    decreases |b|
  {
    if |b| == 0 {
      assert a + b == a;
    } else {
      assert (a + b)[..|a + b| - 1] == a + b[..|b| - 1];
      AreaSumAppend(a, b[..|b| - 1]);
    }
  }

  /** `triangleIndex` repeated k times: the buffer indices added beside k pieces. */
  function Repeat(x: int, k: nat): (r: seq<int>)
    ensures |r| == k && forall i :: 0 <= i < k ==> r[i] == x
  {
    seq(k, _ => x)
  }

  /** A run of m + n copies is a run of m followed by a run of n. */
  lemma RepeatAppend(x: int, m: nat, n: nat)
    ensures Repeat(x, m + n) == Repeat(x, m) + Repeat(x, n)
  {
    assert forall i :: 0 <= i < m + n ==> Repeat(x, m + n)[i] == (Repeat(x, m) + Repeat(x, n))[i];
  }

  // ---------------------------------------------------------------------
  // Classification.

  /** SetTriangleState on the heights of the sorted vertices. */
  function StateOf(h0: real, h1: real, h2: real): TriangleState {
    if h0 > 0.0 && h1 > 0.0 && h2 > 0.0 then AboveWater
    else if h0 > 0.0 && h1 > 0.0 && h2 <= 0.0 then TwoAboveWater
    else if h0 > 0.0 && h1 <= 0.0 && h2 <= 0.0 then OneAboveWater
    else Submerged
  }

  function CountAbove(s: seq<VertexInfo>): nat {
    if |s| == 0 then 0 else CountAbove(s[..|s| - 1]) + (if s[|s| - 1].height > 0.0 then 1 else 0)
  }

  /** On vertices sorted highest first the state names how many vertices are above the water. */
  lemma StateCountsVerticesAbove(s: seq<VertexInfo>)
    requires |s| == 3 && Descending(s)
    ensures StateOf(s[0].height, s[1].height, s[2].height) == AboveWater <==> CountAbove(s) == 3
    ensures StateOf(s[0].height, s[1].height, s[2].height) == TwoAboveWater <==> CountAbove(s) == 2
    ensures StateOf(s[0].height, s[1].height, s[2].height) == OneAboveWater <==> CountAbove(s) == 1
    ensures StateOf(s[0].height, s[1].height, s[2].height) == Submerged <==> CountAbove(s) == 0
  {
    assert s[..2][..1] == s[..1];
    assert s[..1][..0] == [];
    var above := (i: int) requires 0 <= i < 3 => if s[i].height > 0.0 then 1 else 0;
    assert CountAbove(s[..1]) == above(0);
    assert CountAbove(s[..2]) == above(0) + above(1);
    assert CountAbove(s) == above(0) + above(1) + above(2);
  }

  lemma StateCountsIfSorted(s: seq<VertexInfo>)
    requires |s| == 3
    ensures Descending(s) ==>
      && (StateOf(s[0].height, s[1].height, s[2].height) == AboveWater <==> CountAbove(s) == 3)
      && (StateOf(s[0].height, s[1].height, s[2].height) == TwoAboveWater <==> CountAbove(s) == 2)
      && (StateOf(s[0].height, s[1].height, s[2].height) == OneAboveWater <==> CountAbove(s) == 1)
      && (StateOf(s[0].height, s[1].height, s[2].height) == Submerged <==> CountAbove(s) == 0)
  {
    if Descending(s) {
      StateCountsVerticesAbove(s);
    }
  }

  // ---------------------------------------------------------------------
  // Cut vertices.

  /** (cw + 1) % 3: the slot clockwise after `cw`. */
  function NextSlot(cw: int): int {
    Rem(cw + 1, 3)
  }

  /** A vertex on the segment from `from` to `to` at parameter t, its height queried from the water, no slot. */
  function CutAt(st: Step, from: VertexInfo, to: VertexInfo, t: real): VertexInfo {
    var p := Along(from.globalVertex, to.globalVertex, t);
    VertexInfo(st.ctx.water(p, st.timeStamp), -1, p)
  }

  /** -lower.height / (upper.height - lower.height): where the edge crosses the water, from its lower end. */
  function WaterlineParameter(st: Step, lower: VertexInfo, upper: VertexInfo): real {
    st.ctx.math.divide(-lower.height, upper.height - lower.height)
  }

  function WaterlineCut(st: Step, lower: VertexInfo, upper: VertexInfo): VertexInfo {
    CutAt(st, lower, upper, WaterlineParameter(st, lower, upper))
  }

  /** (mid.height - bottom.height) / (top.height - bottom.height): where the top-bottom edge reaches mid's height. */
  function LevelParameter(st: Step, top: VertexInfo, mid: VertexInfo, bottom: VertexInfo): real {
    st.ctx.math.divide(mid.height - bottom.height, top.height - bottom.height)
  }

  // ---------------------------------------------------------------------
  // The cutting algorithms.

  /** Whether mid follows top clockwise: the test that orders every piece's corners. */
  predicate ClockwiseAfter(top: VertexInfo, mid: VertexInfo) {
    NextSlot(top.clockwiseOrder) == mid.clockwiseOrder
  }

  /**
   * CuttingAlgorithmHorizontal: a piece with two corners within epsilon of
   * each other's height is kept whole (type 1, or 2 when all three are
   * level; type 0 when the lower two are level); otherwise it is cut at
   * mid's height into an upper type-0 and a lower type-1 piece.
   */
  function HorizontalPieces(st: Step, top: VertexInfo, mid: VertexInfo, bottom: VertexInfo): (r: seq<Piece>)
    ensures 1 <= |r| <= 2
    ensures |r| == 1 <==> top.height - mid.height < st.epsilon || mid.height - bottom.height < st.epsilon
  {
    var clockwise := ClockwiseAfter(top, mid);
    if top.height - mid.height < st.epsilon then
      var triangleType := if mid.height - bottom.height < st.epsilon then 2 else 1;
      if clockwise then [Piece(top, mid, bottom, triangleType)] else [Piece(mid, top, bottom, triangleType)]
    else if mid.height - bottom.height < st.epsilon then
      if clockwise then [Piece(top, mid, bottom, 0)] else [Piece(top, bottom, mid, 0)]
    else
      var cutTB := CutAt(st, bottom, top, LevelParameter(st, top, mid, bottom));
      if clockwise then [Piece(top, mid, cutTB, 0), Piece(cutTB, mid, bottom, 1)]
      else [Piece(top, cutTB, mid, 0), Piece(mid, cutTB, bottom, 1)]
  }

  /** The two waterline vertices of CuttingAlgorithmTwoAbove, with the slots the source gives them. */
  function TwoAboveCuts(st: Step, top: VertexInfo, mid: VertexInfo, bottom: VertexInfo): (VertexInfo, VertexInfo)
  {
    var cutTB := WaterlineCut(st, bottom, top);
    var cutMB := WaterlineCut(st, bottom, mid);
    if ClockwiseAfter(top, mid) then
      var tb := cutTB.(clockwiseOrder := NextSlot(bottom.clockwiseOrder));
      (tb, cutMB.(clockwiseOrder := NextSlot(tb.clockwiseOrder)))
    else
      var mb := cutMB.(clockwiseOrder := NextSlot(bottom.clockwiseOrder));
      (cutTB.(clockwiseOrder := NextSlot(mb.clockwiseOrder)), mb)
  }

  /** CuttingAlgorithmTwoAbove: the part below the waterline, cut horizontally. */
  function TwoAbovePieces(st: Step, top: VertexInfo, mid: VertexInfo, bottom: VertexInfo): (r: seq<Piece>)
    ensures 1 <= |r| <= 2
  {
    var (cutTB, cutMB) := TwoAboveCuts(st, top, mid, bottom);
    if cutTB.height > cutMB.height then HorizontalPieces(st, cutTB, cutMB, bottom)
    else HorizontalPieces(st, cutMB, cutTB, bottom)
  }

  /** The vertices of the two triangles CuttingAlgorithmOneAbove sorts and cuts, with their slots. */
  function OneAboveTriangles(st: Step, top: VertexInfo, mid: VertexInfo, bottom: VertexInfo): (r: (seq<VertexInfo>, seq<VertexInfo>))
    ensures |r.0| == 3 && |r.1| == 3
  {
    var cutTB := WaterlineCut(st, bottom, top);
    var cutTM := WaterlineCut(st, mid, top);
    var clockwise := ClockwiseAfter(top, mid);
    var tb1 := if clockwise then cutTB.(clockwiseOrder := NextSlot(mid.clockwiseOrder))
               else cutTB.(clockwiseOrder := NextSlot(NextSlot(mid.clockwiseOrder)));
    var tm1 := if clockwise then cutTM.(clockwiseOrder := NextSlot(tb1.clockwiseOrder))
               else cutTM.(clockwiseOrder := NextSlot(mid.clockwiseOrder));
    var bottom2 := if clockwise then bottom.(clockwiseOrder := NextSlot(mid.clockwiseOrder))
                   else bottom.(clockwiseOrder := NextSlot(NextSlot(mid.clockwiseOrder)));
    var tb2 := if clockwise then tb1.(clockwiseOrder := NextSlot(bottom2.clockwiseOrder))
               else tb1.(clockwiseOrder := NextSlot(mid.clockwiseOrder));
    ([mid, tb1, tm1], [mid, tb2, bottom2])
  }

  /** Array.Sort on three vertices followed by CuttingAlgorithmHorizontal, as CuttingAlgorithmOneAbove does twice. */
  function SortedHorizontalPieces(st: Step, s: seq<VertexInfo>): (r: seq<Piece>)
    requires |s| == 3
    ensures 1 <= |r| <= 2
  {
    var sorted := SortByHeight(s);
    HorizontalPieces(st, sorted[0], sorted[1], sorted[2])
  }

  /** CuttingAlgorithmOneAbove: the quadrilateral below the waterline as two sorted triangles, each cut horizontally. */
  function OneAbovePieces(st: Step, top: VertexInfo, mid: VertexInfo, bottom: VertexInfo): (r: seq<Piece>)
    ensures 2 <= |r| <= 4
  {
    var (first, second) := OneAboveTriangles(st, top, mid, bottom);
    SortedHorizontalPieces(st, first) + SortedHorizontalPieces(st, second)
  }

  /** The pieces emitted for one triangle whose vertices are sorted highest first. */
  function TrianglePieces(st: Step, s: seq<VertexInfo>): (r: seq<Piece>)
    requires |s| == 3
    ensures |r| <= 4
  {
    match StateOf(s[0].height, s[1].height, s[2].height)
    case AboveWater => []
    case TwoAboveWater => TwoAbovePieces(st, s[0], s[1], s[2])
    case OneAboveWater => OneAbovePieces(st, s[0], s[1], s[2])
    case Submerged => HorizontalPieces(st, s[0], s[1], s[2])
  }

  /** The submergedArea CreateTriangleData stores for the triangle. */
  function StoredArea(st: Step, s: seq<VertexInfo>, originalArea: real): real
    requires |s| == 3
  {
    match StateOf(s[0].height, s[1].height, s[2].height)
    case AboveWater => 0.0
    case Submerged => originalArea
    case _ => AreaSum(Infos(st, TrianglePieces(st, s)))
  }

  // ---------------------------------------------------------------------
  // Properties of one triangle's pieces.

  /** How many pieces each state emits: none above water, one or two when submerged or two above, two to four when one above. */
  lemma PieceCountPerState(st: Step, s: seq<VertexInfo>)
    requires |s| == 3
    ensures var state := StateOf(s[0].height, s[1].height, s[2].height);
      && (state == AboveWater <==> |TrianglePieces(st, s)| == 0)
      && (state == Submerged || state == TwoAboveWater ==> 1 <= |TrianglePieces(st, s)| <= 2)
      && (state == OneAboveWater ==> 2 <= |TrianglePieces(st, s)| <= 4)
  {
  }

  /** When it cuts, CuttingAlgorithmHorizontal cuts strictly inside the top-bottom edge. */
  lemma {:induction false} LevelParameterInside(st: Step, top: VertexInfo, mid: VertexInfo, bottom: VertexInfo)
    requires DivideLaws(st.ctx.math) && st.epsilon > 0.0
    requires top.height - mid.height >= st.epsilon && mid.height - bottom.height >= st.epsilon
    ensures 0.0 < LevelParameter(st, top, mid, bottom) < 1.0
  {
    var num := mid.height - bottom.height;
    var den := top.height - bottom.height;
    DivideExact(st.ctx.math, num, den);
    var q := num / den;
    assert q * den == num;
    if q <= 0.0 { ProductNonNegative(-q, den, -num); }
    if q >= 1.0 { ProductNonNegative(q - 1.0, den, num - den); }
  }

  /** On a submerged triangle and for one with two vertices above, the waterline cut lies in [0, 1) along the edge. */
  lemma {:induction false} WaterlineParameterRange(st: Step, lower: VertexInfo, upper: VertexInfo)
    requires DivideLaws(st.ctx.math) && lower.height <= 0.0 < upper.height
    ensures 0.0 <= WaterlineParameter(st, lower, upper) < 1.0
  {
    var num := -lower.height;
    var den := upper.height - lower.height;
    DivideExact(st.ctx.math, num, den);
    var q := num / den;
    assert q * den == num;
    if q < 0.0 { ProductPositive(-q, den, -num); }
    if q >= 1.0 { ProductNonNegative(q - 1.0, den, num - den); }
  }

  /** A vertex whose height is its y coordinate, as on the flat patch. */
  predicate OnFlat(v: VertexInfo) {
    v.height == v.globalVertex.y
  }

  ghost predicate FlatWater(st: Step) {
    forall p, t :: st.ctx.water(p, t) == p.y
  }

  /** On flat water the waterline cut lies on the surface. */
  lemma {:induction false} WaterlineCutOnSurface(st: Step, lower: VertexInfo, upper: VertexInfo)
    requires DivideLaws(st.ctx.math) && FlatWater(st) && OnFlat(lower) && OnFlat(upper)
    requires lower.height <= 0.0 < upper.height
    ensures WaterlineCut(st, lower, upper).height == 0.0
    ensures OnFlat(WaterlineCut(st, lower, upper))
  {
    var den := upper.height - lower.height;
    DivideExact(st.ctx.math, -lower.height, den);
    var t := -lower.height / den;
    assert t * den == -lower.height;
    assert Along(lower.globalVertex, upper.globalVertex, t).y == lower.height + den * t;
  }

  /** On flat water the level cut has exactly mid's height. */
  lemma {:induction false} LevelCutAtMidHeight(st: Step, top: VertexInfo, mid: VertexInfo, bottom: VertexInfo)
    requires DivideLaws(st.ctx.math) && FlatWater(st) && OnFlat(top) && OnFlat(bottom)
    requires top.height != bottom.height
    ensures CutAt(st, bottom, top, LevelParameter(st, top, mid, bottom)).height == mid.height
    ensures OnFlat(CutAt(st, bottom, top, LevelParameter(st, top, mid, bottom)))
  {
    var den := top.height - bottom.height;
    DivideExact(st.ctx.math, mid.height - bottom.height, den);
    var t := (mid.height - bottom.height) / den;
    assert t * den == mid.height - bottom.height;
    assert Along(bottom.globalVertex, top.globalVertex, t).y == bottom.height + den * t;
  }

  /**
   * On flat water a triangle with two vertices above the surface leaves a
   * single piece: both cuts are on the surface, level with each other.
   */
  lemma {:induction false} TwoAboveOnFlatWaterIsOnePiece(st: Step, top: VertexInfo, mid: VertexInfo, bottom: VertexInfo)
    requires DivideLaws(st.ctx.math) && FlatWater(st) && st.epsilon > 0.0
    requires OnFlat(top) && OnFlat(mid) && OnFlat(bottom)
    requires top.height > 0.0 && mid.height > 0.0 && bottom.height <= 0.0
    ensures |TwoAbovePieces(st, top, mid, bottom)| == 1
  {
    WaterlineCutOnSurface(st, bottom, top);
    WaterlineCutOnSurface(st, bottom, mid);
    var (cutTB, cutMB) := TwoAboveCuts(st, top, mid, bottom);
    assert cutTB.height == 0.0 && cutMB.height == 0.0;
  }

  // ---------------------------------------------------------------------
  // Orientation: every piece keeps the original triangle's winding.

  /** b follows a clockwise, unless one of them is a cut vertex without a slot. */
  predicate Follows(a: VertexInfo, b: VertexInfo) {
    a.clockwiseOrder < 0 || b.clockwiseOrder < 0 || Rem(a.clockwiseOrder + 1, 3) == b.clockwiseOrder
  }

  /** The corners of a piece, read vi1, vi2, vi3, go round clockwise. */
  predicate Oriented(p: Piece) {
    Follows(p.vi1, p.vi2) && Follows(p.vi2, p.vi3) && Follows(p.vi3, p.vi1)
  }

  predicate SlotPermutation(a: VertexInfo, b: VertexInfo, c: VertexInfo) {
    IsSlotPermutation(a.clockwiseOrder, b.clockwiseOrder, c.clockwiseOrder)
  }

  /** Three distinct slots either run round clockwise in the order given or in the reverse order. */
  lemma CyclicSlots(a: int, b: int, c: int)
    requires IsSlotPermutation(a, b, c)
    ensures Rem(a + 1, 3) == b ==> Rem(b + 1, 3) == c && Rem(c + 1, 3) == a
    ensures Rem(a + 1, 3) != b ==> Rem(a + 1, 3) == c && Rem(c + 1, 3) == b && Rem(b + 1, 3) == a
  {
  }

  /** Whatever the heights, CuttingAlgorithmHorizontal lists every piece's corners clockwise. */
  lemma HorizontalKeepsOrientation(st: Step, top: VertexInfo, mid: VertexInfo, bottom: VertexInfo)
    requires SlotPermutation(top, mid, bottom)
    ensures forall p :: p in HorizontalPieces(st, top, mid, bottom) ==> Oriented(p)
  {
  }

  /** Each waterline vertex of CuttingAlgorithmTwoAbove takes the slot of the vertex above water on its edge. */
  lemma TwoAboveCutsInheritSlots(st: Step, top: VertexInfo, mid: VertexInfo, bottom: VertexInfo)
    requires SlotPermutation(top, mid, bottom)
    ensures TwoAboveCuts(st, top, mid, bottom).0.clockwiseOrder == top.clockwiseOrder
    ensures TwoAboveCuts(st, top, mid, bottom).1.clockwiseOrder == mid.clockwiseOrder
  {
  }

  /**
   * CuttingAlgorithmOneAbove: in the first triangle the cut on the top-bottom
   * edge takes bottom's slot and the cut on the top-mid edge takes top's; in
   * the second the top-bottom cut takes top's slot and bottom keeps its own.
   */
  lemma OneAboveSlots(st: Step, top: VertexInfo, mid: VertexInfo, bottom: VertexInfo)
    requires SlotPermutation(top, mid, bottom)
    ensures var (first, second) := OneAboveTriangles(st, top, mid, bottom);
      && first[0] == mid && first[1].clockwiseOrder == bottom.clockwiseOrder && first[2].clockwiseOrder == top.clockwiseOrder
      && second[0] == mid && second[1].clockwiseOrder == top.clockwiseOrder && second[2] == bottom
  {
    CyclicSlots(top.clockwiseOrder, mid.clockwiseOrder, bottom.clockwiseOrder);
  }

  /** Every piece emitted for a triangle whose slots are 0, 1, 2 keeps its winding. */
  lemma {:induction false} TrianglePiecesOriented(st: Step, s: seq<VertexInfo>)
    requires |s| == 3 && HasSlotPermutation(s)
    ensures forall p :: p in TrianglePieces(st, s) ==> Oriented(p)
  {
    var top, mid, bottom := s[0], s[1], s[2];
    match StateOf(top.height, mid.height, bottom.height)
    case AboveWater =>
    case Submerged =>
      HorizontalKeepsOrientation(st, top, mid, bottom);
    case TwoAboveWater =>
      TwoAboveCutsInheritSlots(st, top, mid, bottom);
      var (cutTB, cutMB) := TwoAboveCuts(st, top, mid, bottom);
      HorizontalKeepsOrientation(st, cutTB, cutMB, bottom);
      HorizontalKeepsOrientation(st, cutMB, cutTB, bottom);
    case OneAboveWater =>
      OneAboveSlots(st, top, mid, bottom);
      var (first, second) := OneAboveTriangles(st, top, mid, bottom);
      SortKeepsSlots(first);
      SortKeepsSlots(second);
      var s1 := SortByHeight(first);
      var s2 := SortByHeight(second);
      HorizontalKeepsOrientation(st, s1[0], s1[1], s1[2]);
      HorizontalKeepsOrientation(st, s2[0], s2[1], s2[2]);
  }
}
