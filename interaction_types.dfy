/*
 * The records of WaterInteraction/TriangleData.cs: a sampled hull vertex,
 * the metrics of one submerged piece, and the per-triangle buffer kept
 * across physics steps. Their constructors, which need the geometry of
 * WaterInteractionUtils.cs, are in module TriangleData.
 *
 * Array.Sort over three VertexInfo values, ordered by CompareTo, is modelled
 * here too. .NET does not promise an order among equal heights; the model
 * fixes one (a three-comparator network) and every property proved
 * downstream uses only that the result is a descending permutation.
 */
module InteractionTypes {
  import opened UnityMath

  /** One hull vertex of the current step: height above water, clockwise slot, world position. */
  datatype VertexInfo = VertexInfo(height: real, clockwiseOrder: int, globalVertex: Vec3)

  /** float.CompareTo for non-NaN values: -1, 0 or 1. */
  function CompareFloat(a: real, b: real): int {
    if a < b then -1 else if a > b then 1 else 0
  }

  /** VertexInfo.CompareTo: `other.height.CompareTo(this.height)`, so higher vertices sort first. */
  function CompareTo(self: VertexInfo, other: VertexInfo): (c: int)
    ensures c < 0 <==> self.height > other.height
    ensures c == 0 <==> self.height == other.height
    ensures c > 0 <==> self.height < other.height
  {
    CompareFloat(other.height, self.height)
  }

  lemma CompareToAntisymmetric(a: VertexInfo, b: VertexInfo)
    ensures CompareTo(a, b) == -CompareTo(b, a)
  {
  }

  /** The metrics of one submerged piece (struct TriangleInfo). */
  datatype TriangleInfo = TriangleInfo(
    center: Vec3,     // depth-weighted application point
    height: real,     // distance to water re-queried at the center
    normal: Vec3,
    area: real,
    velocity: Vec3,   // velocity of the hull at the center
    cosine: real)     // cosine between velocity and normal

  /** The state of one original hull triangle kept across steps (struct TriangleBuffer). */
  datatype TriangleBuffer = TriangleBuffer(submergedArea: real, originalArea: real, velocity: Vec3)

  /** The default value of the struct, which fills a freshly allocated buffer array. */
  const ZeroBuffer: TriangleBuffer := TriangleBuffer(0.0, 0.0, Zero)

  // ---------------------------------------------------------------------
  // Sorting three vertices by height (Array.Sort with VertexInfo.CompareTo).

  ghost predicate Descending(s: seq<VertexInfo>) {
    forall i, j :: 0 <= i < j < |s| ==> s[i].height >= s[j].height
  }

  /** One comparator of the network: exchange s[i] and s[j] when s[i] sorts after s[j]. */
  function SwapIfGreater(s: seq<VertexInfo>, i: nat, j: nat): (r: seq<VertexInfo>)
    requires i < j < |s|
    ensures |r| == |s|
  {
    if CompareTo(s[i], s[j]) > 0 then s[i := s[j]][j := s[i]] else s
  }

  /** A comparator keeps the same vertices, orders positions i and j, and leaves the others alone. */
  lemma SwapIfGreaterOrders(s: seq<VertexInfo>, i: nat, j: nat)
    requires i < j < |s|
    ensures multiset(SwapIfGreater(s, i, j)) == multiset(s)
    ensures SwapIfGreater(s, i, j)[i].height >= SwapIfGreater(s, i, j)[j].height
    ensures || (SwapIfGreater(s, i, j)[i] == s[i] && SwapIfGreater(s, i, j)[j] == s[j])
            || (SwapIfGreater(s, i, j)[i] == s[j] && SwapIfGreater(s, i, j)[j] == s[i])
    ensures forall k :: 0 <= k < |s| && k != i && k != j ==> SwapIfGreater(s, i, j)[k] == s[k]
  {
  }

  /** The order Array.Sort leaves three vertices in, in this model. */
  function SortByHeight(s: seq<VertexInfo>): (r: seq<VertexInfo>)
    requires |s| == 3
    ensures |r| == 3
  {
    SwapIfGreater(SwapIfGreater(SwapIfGreater(s, 0, 1), 0, 2), 1, 2)
  }

  /** Sorting yields the same three vertices, highest first. */
  lemma {:induction false} SortByHeightSorts(s: seq<VertexInfo>)
    requires |s| == 3
    ensures Descending(SortByHeight(s))
    ensures multiset(SortByHeight(s)) == multiset(s)
  {
    var s1 := SwapIfGreater(s, 0, 1);
    var s2 := SwapIfGreater(s1, 0, 2);
    var s3 := SwapIfGreater(s2, 1, 2);
    SwapIfGreaterOrders(s, 0, 1);
    SwapIfGreaterOrders(s1, 0, 2);
    SwapIfGreaterOrders(s2, 1, 2);
    // after the second comparator position 0 holds the highest of the three
    assert s2[0].height >= s2[1].height && s2[0].height >= s2[2].height;
    assert s3[0] == s2[0];
    assert s3[0].height >= s3[1].height && s3[1].height >= s3[2].height;
  }

  /** Array.Sort(a) on the three-element vertex array, in place. */
  method SortVertices(a: array<VertexInfo>)
    requires a.Length == 3
    modifies a
    ensures a[..] == SortByHeight(old(a[..]))
  {
    if CompareTo(a[0], a[1]) > 0 { a[0], a[1] := a[1], a[0]; }
    if CompareTo(a[0], a[2]) > 0 { a[0], a[2] := a[2], a[0]; }
    if CompareTo(a[1], a[2]) > 0 { a[1], a[2] := a[2], a[1]; }
  }

  // ---------------------------------------------------------------------
  // Clockwise slots.

  /** Three clockwise slots that are 0, 1 and 2 in some order. */
  predicate IsSlotPermutation(a: int, b: int, c: int) {
    && 0 <= a < 3 && 0 <= b < 3 && 0 <= c < 3
    && a != b && b != c && a != c
  }

  /** The slots of three vertices form a permutation of 0, 1, 2. */
  predicate HasSlotPermutation(s: seq<VertexInfo>)
    requires |s| == 3
  {
    IsSlotPermutation(s[0].clockwiseOrder, s[1].clockwiseOrder, s[2].clockwiseOrder)
  }

  /** Exchanging two vertices keeps the slots a permutation. */
  lemma SwapKeepsSlots(s: seq<VertexInfo>, i: nat, j: nat)
    requires i < j < |s| == 3 && HasSlotPermutation(s)
    ensures HasSlotPermutation(SwapIfGreater(s, i, j))
  {
    SwapIfGreaterOrders(s, i, j);
  }

  /** Sorting keeps the slots a permutation. */
  lemma {:induction false} SortKeepsSlots(s: seq<VertexInfo>)
    requires |s| == 3 && HasSlotPermutation(s)
    ensures HasSlotPermutation(SortByHeight(s))
  {
    SwapKeepsSlots(s, 0, 1);
    SwapKeepsSlots(SwapIfGreater(s, 0, 1), 0, 2);
    SwapKeepsSlots(SwapIfGreater(SwapIfGreater(s, 0, 1), 0, 2), 1, 2);
  }
}
