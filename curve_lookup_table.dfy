// CurveLookUpTable: the arc length of an animation curve sampled on the unit
// interval, stored as base-10 logarithms and indexed by a key in [0, 1].

module CurveLookUpTable {
  import opened UnityMath

  /** The table size a new component starts with. */
  const DefaultLookUpTableSize: int := 101

  /** The x of sample i when [0, 1] is split into size - 1 equal steps. */
  function SampleX(size: int, i: int): real
    requires size >= 2
  {
    (i as real) / ((size - 1) as real)
  }

  /** Every sample after the first lies strictly right of zero. */
  lemma SampleXPositive(size: int, i: int)
    requires size >= 2 && i >= 1
    ensures SampleX(size, i) > 0.0
  {
  }

  /** Vector2.Distance between the curve's samples i - 1 and i. */
  function Chord(n: Numerics, curve: real -> real, size: int, i: int): real
    requires size >= 2
  {
    var prevX := SampleX(size, i - 1);
    var currX := SampleX(size, i);
    Distance(n, Vec3(prevX, curve(prevX), 0.0), Vec3(currX, curve(currX), 0.0))
  }

  /** buffer[k]: the length of the polyline through samples 0 .. k. */
  function ArcLength(n: Numerics, curve: real -> real, size: int, k: nat): (r: real)
    requires size >= 2
    ensures SqrtLaws(n) ==> r >= 0.0
    ensures SqrtLaws(n) && k > 0 ==> r >= Chord(n, curve, size, k)
  {
    if k == 0 then 0.0
    else
      ChordNonNegative(n, curve, size, k);
      Chord(n, curve, size, k) + ArcLength(n, curve, size, k - 1)
  }

  lemma ChordNonNegative(n: Numerics, curve: real -> real, size: int, i: int)
    requires size >= 2
    ensures SqrtLaws(n) ==> Chord(n, curve, size, i) >= 0.0
  {
    if SqrtLaws(n) {
      var prevX := SampleX(size, i - 1);
      var currX := SampleX(size, i);
      DistanceNonNegative(n, Vec3(prevX, curve(prevX), 0.0), Vec3(currX, curve(currX), 0.0));
    }
  }

  /** The first count entries of buffer: the arc lengths up to samples 0 .. count - 1. */
  function ArcLengths(n: Numerics, curve: real -> real, size: int, count: nat): (r: seq<real>)
    requires size >= 2
    ensures |r| == count
  {
    if count == 0 then [] else ArcLengths(n, curve, size, count - 1) + [ArcLength(n, curve, size, count - 1)]
  }

  /** The first count entries of lookUpTable: log10 of lengths[1 .. count]. */
  function LogsOf(n: Numerics, lengths: seq<real>, count: nat): (r: seq<real>)
    requires count < |lengths|
    ensures |r| == count
  {
    if count == 0 then [] else LogsOf(n, lengths, count - 1) + [n.log10(lengths[count])]
  }

  lemma {:induction false} ArcLengthsAt(n: Numerics, curve: real -> real, size: int, count: nat, k: nat)
    requires size >= 2 && k < count
    ensures ArcLengths(n, curve, size, count)[k] == ArcLength(n, curve, size, k)
  {
    if k < count - 1 {
      ArcLengthsAt(n, curve, size, count - 1, k);
    }
  }

  lemma {:induction false} LogsOfAt(n: Numerics, lengths: seq<real>, count: nat, k: nat)
    requires count < |lengths| && k < count
    ensures LogsOf(n, lengths, count)[k] == n.log10(lengths[k + 1])
  {
    if k < count - 1 {
      LogsOfAt(n, lengths, count - 1, k);
    }
  }

  /** Two entries of the table built from a growing buffer of positive lengths, in order. */
  lemma TableEntriesGrow(n: Numerics, buffer: seq<real>, size: int, j: int, k: int)
    requires size >= 2 && |buffer| == size && 0 <= j <= k < size
    requires forall a, b :: 0.0 < a <= b ==> n.log10(a) <= n.log10(b)
    requires forall a, b :: 0 <= a <= b < size ==> buffer[a] <= buffer[b]
    requires forall a :: 0 <= a < size ==> buffer[a] >= SampleX(size, a)
    ensures var logs := LogsOf(n, buffer, size - 1);
      (logs + [logs[size - 2]])[j] <= (logs + [logs[size - 2]])[k]
  {
    var j' := if j == size - 1 then size - 2 else j;
    var k' := if k == size - 1 then size - 2 else k;
    LogsOfAt(n, buffer, size - 1, j');
    LogsOfAt(n, buffer, size - 1, k');
    SampleXPositive(size, j' + 1);
    assert 0.0 < buffer[j' + 1] <= buffer[k' + 1];
  }

  /** The table index a key selects: Mathf.FloorToInt(key / (1 / (size - 1))). */
  function LookUpIndex(n: Numerics, size: int, keyCandidate: real): int {
    var delta := n.divide(1.0, size as real - 1.0);
    n.divide(keyCandidate, delta).Floor
  }

  /**
   * LookUp on a table of the given size and entries; None where the list
   * index would be out of range and the source throws.
   */
  function LookUp(n: Numerics, size: int, table: seq<real>, keyCandidate: real): (r: Option<real>)
    ensures DivideLaws(n) && size >= 2 && |table| == size && 0.0 <= keyCandidate <= 1.0 ==>
      r == Some(table[(keyCandidate * (size - 1) as real).Floor])
    ensures r.None? <==> !(0 <= LookUpIndex(n, size, keyCandidate) < |table|)
  {
    KeyScalesToIndex(n, size, keyCandidate);
    var index := LookUpIndex(n, size, keyCandidate);
    if 0 <= index < |table| then Some(table[index]) else None
  }

  /** With exact division the index is the floor of key * (size - 1), within [0, size - 1] for a key in [0, 1]. */
  lemma KeyScalesToIndex(n: Numerics, size: int, keyCandidate: real)
    ensures DivideLaws(n) && size >= 2 ==>
      LookUpIndex(n, size, keyCandidate) == (keyCandidate * (size - 1) as real).Floor
    ensures DivideLaws(n) && size >= 2 && 0.0 <= keyCandidate <= 1.0 ==>
      0 <= LookUpIndex(n, size, keyCandidate) <= size - 1
  {
    if DivideLaws(n) && size >= 2 {
      var m := (size - 1) as real;
      var delta := 1.0 / m;
      assert n.divide(1.0, size as real - 1.0) == delta;
      assert delta * m == 1.0;
      assert delta != 0.0;
      QuotientIs(keyCandidate, delta, keyCandidate * m);
      assert n.divide(keyCandidate, delta) == keyCandidate * m;
      if 0.0 <= keyCandidate <= 1.0 {
        assert 0.0 <= keyCandidate * m <= m;
      }
    }
  }

  /** Consecutive samples are 1 / (size - 1) apart. */
  lemma StepWidth(size: int, i: int)
    requires size >= 2
    ensures SampleX(size, i) - SampleX(size, i - 1) == 1.0 / ((size - 1) as real)
  {
    var m := (size - 1) as real;
    assert SampleX(size, i) * m == i as real;
    assert SampleX(size, i - 1) * m == (i - 1) as real;
    assert (SampleX(size, i) - SampleX(size, i - 1)) * m == 1.0;
  }

  /** A non-negative root of x^2 + y^2 is at least a positive x. */
  lemma HypotenuseAtLeastSide(s: real, x: real, y: real)
    requires s >= 0.0 && x > 0.0 && s * s == x * x + y * y
    ensures s >= x
  {
    SquareNonNegative(y);
    if s < x {
      ProductPositive(x - s, x + s, (x - s) * (x + s));
      assert false;
    }
  }

  /** Each chord is at least as long as its step along x. */
  lemma {:induction false} ChordAtLeastStep(n: Numerics, curve: real -> real, size: int, i: int)
    requires SqrtLaws(n) && size >= 2
    ensures Chord(n, curve, size, i) >= 1.0 / ((size - 1) as real)
  {
    var prevX := SampleX(size, i - 1);
    var currX := SampleX(size, i);
    StepWidth(size, i);
    var dx := currX - prevX;
    var d := Sub(Vec3(prevX, curve(prevX), 0.0), Vec3(currX, curve(currX), 0.0));
    assert d.x == -dx && d.z == 0.0;
    assert Dot(d, d) == dx * dx + d.y * d.y;
    SquareNonNegative(d.y);
    SqrtOf(n, Dot(d, d));
    HypotenuseAtLeastSide(n.sqrt(Dot(d, d)), dx, d.y);
  }

  /** buffer[k] >= k / (size - 1): the polyline is at least as long as its x-extent. */
  lemma {:induction false} ArcLengthAtLeastX(n: Numerics, curve: real -> real, size: int, k: nat)
    requires SqrtLaws(n) && size >= 2
    ensures ArcLength(n, curve, size, k) >= SampleX(size, k)
  {
    if k > 0 {
      ArcLengthAtLeastX(n, curve, size, k - 1);
      ChordAtLeastStep(n, curve, size, k);
      StepWidth(size, k);
    }
  }

  /** buffer is non-decreasing. */
  lemma {:induction false} ArcLengthMonotone(n: Numerics, curve: real -> real, size: int, j: nat, k: nat)
    requires SqrtLaws(n) && size >= 2 && j <= k
    ensures ArcLength(n, curve, size, j) <= ArcLength(n, curve, size, k)
  {
    if j < k {
      ArcLengthMonotone(n, curve, size, j, k - 1);
      ChordAtLeastStep(n, curve, size, k);
      assert 1.0 / ((size - 1) as real) > 0.0;
    }
  }

  class CurveLookUpTable {
    var animationCurve: real -> real  // AnimationCurve.Evaluate
    var lookUpTableSize: int
    var lookUpTable: seq<real>
    var buffer: seq<real>

    constructor (curve: real -> real)
      ensures animationCurve == curve && lookUpTableSize == DefaultLookUpTableSize
      ensures lookUpTable == [] && buffer == []
    {
      animationCurve := curve;
      lookUpTableSize := DefaultLookUpTableSize;
      lookUpTable := [];
      buffer := [];
    }

    /**
     * The lists a completed CreateLookUpTable leaves: buffer holds the arc
     * length up to every sample, lookUpTable the log10 of every entry after
     * the first, with the last log repeated.
     */
    ghost predicate Built(n: Numerics)
      reads this
    {
      && lookUpTableSize >= 2
      && buffer == ArcLengths(n, animationCurve, lookUpTableSize, lookUpTableSize)
      && var logs := LogsOf(n, buffer, lookUpTableSize - 1);
         lookUpTable == logs + [logs[lookUpTableSize - 2]]
    }

    /**
     * CreateLookUpTable. With fewer than two entries the final read of
     * lookUpTable[Count - 1] throws: completed is false and the lists are
     * left as they were at that point.
     */
    method CreateLookUpTable(n: Numerics) returns (completed: bool)
      modifies this`buffer, this`lookUpTable
      ensures completed <==> lookUpTableSize >= 2
      ensures completed ==> Built(n)
      ensures !completed ==> buffer == [0.0] && lookUpTable == []
    {
      FillArcLengths(n);
      FillLogs(n);
      if |lookUpTable| == 0 {
        return false;
      }
      lookUpTable := lookUpTable + [lookUpTable[|lookUpTable| - 1]];
      completed := true;
    }

    /** The first loop of CreateLookUpTable: the running arc length at every sample. */
    method FillArcLengths(n: Numerics)
      modifies this`buffer
      ensures lookUpTableSize >= 2 ==> buffer == ArcLengths(n, animationCurve, lookUpTableSize, lookUpTableSize)
      ensures lookUpTableSize < 2 ==> buffer == [0.0]
    {
      var size := lookUpTableSize;
      var curve := animationCurve;
      buffer := [0.0];
      if size < 2 {
        return;
      }
      var i := 1;
      while i < size
        invariant 1 <= i <= size
        invariant buffer == ArcLengths(n, curve, size, i)
      {
        AppendArcLength(n, curve, size, i);
        i := i + 1;
      }
    }

    /** One turn of the first loop: buffer[i] is the previous entry plus the chord to sample i. */
    method AppendArcLength(n: Numerics, curve: real -> real, size: int, i: nat)
      requires size >= 2 && 1 <= i && buffer == ArcLengths(n, curve, size, i)
      modifies this`buffer
      ensures buffer == ArcLengths(n, curve, size, i + 1)
    {
      ArcLengthsAt(n, curve, size, i, i - 1);
      var length := NextArcLength(n, curve, size, i, buffer[i - 1]);
      buffer := buffer + [length];
    }

    /** The body of the first loop: the chord between samples i - 1 and i added to the length so far. */
    static method NextArcLength(n: Numerics, curve: real -> real, size: int, i: nat, previous: real) returns (length: real)
      requires size >= 2 && 1 <= i && previous == ArcLength(n, curve, size, i - 1)
      ensures length == ArcLength(n, curve, size, i)
    {
      var prevX := SampleX(size, i - 1);
      var prev := Vec3(prevX, curve(prevX), 0.0);
      var currX := SampleX(size, i);
      var curr := Vec3(currX, curve(currX), 0.0);
      length := Distance(n, prev, curr) + previous;
    }

    /** The second loop of CreateLookUpTable: log10 of every buffer entry after the first. */
    method FillLogs(n: Numerics)
      requires |buffer| >= 1
      modifies this`lookUpTable
      ensures lookUpTable == LogsOf(n, buffer, |buffer| - 1)
    {
      lookUpTable := [];
      var i := 1;
      while i < |buffer|
        invariant 1 <= i <= |buffer|
        invariant lookUpTable == LogsOf(n, buffer, i - 1)
      {
        lookUpTable := lookUpTable + [n.log10(buffer[i])];
        i := i + 1;
      }
    }

    /** A built buffer starts at zero, never decreases and bounds k / (size - 1) from above. */
    lemma BuiltBufferGrows(n: Numerics)
      requires SqrtLaws(n) && Built(n)
      ensures buffer[0] == 0.0
      ensures forall j, k :: 0 <= j <= k < |buffer| ==> buffer[j] <= buffer[k]
      ensures forall k :: 0 <= k < |buffer| ==> buffer[k] >= SampleX(lookUpTableSize, k)
    {
      var size := lookUpTableSize;
      ArcLengthsAt(n, animationCurve, size, size, 0);
      forall j, k | 0 <= j <= k < |buffer|
        ensures buffer[j] <= buffer[k]
      {
        ArcLengthsAt(n, animationCurve, size, size, j);
        ArcLengthsAt(n, animationCurve, size, size, k);
        ArcLengthMonotone(n, animationCurve, size, j, k);
      }
      forall k | 0 <= k < |buffer|
        ensures buffer[k] >= SampleX(size, k)
      {
        ArcLengthsAt(n, animationCurve, size, size, k);
        ArcLengthAtLeastX(n, animationCurve, size, k);
      }
    }

    /** With a monotone log, the entries of a built table never decrease. */
    lemma BuiltTableGrows(n: Numerics)
      requires SqrtLaws(n) && LogLaws(n) && Built(n)
      ensures forall j, k :: 0 <= j <= k < |lookUpTable| ==> lookUpTable[j] <= lookUpTable[k]
    {
      BuiltBufferGrows(n);
      forall j, k | 0 <= j <= k < |lookUpTable|
        ensures lookUpTable[j] <= lookUpTable[k]
      {
        TableEntriesGrow(n, buffer, lookUpTableSize, j, k);
      }
    }
  }
}
