/** One session's forecast as a monotone quantile curve (models/distribution.py), and the two
    readings of the stored curve the dashboard makes on its own (dashboard/presenters.py,
    dashboard/arm_density.py). */
module Distribution {
  import opened Arithmetic
  import opened Wrappers

  // ------------------------------------------------------------------
  // The curve
  // ------------------------------------------------------------------

  datatype Curve = Curve(levels: seq<real>, values: seq<real>)

  predicate Ascending(s: seq<real>) {
    forall i, j :: 0 <= i < j < |s| ==> s[i] <= s[j]
  }

  lemma InOrder(s: seq<real>, i: nat, j: nat)
    requires Ascending(s) && i <= j < |s|
    ensures s[i] <= s[j]
  {}

  predicate StrictlyAscending(s: seq<real>) {
    forall i, j :: 0 <= i < j < |s| ==> s[i] < s[j]
  }

  predicate Valid(c: Curve) {
    && |c.levels| >= 2 && |c.levels| == |c.values|
    && (forall i :: 0 <= i < |c.levels| ==> 0.0 < c.levels[i] < 1.0)
    && StrictlyAscending(c.levels)
    && Ascending(c.values)
  }

  predicate HasDuplicates(s: seq<real>) {
    exists i, j :: 0 <= i < j < |s| && s[i] == s[j]
  }

  /** The constructor's checks, in the order they are made. */
  function MakeCurve(levels: seq<real>, values: seq<real>, trainingSessions: int): Result<Curve> {
    if |levels| < 2 then Err("a distribution needs at least two quantile levels")
    else if |levels| != |values| then Err("levels and values must have equal length")
    else if exists i :: 0 <= i < |levels| && !(0.0 < levels[i] < 1.0) then
      Err("levels must be strictly between 0 and 1")
    else if !Ascending(levels) then Err("levels must be ascending")
    else if HasDuplicates(levels) then Err("levels must be unique")
    else if !Ascending(values) then Err("values must be non-decreasing")
    else if trainingSessions < 1 then Err("training_sessions must be positive")
    else Ok(Curve(levels, values))
  }

  /** A curve is accepted exactly when it is a strictly ascending run of levels over a
      non-decreasing run of values. */
  lemma AcceptedCurves(levels: seq<real>, values: seq<real>, trainingSessions: int)
    ensures MakeCurve(levels, values, trainingSessions).Ok?
            <==> Valid(Curve(levels, values)) && trainingSessions >= 1
    ensures forall c :: MakeCurve(levels, values, trainingSessions) == Ok(c) ==>
              c.levels == levels && c.values == values
  {
    if Ascending(levels) && !HasDuplicates(levels) {
      forall i, j | 0 <= i < j < |levels|
        ensures levels[i] < levels[j]
      {
        assert levels[i] <= levels[j] && levels[i] != levels[j];
      }
    }
    if StrictlyAscending(levels) {
      assert Ascending(levels) && !HasDuplicates(levels);
    }
  }

  // ------------------------------------------------------------------
  // The curve read as a cumulative function
  // ------------------------------------------------------------------

  /** Which branch of `cumulative` answers. */
  datatype Reading = Bottom | Top | Inside(segment: nat) | Flat(segment: nat) | Nowhere

  function Search(values: seq<real>, x: real, i: nat): (r: Reading)
    requires i < |values|
    ensures !r.Bottom? && !r.Top?
    ensures r.Inside? || r.Flat? ==> i <= r.segment < |values| - 1
    decreases |values| - i
  {
    if i == |values| - 1 then Nowhere
    else if values[i] <= x <= values[i + 1] then
      if values[i + 1] == values[i] then Flat(i) else Inside(i)
    else Search(values, x, i + 1)
  }

  function Locate(values: seq<real>, x: real): (r: Reading)
    requires |values| > 0
    ensures r.Inside? || r.Flat? ==> r.segment < |values| - 1
  {
    if x <= values[0] then Bottom
    else if x >= values[|values| - 1] then Top
    else Search(values, x, 0)
  }

  function Interpolate(l0: real, l1: real, x0: real, x1: real, x: real): real
    requires x0 != x1
  {
    l0 + (x - x0) / (x1 - x0) * (l1 - l0)
  }

  /** P(return <= x), pinned outside the fitted range. */
  function Cumulative(c: Curve, x: real): real
    requires Valid(c)
  {
    match Locate(c.values, x)
    case Bottom => c.levels[0]
    case Top => c.levels[|c.levels| - 1]
    case Inside(i) =>
      assert c.values[i] != c.values[i + 1] by { SearchInside(c.values, x, 0); }
      Interpolate(c.levels[i], c.levels[i + 1], c.values[i], c.values[i + 1], x)
    case Flat(i) => c.levels[i]
    case Nowhere => 0.5
  }

  lemma {:induction false} SearchInside(values: seq<real>, x: real, i: nat)
    requires i < |values|
    ensures var r := Search(values, x, i);
            r.Inside? ==> values[r.segment] != values[r.segment + 1]
    decreases |values| - i
  {
    if i < |values| - 1 && !(values[i] <= x <= values[i + 1]) {
      SearchInside(values, x, i + 1);
    }
  }

  /** Within the fitted range the search always stops at a segment with width, the one whose
      left end lies strictly below the threshold: the zero-width branch and the final `0.5` are
      never reached. */
  lemma {:induction false} SearchFinds(values: seq<real>, x: real, i: nat)
    requires Ascending(values) && i < |values| && values[i] < x < values[|values| - 1]
    ensures var r := Search(values, x, i);
            r.Inside? && values[r.segment] < x <= values[r.segment + 1]
    decreases |values| - i
  {
    if i < |values| - 1 && x > values[i + 1] {
      SearchFinds(values, x, i + 1);
    }
  }

  lemma DeadBranches(c: Curve, x: real)
    requires Valid(c)
    ensures !Locate(c.values, x).Flat? && !Locate(c.values, x).Nowhere?
    ensures var r := Locate(c.values, x);
            r.Inside? ==> c.values[r.segment] < x <= c.values[r.segment + 1]
  {
    if c.values[0] < x < c.values[|c.values| - 1] {
      SearchFinds(c.values, x, 0);
    }
  }

  // -------- interpolation on one segment --------

  lemma InterpolateEnds(l0: real, l1: real, x0: real, x1: real)
    requires x0 < x1
    ensures Interpolate(l0, l1, x0, x1, x0) == l0
    ensures Interpolate(l0, l1, x0, x1, x1) == l1
  {
    DivideSelf(x1 - x0);
  }

  lemma InterpolateOrder(l0: real, l1: real, x0: real, x1: real, x: real, y: real)
    requires x0 < x1 && l0 < l1 && x <= y
    ensures Interpolate(l0, l1, x0, x1, x) <= Interpolate(l0, l1, x0, x1, y)
    ensures x < y ==> Interpolate(l0, l1, x0, x1, x) < Interpolate(l0, l1, x0, x1, y)
  {
    DivideOrder(x - x0, y - x0, x1 - x0);
    ScaleOrder((x - x0) / (x1 - x0), (y - x0) / (x1 - x0), l1 - l0);
  }

  lemma InterpolateWithin(l0: real, l1: real, x0: real, x1: real, x: real)
    requires x0 < x1 && l0 < l1 && x0 <= x <= x1
    ensures l0 <= Interpolate(l0, l1, x0, x1, x) <= l1
    ensures x0 < x ==> l0 < Interpolate(l0, l1, x0, x1, x)
    ensures x < x1 ==> Interpolate(l0, l1, x0, x1, x) < l1
  {
    InterpolateEnds(l0, l1, x0, x1);
    InterpolateOrder(l0, l1, x0, x1, x0, x);
    InterpolateOrder(l0, l1, x0, x1, x, x1);
  }

  lemma InterpolateAt(l0: real, l1: real, x0: real, x1: real, x: real, w: real)
    requires x0 != x1 && x - x0 == w * (x1 - x0)
    ensures Interpolate(l0, l1, x0, x1, x) == l0 + w * (l1 - l0)
  {
    QuotientIs(x - x0, w, x1 - x0);
  }

  /** Inverse interpolation undoes interpolation. */
  lemma InterpolateInverse(l0: real, l1: real, x0: real, x1: real, l: real)
    requires x0 != x1 && l0 != l1
    ensures Interpolate(l0, l1, x0, x1, Interpolate(x0, x1, l0, l1, l)) == l
  {
    var w := QuotientOf(l - l0, l1 - l0);
    InterpolateAt(x0, x1, l0, l1, l, w);
    InterpolateAt(l0, l1, x0, x1, Interpolate(x0, x1, l0, l1, l), w);
  }

  // -------- the cumulative function over all thresholds --------

  /** On the segment holding `x` the cumulative function lies in (lower level, upper level]. */
  lemma CumulativeInside(c: Curve, x: real)
    requires Valid(c) && c.values[0] < x < c.values[|c.values| - 1]
    ensures var r := Locate(c.values, x);
            && r.Inside?
            && c.values[r.segment] < x <= c.values[r.segment + 1]
            && Cumulative(c, x) == Interpolate(c.levels[r.segment], c.levels[r.segment + 1],
                                               c.values[r.segment], c.values[r.segment + 1], x)
            && c.levels[r.segment] < Cumulative(c, x) <= c.levels[r.segment + 1]
  {
    DeadBranches(c, x);
    var i := Locate(c.values, x).segment;
    InterpolateWithin(c.levels[i], c.levels[i + 1], c.values[i], c.values[i + 1], x);
  }

  /** Never outside the first and last fitted level. */
  lemma CumulativeRange(c: Curve, x: real)
    requires Valid(c)
    ensures c.levels[0] <= Cumulative(c, x) <= c.levels[|c.levels| - 1]
  {
    if c.values[0] < x < c.values[|c.values| - 1] {
      CumulativeInside(c, x);
      var i := Locate(c.values, x).segment;
      assert i > 0 ==> c.levels[0] < c.levels[i];
      assert i + 1 < |c.levels| - 1 ==> c.levels[i + 1] < c.levels[|c.levels| - 1];
    }
  }

  /** Non-decreasing over all reals. */
  lemma CumulativeMonotone(c: Curve, x: real, y: real)
    requires Valid(c) && x <= y
    ensures Cumulative(c, x) <= Cumulative(c, y)
  {
    var last := |c.values| - 1;
    CumulativeRange(c, x);
    CumulativeRange(c, y);
    if c.values[0] < x && y < c.values[last] {
      CumulativeInside(c, x);
      CumulativeInside(c, y);
      var i, j := Locate(c.values, x).segment, Locate(c.values, y).segment;
      if i == j {
        InterpolateOrder(c.levels[i], c.levels[i + 1], c.values[i], c.values[i + 1], x, y);
      } else if i < j {
        assert i + 1 < j ==> c.levels[i + 1] < c.levels[j];
      }
    }
  }

  /** The first index of the tied block that index `i` belongs to. */
  function FirstOfTie(values: seq<real>, i: nat): (f: nat)
    requires i < |values|
    ensures f <= i && values[f] == values[i]
    ensures f > 0 ==> values[f - 1] != values[i]
  {
    if i > 0 && values[i - 1] == values[i] then FirstOfTie(values, i - 1) else i
  }

  /** At a fitted value below the top, a tied block reads as its lowest level. */
  lemma CumulativeAtFitted(c: Curve, i: nat)
    requires Valid(c) && i < |c.values| && c.values[i] < c.values[|c.values| - 1]
    ensures Cumulative(c, c.values[i]) == c.levels[FirstOfTie(c.values, i)]
  {
    var f := FirstOfTie(c.values, i);
    if f > 0 {
      InOrder(c.values, f - 1, f);
      CumulativeAtFirst(c, f);
    }
  }

  /** From the top value on it is the last level, except on a flat curve at its one value, where the
      bottom branch answers first. */
  lemma PinnedAtTop(c: Curve, x: real)
    requires Valid(c) && x >= c.values[|c.values| - 1]
    ensures Cumulative(c, x) == c.levels[if x == c.values[0] then 0 else |c.levels| - 1]
  {
    InOrder(c.values, 0, |c.values| - 1);
  }

  lemma CumulativeAtFirst(c: Curve, f: nat)
    requires Valid(c) && 0 < f < |c.values|
    requires c.values[f - 1] < c.values[f] < c.values[|c.values| - 1]
    ensures Cumulative(c, c.values[f]) == c.levels[f]
  {
    var x := c.values[f];
    InOrder(c.values, 0, f - 1);
    CumulativeInside(c, x);
    var s := Locate(c.values, x).segment;
    if s + 1 == f {
      InterpolateEnds(c.levels[s], c.levels[s + 1], c.values[s], c.values[s + 1]);
    }
  }

  // ------------------------------------------------------------------
  // The curve read as equal-mass bins
  // ------------------------------------------------------------------

  datatype Bin = Bin(low: real, high: real, mass: real, density: real)

  /** The bin standing on segment `i`: its mass reaches back over any tie at its low end. */
  function BinOn(c: Curve, i: nat): Bin
    requires Valid(c) && i + 1 < |c.values| && c.values[i] < c.values[i + 1]
  {
    var mass := c.levels[i + 1] - c.levels[FirstOfTie(c.values, i)];
    Bin(c.values[i], c.values[i + 1], mass, mass / (c.values[i + 1] - c.values[i]))
  }

  /** One bin for each of the first `n` segments that has width. */
  function SegmentBins(c: Curve, n: nat): seq<Bin>
    requires Valid(c) && n < |c.values|
  {
    if n == 0 then []
    else if c.values[n - 1] < c.values[n] then SegmentBins(c, n - 1) + [BinOn(c, n - 1)]
    else SegmentBins(c, n - 1)
  }

  function MassOf(bins: seq<Bin>): real {
    if bins == [] then 0.0 else MassOf(bins[..|bins| - 1]) + bins[|bins| - 1].mass
  }

  method DensityBins(c: Curve) returns (bins: seq<Bin>)
    requires Valid(c)
    ensures bins == SegmentBins(c, |c.values| - 1)
  {
    bins := [];
    var pendingMass := 0.0;
    var index := 0;
    while index < |c.values| - 1
      invariant 0 <= index < |c.values|
      invariant bins == SegmentBins(c, index)
      invariant pendingMass == c.levels[index] - c.levels[FirstOfTie(c.values, index)]
    {
      var low, high := c.values[index], c.values[index + 1];
      var mass := c.levels[index + 1] - c.levels[index];
      var width := high - low;
      if width <= 0.0 {
        assert c.values[index] <= c.values[index + 1];
        pendingMass := pendingMass + mass;
      } else {
        var total := mass + pendingMass;
        pendingMass := 0.0;
        bins := bins + [Bin(low, high, total, total / width)];
      }
      index := index + 1;
    }
  }

  /** Density times width is the mass of the bin, and every bin has both. */
  lemma BinShape(c: Curve, i: nat)
    requires Valid(c) && i + 1 < |c.values| && c.values[i] < c.values[i + 1]
    ensures var b := BinOn(c, i);
            b.low < b.high && b.mass > 0.0 && b.density * (b.high - b.low) == b.mass
  {
    var f := FirstOfTie(c.values, i);
    assert c.levels[f] < c.levels[i + 1];
    assert f <= i;
    CancelQuotient(BinOn(c, i).mass, c.values[i + 1] - c.values[i]);
  }

  /** The bins tile the fitted range: no gap, no overlap, from the first value to the last;
      only a completely flat curve has none. */
  lemma {:induction false} BinsTile(c: Curve, n: nat)
    requires Valid(c) && n < |c.values|
    ensures var bins := SegmentBins(c, n);
            && (bins == [] <==> c.values[n] == c.values[0])
            && (bins != [] ==> bins[0].low == c.values[0] && bins[|bins| - 1].high == c.values[n])
            && (forall k {:trigger bins[k]} :: 0 <= k < |bins| - 1 ==> bins[k].high == bins[k + 1].low)
  {
    if n == 0 {
    } else {
      BinsTile(c, n - 1);
      InOrder(c.values, n - 1, n);
      InOrder(c.values, 0, n - 1);
      var before, bins := SegmentBins(c, n - 1), SegmentBins(c, n);
      if c.values[n - 1] < c.values[n] {
        assert forall k :: 0 <= k < |before| ==> bins[k] == before[k];
        assert bins[|bins| - 1] == BinOn(c, n - 1);
      }
    }
  }

  /** Together the bins over `n` segments hold the mass up to the tied block ending there. */
  lemma {:induction false} BinsHoldMass(c: Curve, n: nat)
    requires Valid(c) && n < |c.values|
    ensures MassOf(SegmentBins(c, n)) == c.levels[FirstOfTie(c.values, n)] - c.levels[0]
  {
    if n == 0 {
    } else {
      BinsHoldMass(c, n - 1);
      assert c.values[n - 1] <= c.values[n];
      if c.values[n - 1] < c.values[n] {
        var bins := SegmentBins(c, n);
        assert bins[..|bins| - 1] == SegmentBins(c, n - 1);
      }
    }
  }

  /** The first `k` bins are the bins of an initial run of segments ending with bin `k`. */
  lemma {:induction false} BinsUpTo(c: Curve, n: nat, k: nat) returns (m: nat)
    requires Valid(c) && n < |c.values| && k < |SegmentBins(c, n)|
    ensures 0 < m <= n && c.values[m - 1] < c.values[m]
    ensures SegmentBins(c, n)[..k + 1] == SegmentBins(c, m) && SegmentBins(c, n)[k] == BinOn(c, m - 1)
  {
    if k < |SegmentBins(c, n - 1)| {
      m := BinsUpTo(c, n - 1, k);
      SameFirstBins(c, n, k);
    } else {
      m := n;
      LastBin(c, n, k);
    }
  }

  lemma LastBin(c: Curve, n: nat, k: nat)
    requires Valid(c) && 0 < n < |c.values| && |SegmentBins(c, n - 1)| <= k < |SegmentBins(c, n)|
    ensures c.values[n - 1] < c.values[n] && SegmentBins(c, n)[k] == BinOn(c, n - 1)
    ensures SegmentBins(c, n)[..k + 1] == SegmentBins(c, n)
  {}

  lemma SameFirstBins(c: Curve, n: nat, k: nat)
    requires Valid(c) && 0 < n < |c.values| && k < |SegmentBins(c, n - 1)|
    ensures k < |SegmentBins(c, n)| && SegmentBins(c, n)[k] == SegmentBins(c, n - 1)[k]
    ensures SegmentBins(c, n)[..k + 1] == SegmentBins(c, n - 1)[..k + 1]
  {}

  /** Adding up the bins to any upper edge gives the cumulative function there less the first
      level, and each single bin the rise across it; except at the very top, where mass tied
      at the top value is missing. */
  lemma BinsAddUpToCumulative(c: Curve, k: nat)
    requires Valid(c) && k < |SegmentBins(c, |c.values| - 1)|
    ensures var bins := SegmentBins(c, |c.values| - 1);
            var top := c.values[|c.values| - 1];
            && (bins[k].high < top ==>
                  && MassOf(bins[..k + 1]) == Cumulative(c, bins[k].high) - c.levels[0]
                  && bins[k].mass == Cumulative(c, bins[k].high) - Cumulative(c, bins[k].low))
            && (bins[k].high == top ==>
                  MassOf(bins[..k + 1]) == c.levels[FirstOfTie(c.values, |c.values| - 1)] - c.levels[0])
  {
    var last := |c.values| - 1;
    var m := BinsUpTo(c, last, k);
    BinsHoldMass(c, m);
    if c.values[m] == c.values[last] {
      SameTie(c.values, m, last);
    } else {
      InOrder(c.values, m, last);
      CumulativeAtFitted(c, m);
      CumulativeAtFitted(c, m - 1);
    }
  }

  lemma {:induction false} SameTie(values: seq<real>, i: nat, j: nat)
    requires Ascending(values) && i <= j < |values| && values[i] == values[j]
    ensures FirstOfTie(values, i) == FirstOfTie(values, j)
  {
    if i < j {
      InOrder(values, i, j - 1);
      InOrder(values, j - 1, j);
      SameTie(values, i, j - 1);
    }
  }

  /** All the bins together hold the whole fitted mass exactly when the top value is not tied:
      mass tied at the very top is folded into no bin. */
  lemma BinsHoldAllMass(c: Curve)
    requires Valid(c)
    ensures MassOf(SegmentBins(c, |c.values| - 1)) <= c.levels[|c.levels| - 1] - c.levels[0]
    ensures MassOf(SegmentBins(c, |c.values| - 1)) == c.levels[|c.levels| - 1] - c.levels[0]
            <==> c.values[|c.values| - 2] < c.values[|c.values| - 1]
  {
    var last := |c.values| - 1;
    var f := FirstOfTie(c.values, last);
    BinsHoldMass(c, last);
    assert c.values[last - 1] <= c.values[last];
    if f < last {
      assert c.levels[f] < c.levels[last];
    }
  }

  /** A curve whose two highest levels share a value: half the fitted mass is in no bin. */
  lemma TopTieLosesMass(c: Curve)
    requires c == Curve([0.25, 0.5, 0.75], [0.0, 0.02, 0.02])
    ensures Valid(c) && MassOf(SegmentBins(c, 2)) == 0.25 && c.levels[2] - c.levels[0] == 0.5
  {
    assert Valid(c);
    assert FirstOfTie(c.values, 1) == 1;
    assert FirstOfTie(c.values, 2) == 1;
    BinsHoldMass(c, 2);
  }

  /** The line over segment `i`, which the cumulative function follows there (InsideSegment). */
  function Line(c: Curve, i: nat, x: real): real
    requires Valid(c) && i + 1 < |c.values| && c.values[i] < c.values[i + 1]
  {
    Interpolate(c.levels[i], c.levels[i + 1], c.values[i], c.values[i + 1], x)
  }

  function Slope(c: Curve, i: nat): real
    requires Valid(c) && i + 1 < |c.values| && c.values[i] < c.values[i + 1]
  {
    (c.levels[i + 1] - c.levels[i]) / (c.values[i + 1] - c.values[i])
  }

  lemma LineRise(c: Curve, i: nat, x: real, step: real)
    requires Valid(c) && i + 1 < |c.values| && c.values[i] < c.values[i + 1]
    ensures Line(c, i, x + step) - Line(c, i, x) == Slope(c, i) * step
  {
    InterpolateRise(c.levels[i], c.levels[i + 1], c.values[i], c.values[i + 1], x, x + step);
  }

  lemma DensityEqualsSlope(c: Curve, i: nat)
    requires Valid(c) && i + 1 < |c.values| && c.values[i] < c.values[i + 1]
    ensures BinOn(c, i).density == Slope(c, i) <==> FirstOfTie(c.values, i) == i
  {
    BinShape(c, i);
    var f, w := FirstOfTie(c.values, i), c.values[i + 1] - c.values[i];
    var rise := c.levels[i + 1] - c.levels[i];
    CancelQuotient(rise, w);
    if f == i {
      CancelFactor(BinOn(c, i).density, Slope(c, i), w);
    } else {
      assert c.levels[f] < c.levels[i];
      DivideOrder(rise, c.levels[i + 1] - c.levels[f], w);
    }
  }

  lemma SameSlope(rise: real, slope: real, density: real, step: real)
    requires step > 0.0 && rise == slope * step
    ensures rise == density * step <==> density == slope
  {
    if rise == density * step {
      CancelFactor(density, slope, step);
    }
  }

  lemma InterpolateRise(l0: real, l1: real, x0: real, x1: real, x: real, y: real)
    requires x0 != x1
    ensures Interpolate(l0, l1, x0, x1, y) - Interpolate(l0, l1, x0, x1, x) == (l1 - l0) / (x1 - x0) * (y - x)
  {
    var w, m := x1 - x0, l1 - l0;
    QuotientTimes(x - x0, w, m);
    QuotientTimes(y - x0, w, m);
    assert m / w * (y - x0) - m / w * (x - x0) == m / w * (y - x);
  }

  lemma LineSlope(c: Curve, i: nat, x: real, step: real)
    requires Valid(c) && i + 1 < |c.values| && c.values[i] < c.values[i + 1] && step > 0.0
    ensures Line(c, i, x + step) - Line(c, i, x) == BinOn(c, i).density * step <==> FirstOfTie(c.values, i) == i
  {
    LineRise(c, i, x, step);
    DensityEqualsSlope(c, i);
    SameSlope(Line(c, i, x + step) - Line(c, i, x), Slope(c, i), BinOn(c, i).density, step);
  }

  /** Inside segment `i` the cumulative function rises by density times step exactly when no mass is
      tied at the low end of the segment's bin. */
  lemma DensityIsSlope(c: Curve, i: nat, x: real, step: real)
    requires Valid(c) && i + 1 < |c.values| && step > 0.0
    requires c.values[i] < x && x + step < c.values[i + 1]
    ensures Cumulative(c, x + step) - Cumulative(c, x) == BinOn(c, i).density * step <==> FirstOfTie(c.values, i) == i
  {
    InsideSegment(c, i, x);
    InsideSegment(c, i, x + step);
    LineSlope(c, i, x, step);
  }

  /** Between two fitted values the level is divided as the value is. */
  lemma LinearInside(c: Curve, i: nat, x: real)
    requires Valid(c) && i + 1 < |c.values| && c.values[i] < x < c.values[i + 1]
    ensures (Cumulative(c, x) - c.levels[i]) * (c.values[i + 1] - c.values[i])
         == (x - c.values[i]) * (c.levels[i + 1] - c.levels[i])
  {
    InsideSegment(c, i, x);
    Divided(c.levels[i], c.levels[i + 1], c.values[i], c.values[i + 1], x);
  }

  lemma Divided(l0: real, l1: real, x0: real, x1: real, x: real)
    requires x0 != x1
    ensures (Interpolate(l0, l1, x0, x1, x) - l0) * (x1 - x0) == (x - x0) * (l1 - l0)
  {
    var share, d := (x - x0) / (x1 - x0), l1 - l0;
    CancelQuotient(x - x0, x1 - x0);
    assert share * d * (x1 - x0) == share * (x1 - x0) * d;
  }

  lemma InsideSegment(c: Curve, i: nat, x: real)
    requires Valid(c) && i + 1 < |c.values| && c.values[i] < x < c.values[i + 1]
    ensures Cumulative(c, x) == Line(c, i, x)
  {
    var last := |c.values| - 1;
    InOrder(c.values, 0, i);
    InOrder(c.values, i + 1, last);
    CumulativeInside(c, x);
    var s := Locate(c.values, x).segment;
    assert s + 1 <= i || i + 1 <= s || s == i;
  }

  // ------------------------------------------------------------------
  // The curve read as equal-width columns
  // ------------------------------------------------------------------

  function Edge(low: real, high: real, columns: nat, index: nat): real
    requires columns > 0
  {
    low + (high - low) * index as real / columns as real
  }

  function Edges(low: real, high: real, columns: nat): seq<real>
    requires columns > 0
  {
    seq(columns + 1, index requires 0 <= index => Edge(low, high, columns, index))
  }

  function CumulativeAt(c: Curve, edges: seq<real>): seq<real>
    requires Valid(c)
  {
    seq(|edges|, k requires 0 <= k < |edges| => Cumulative(c, edges[k]))
  }

  function AtLeastZero(x: real): real { if x < 0.0 then 0.0 else x }

  /** The clamped rise from each entry to the next. */
  function Rises(cumulative: seq<real>): seq<real>
    requires |cumulative| > 0
  {
    seq(|cumulative| - 1, k requires 0 <= k < |cumulative| - 1 => AtLeastZero(cumulative[k + 1] - cumulative[k]))
  }

  function Profile(c: Curve, low: real, high: real, columns: nat): seq<real>
    requires Valid(c) && columns > 0
  {
    Rises(CumulativeAt(c, Edges(low, high, columns)))
  }

  function DensityProfile(c: Curve, low: real, high: real, columns: int): Result<seq<real>>
    requires Valid(c)
  {
    if columns < 1 then Err("columns must be positive")
    else if high <= low then Err("high must exceed low")
    else Ok(Profile(c, low, high, columns))
  }

  /** The sum of the entries from `a` up to but not including `b`. */
  function Sum(s: seq<real>, a: nat, b: nat): real
    requires a <= b <= |s|
  {
    if a == b then 0.0 else Sum(s, a, b - 1) + s[b - 1]
  }

  /** Any run of adjacent columns adds up to the rise between its outer edges. */
  lemma {:induction false} RisesTelescope(cumulative: seq<real>, a: nat, b: nat)
    requires a <= b < |cumulative| && Ascending(cumulative)
    ensures Sum(Rises(cumulative), a, b) == cumulative[b] - cumulative[a]
    decreases b
  {
    if a < b {
      RisesTelescope(cumulative, a, b - 1);
      RiseEntry(cumulative, b - 1);
    }
  }

  lemma RiseEntry(cumulative: seq<real>, k: nat)
    requires k + 1 < |cumulative| && Ascending(cumulative)
    ensures Rises(cumulative)[k] == cumulative[k + 1] - cumulative[k]
  {
    InOrder(cumulative, k, k + 1);
  }

  lemma EdgeOrder(low: real, high: real, columns: nat, i: nat, j: nat)
    requires low < high && columns > 0 && i <= j
    ensures Edge(low, high, columns, i) <= Edge(low, high, columns, j)
  {
    ScaleOrder(i as real, j as real, high - low);
    DivideOrder((high - low) * i as real, (high - low) * j as real, columns as real);
  }

  lemma EdgeEnds(low: real, high: real, columns: nat)
    requires columns > 0
    ensures Edge(low, high, columns, 0) == low && Edge(low, high, columns, columns) == high
  {
    ScaledQuotient(high - low, columns as real);
    DivideSelf(columns as real);
  }

  lemma ProfileAscends(c: Curve, low: real, high: real, columns: nat)
    requires Valid(c) && low < high && columns > 0
    ensures Ascending(CumulativeAt(c, Edges(low, high, columns)))
  {
    forall i, j | 0 <= i < j < columns + 1
      ensures Cumulative(c, Edge(low, high, columns, i)) <= Cumulative(c, Edge(low, high, columns, j))
    {
      EdgeOrder(low, high, columns, i, j);
      CumulativeMonotone(c, Edge(low, high, columns, i), Edge(low, high, columns, j));
    }
  }

  /** For any axis and column count the columns add up to the cumulative rise over the axis. */
  lemma ProfileSum(c: Curve, low: real, high: real, columns: nat)
    requires Valid(c) && low < high && columns > 0
    ensures |Profile(c, low, high, columns)| == columns
    ensures Sum(Profile(c, low, high, columns), 0, columns) == Cumulative(c, high) - Cumulative(c, low)
  {
    ProfileRun(c, low, high, columns, 0, columns);
    EdgeEnds(low, high, columns);
  }

  /** The clamp at zero never alters a column. */
  lemma ProfileColumn(c: Curve, low: real, high: real, columns: nat, k: nat)
    requires Valid(c) && low < high && k < columns
    ensures Profile(c, low, high, columns)[k]
         == Cumulative(c, Edge(low, high, columns, k + 1)) - Cumulative(c, Edge(low, high, columns, k))
  {
    var cumulative := CumulativeAt(c, Edges(low, high, columns));
    ProfileAscends(c, low, high, columns);
    RiseEntry(cumulative, k);
  }

  lemma EdgeRefines(low: real, high: real, columns: nat, parts: nat, index: nat)
    requires columns > 0 && parts > 0
    ensures columns * parts > 0
    ensures Edge(low, high, columns * parts, index * parts) == Edge(low, high, columns, index)
  {
    var a, m, n := (high - low) * index as real, parts as real, columns as real;
    MulPositive(columns, parts);
    assert (columns * parts) as real == n * m;
    assert (high - low) * (index * parts) as real == a * m;
    CommonFactor(a, m, n);
  }

  /** Dividing every column into `parts` splits it into that many which add up to it. */
  lemma ProfileRefines(c: Curve, low: real, high: real, columns: nat, parts: nat, k: nat)
    requires Valid(c) && low < high && k < columns && parts > 0
    ensures columns * parts > 0 && k * parts <= (k + 1) * parts <= columns * parts
    ensures |Profile(c, low, high, columns * parts)| == columns * parts
    ensures Sum(Profile(c, low, high, columns * parts), k * parts, (k + 1) * parts) == Profile(c, low, high, columns)[k]
  {
    MulPositive(columns, parts);
    MulOrder(k + 1, columns, parts);
    MulOrder(k, k + 1, parts);
    EdgeRefines(low, high, columns, parts, k);
    EdgeRefines(low, high, columns, parts, k + 1);
    SameEdges(c, low, high, columns, k, columns * parts, k * parts, (k + 1) * parts);
  }

  lemma SameEdges(c: Curve, low: real, high: real, columns: nat, k: nat, n: nat, a: nat, b: nat)
    requires Valid(c) && low < high && k < columns && 0 < n && a <= b <= n
    requires Edge(low, high, n, a) == Edge(low, high, columns, k)
    requires Edge(low, high, n, b) == Edge(low, high, columns, k + 1)
    ensures |Profile(c, low, high, n)| == n
    ensures Sum(Profile(c, low, high, n), a, b) == Profile(c, low, high, columns)[k]
  {
    ProfileColumn(c, low, high, columns, k);
    ProfileRun(c, low, high, n, a, b);
  }

  lemma ProfileRun(c: Curve, low: real, high: real, columns: nat, a: nat, b: nat)
    requires Valid(c) && low < high && 0 < columns && a <= b <= columns
    ensures |Profile(c, low, high, columns)| == columns
    ensures Sum(Profile(c, low, high, columns), a, b)
         == Cumulative(c, Edge(low, high, columns, b)) - Cumulative(c, Edge(low, high, columns, a))
  {
    var cumulative := CumulativeAt(c, Edges(low, high, columns));
    ProfileAscends(c, low, high, columns);
    RisesTelescope(cumulative, a, b);
  }
}
