/** The dashboard's own readings of a stored curve: its cumulative function
    (dashboard/presenters.py), its inverse and its density columns (dashboard/arm_density.py).
    Each is tied to the model layer's curve. */
module DashboardCurve {
  import opened Arithmetic
  import opened Distribution
  import opened Wrappers

  /** A stored point: level, then value. */
  type Point = (real, real)

  function Pairs(c: Curve): seq<Point>
    requires Valid(c)
  {
    seq(|c.levels|, i requires 0 <= i < |c.levels| => (c.levels[i], c.values[i]))
  }

  // -------- the stored cumulative function --------

  function ScanByValue(points: seq<Point>, x: real, i: nat): real
    requires i < |points|
    decreases |points| - i
  {
    if i == |points| - 1 then 0.5
    else
      var (p0, x0), (p1, x1) := points[i], points[i + 1];
      if x0 <= x <= x1 then
        if x1 == x0 then p0 else p0 + (x - x0) / (x1 - x0) * (p1 - p0)
      else ScanByValue(points, x, i + 1)
  }

  function StoredCumulative(points: seq<Point>, x: real): real
    requires |points| > 0
  {
    if x <= points[0].1 then points[0].0
    else if x >= points[|points| - 1].1 then points[|points| - 1].0
    else ScanByValue(points, x, 0)
  }

  lemma {:induction false} ScanIsSearch(c: Curve, x: real, i: nat)
    requires Valid(c) && i < |c.values| && c.values[i] < x < c.values[|c.values| - 1]
    ensures var r := Search(c.values, x, i);
            r.Inside? && c.values[r.segment] < c.values[r.segment + 1]
            && ScanByValue(Pairs(c), x, i) == Line(c, r.segment, x)
    decreases |c.values| - i
  {
    SearchFinds(c.values, x, i);
    if x > c.values[i + 1] {
      ScanIsSearch(c, x, i + 1);
    }
  }

  /** The dashboard's cumulative function is the model layer's, at every threshold. */
  lemma StoredCumulativeAgrees(c: Curve, x: real)
    requires Valid(c)
    ensures StoredCumulative(Pairs(c), x) == Cumulative(c, x)
  {
    if c.values[0] < x < c.values[|c.values| - 1] {
      ScanIsSearch(c, x, 0);
    }
  }

  // -------- density columns --------

  /** `density_frame`: the mass column, or none for an impossible axis. */
  function DensityFrame(points: seq<Point>, low: real, high: real, columns: int): Option<seq<real>>
    requires |points| > 0
  {
    if columns < 1 || high <= low then None
    else
      var step := (high - low) / columns as real;
      Some(seq(columns, k requires 0 <= k => Column(points, StepEdge(low, step, k), StepEdge(low, step, k + 1))))
  }

  function StepEdge(low: real, step: real, index: nat): real {
    low + step * index as real
  }

  function Column(points: seq<Point>, left: real, right: real): real
    requires |points| > 0
  {
    AtLeastZero(StoredCumulative(points, right) - StoredCumulative(points, left))
  }

  lemma SameEdge(low: real, high: real, columns: nat, k: nat)
    requires columns > 0
    ensures StepEdge(low, (high - low) / columns as real, k) == Edge(low, high, columns, k)
  {
    var a, n, m := high - low, columns as real, k as real;
    var p, q := a / n * m, a * m / n;
    CancelQuotient(a, n);
    CancelQuotient(a * m, n);
    assert p * n == a / n * n * m == a * m;
    CancelFactor(p, q, n);
  }

  /** On the same curve and axis both layers compute the same columns, and reject the same
      axes. */
  lemma FrameIsProfile(c: Curve, low: real, high: real, columns: int)
    requires Valid(c)
    ensures DensityFrame(Pairs(c), low, high, columns).Some? <==> DensityProfile(c, low, high, columns).Ok?
    ensures columns >= 1 && low < high ==>
              DensityFrame(Pairs(c), low, high, columns) == Some(DensityProfile(c, low, high, columns).value)
  {
    if columns >= 1 && low < high {
      var frame, profile := DensityFrame(Pairs(c), low, high, columns).value, Profile(c, low, high, columns);
      forall k | 0 <= k < columns
        ensures frame[k] == profile[k]
      {
        FrameColumn(c, low, high, columns, k);
      }
      assert frame == profile;
    }
  }

  lemma FrameColumn(c: Curve, low: real, high: real, columns: nat, k: nat)
    requires Valid(c) && low < high && k < columns
    ensures DensityFrame(Pairs(c), low, high, columns).value[k] == Profile(c, low, high, columns)[k]
  {
    SameEdge(low, high, columns, k);
    SameEdge(low, high, columns, k + 1);
    SameColumn(c, Edge(low, high, columns, k), Edge(low, high, columns, k + 1));
    ProfileEntry(c, low, high, columns, k);
  }

  lemma SameColumn(c: Curve, left: real, right: real)
    requires Valid(c)
    ensures Column(Pairs(c), left, right) == AtLeastZero(Cumulative(c, right) - Cumulative(c, left))
  {
    StoredCumulativeAgrees(c, left);
    StoredCumulativeAgrees(c, right);
  }

  lemma ProfileEntry(c: Curve, low: real, high: real, columns: nat, k: nat)
    requires Valid(c) && k < columns
    ensures Profile(c, low, high, columns)[k]
         == AtLeastZero(Cumulative(c, Edge(low, high, columns, k + 1)) - Cumulative(c, Edge(low, high, columns, k)))
  {}

  // -------- the inverse --------

  const TOLERANCE := 0.000000001

  predicate Close(a: real, b: real) {
    -TOLERANCE < a - b < TOLERANCE
  }

  /** The first fitted level within the tolerance of the one asked for. */
  function NearLevel(points: seq<Point>, level: real, i: nat := 0): (r: Option<nat>)
    requires i <= |points|
    ensures r.Some? ==> i <= r.value < |points| && Close(points[r.value].0, level)
    ensures forall j :: i <= j < (if r.Some? then r.value else |points|) ==> !Close(points[j].0, level)
    decreases |points| - i
  {
    if i == |points| then None
    else if Close(points[i].0, level) then Some(i)
    else NearLevel(points, level, i + 1)
  }

  function ScanByLevel(points: seq<Point>, level: real, i: nat): Option<real>
    requires i < |points|
    decreases |points| - i
  {
    if i == |points| - 1 then None
    else
      var (l0, v0), (l1, v1) := points[i], points[i + 1];
      if l0 <= level <= l1 then
        if l1 == l0 then Some(v0) else Some(v0 + (level - l0) / (l1 - l0) * (v1 - v0))
      else ScanByLevel(points, level, i + 1)
  }

  function QuantileAt(points: seq<Point>, level: real): Option<real> {
    if points == [] then None
    else match NearLevel(points, level)
      case Some(i) => Some(points[i].1)
      case None =>
        if level <= points[0].0 then Some(points[0].1)
        else if level >= points[|points| - 1].0 then Some(points[|points| - 1].1)
        else ScanByLevel(points, level, 0)
  }

  /** The value on the line over segment `i` at which it reaches `level`. */
  function InverseLine(c: Curve, i: nat, level: real): real
    requires Valid(c) && i + 1 < |c.values|
  {
    Interpolate(c.values[i], c.values[i + 1], c.levels[i], c.levels[i + 1], level)
  }

  lemma {:induction false} ScanByLevelFinds(c: Curve, level: real, i: nat) returns (s: nat)
    requires Valid(c) && i < |c.levels| && c.levels[i] < level < c.levels[|c.levels| - 1]
    ensures s + 1 < |c.levels| && c.levels[s] < level <= c.levels[s + 1]
    ensures ScanByLevel(Pairs(c), level, i).Some?
    ensures ScanByLevel(Pairs(c), level, i).value == InverseLine(c, s, level)
    decreases |c.levels| - i
  {
    if level > c.levels[i + 1] {
      s := ScanByLevelFinds(c, level, i + 1);
    } else {
      s := i;
      ScanByLevelHere(c, level, i);
    }
  }

  lemma ScanByLevelHere(c: Curve, level: real, i: nat)
    requires Valid(c) && i + 1 < |c.levels| && c.levels[i] < level <= c.levels[i + 1]
    ensures ScanByLevel(Pairs(c), level, i).Some?
    ensures ScanByLevel(Pairs(c), level, i).value == InverseLine(c, i, level)
  {
    var points := Pairs(c);
    assert points[i] == (c.levels[i], c.values[i]) && points[i + 1] == (c.levels[i + 1], c.values[i + 1]);
  }

  /** A strictly rising curve reads a fitted value back as its level. */
  lemma ReadsFittedBack(c: Curve, i: nat)
    requires Valid(c) && StrictlyAscending(c.values) && i < |c.values|
    ensures StoredCumulative(Pairs(c), c.values[i]) == c.levels[i]
  {
    StoredCumulativeAgrees(c, c.values[i]);
    if i == |c.values| - 1 {
      PinnedAtTop(c, c.values[i]);
    } else {
      CumulativeAtFitted(c, i);
      assert FirstOfTie(c.values, i) == i;
    }
  }

  /** Between two fitted levels, reading the curve at the interpolated value gives the level. */
  lemma ReadsInverseBack(c: Curve, s: nat, level: real)
    requires Valid(c) && StrictlyAscending(c.values) && s + 1 < |c.levels|
    requires c.levels[s] < level < c.levels[s + 1]
    ensures c.values[s] < InverseLine(c, s, level) < c.values[s + 1]
    ensures StoredCumulative(Pairs(c), InverseLine(c, s, level)) == level
  {
    var x := InverseLine(c, s, level);
    InterpolateWithin(c.values[s], c.values[s + 1], c.levels[s], c.levels[s + 1], level);
    StoredCumulativeAgrees(c, x);
    InsideSegment(c, s, x);
    InterpolateInverse(c.levels[s], c.levels[s + 1], c.values[s], c.values[s + 1], level);
  }

  ghost predicate Within(c: Curve, level: real, i: nat) {
    i < |c.levels| && level - 0.000000001 < c.levels[i] < level + 0.000000001
  }

  /** On any curve, tied values or not: the value at the first level within the tolerance; without one the
      end value beyond either end, and between two levels the value divided as the level is. */
  lemma QuantileExactly(c: Curve, level: real) returns (s: nat)
    requires Valid(c)
    ensures QuantileAt(Pairs(c), level).Some? && s < |c.levels|
    ensures var q := QuantileAt(Pairs(c), level).value;
            || (q == c.values[s] && Within(c, level, s) && forall j: nat :: j < s ==> !Within(c, level, j))
            || ((forall j: nat :: j < |c.levels| ==> !Within(c, level, j)) && Divides(c, level, s, q))
  {
    var points, near := Pairs(c), NearLevel(Pairs(c), level);
    assert forall j: nat :: j < |c.levels| ==> points[j].0 == c.levels[j];
    if near.Some? {
      s := near.value;
      assert forall j: nat :: j < s ==> !Close(points[j].0, level);
    } else {
      assert forall j: nat :: j < |c.levels| ==> !Close(points[j].0, level) && points[j].0 != level;
      s := DividesHere(c, level);
    }
  }

  /** `q` is an end value, beyond that end, or divides segment `s` as the level does. */
  ghost predicate Divides(c: Curve, level: real, s: nat, q: real)
    requires Valid(c) && s < |c.levels|
  {
    if level < c.levels[0] then q == c.values[0]
    else if level > c.levels[|c.levels| - 1] then q == c.values[|c.levels| - 1]
    else
      && s + 1 < |c.levels| && c.levels[s] < level < c.levels[s + 1]
      && (q - c.values[s]) * (c.levels[s + 1] - c.levels[s]) == (level - c.levels[s]) * (c.values[s + 1] - c.values[s])
  }

  lemma DividesHere(c: Curve, level: real) returns (s: nat)
    requires Valid(c) && NearLevel(Pairs(c), level).None?
    requires forall j: nat :: j < |c.levels| ==> c.levels[j] != level
    ensures QuantileAt(Pairs(c), level).Some? && s < |c.levels|
    ensures Divides(c, level, s, QuantileAt(Pairs(c), level).value)
  {
    s := 0;
    if c.levels[0] < level < c.levels[|c.levels| - 1] {
      s := ScanByLevelFinds(c, level, 0);
      DividesSegment(c, level, s, ScanByLevel(Pairs(c), level, 0).value);
    }
  }

  lemma DividesSegment(c: Curve, level: real, s: nat, q: real)
    requires Valid(c) && s + 1 < |c.levels| && q == InverseLine(c, s, level) && c.levels[s] < level < c.levels[s + 1]
    ensures Divides(c, level, s, q)
  {
    Divided(c.values[s], c.values[s + 1], c.levels[s], c.levels[s + 1], level);
  }

  /** No fitted level lies just below the one asked for, and none just above it unless it is fitted
      itself: the search for a level within the tolerance cannot stop at another one. */
  ghost predicate Unmistakable(c: Curve, level: real) {
    && (forall j :: 0 <= j < |c.levels| ==> !(level - TOLERANCE < c.levels[j] < level))
    && (level in c.levels || forall j :: 0 <= j < |c.levels| ==> !(level < c.levels[j] < level + TOLERANCE))
  }

  lemma NearIsItself(c: Curve, level: real)
    requires Valid(c)
    ensures var near := NearLevel(Pairs(c), level);
            near.None? || c.levels[near.value] == level <==> Unmistakable(c, level)
  {
    var points, near := Pairs(c), NearLevel(Pairs(c), level);
    assert forall j :: 0 <= j < |c.levels| ==> points[j].0 == c.levels[j];
    forall j | 0 <= j < |c.levels| && c.levels[j] == level
      ensures near.Some? && near.value <= j
    {
      assert Close(points[j].0, level);
    }
  }

  /** Reading the curve at `quantile_at(level)` gives the level back to within the tolerance
      everywhere in the fitted range, and exactly that level if and only if it cannot be mistaken
      for another fitted one. */
  lemma QuantileRoundTrip(c: Curve, level: real)
    requires Valid(c) && StrictlyAscending(c.values)
    requires c.levels[0] <= level <= c.levels[|c.levels| - 1]
    ensures QuantileAt(Pairs(c), level).Some?
    ensures var back := StoredCumulative(Pairs(c), QuantileAt(Pairs(c), level).value);
            Close(back, level) && (back == level <==> Unmistakable(c, level))
  {
    NearIsItself(c, level);
    var near := NearLevel(Pairs(c), level);
    if near.Some? {
      ReadsFittedBack(c, near.value);
    } else {
      assert Pairs(c)[0].0 != level && Pairs(c)[|c.levels| - 1].0 != level;
      var s := ScanByLevelFinds(c, level, 0);
      assert Pairs(c)[s + 1].0 != level;
      ReadsInverseBack(c, s, level);
    }
  }

  /** Below the fitted range the quantile is the first value, above it the last one exactly when no
      earlier level comes within the tolerance; there the cumulative function is pinned too. */
  lemma QuantilePinned(c: Curve, level: real)
    requires Valid(c) && StrictlyAscending(c.values)
    ensures level < c.levels[0] ==>
              QuantileAt(Pairs(c), level) == Some(c.values[0]) && StoredCumulative(Pairs(c), c.values[0]) == c.levels[0]
    ensures var last := |c.levels| - 1;
            level > c.levels[last] ==>
              && (QuantileAt(Pairs(c), level) == Some(c.values[last])
                  <==> forall j :: 0 <= j < last ==> c.levels[j] + TOLERANCE <= level)
              && StoredCumulative(Pairs(c), c.values[last]) == c.levels[last]
  {
    var last, near := |c.levels| - 1, NearLevel(Pairs(c), level);
    ReadsFittedBack(c, 0);
    ReadsFittedBack(c, last);
    assert forall j :: 0 <= j <= last ==> Pairs(c)[j].0 == c.levels[j];
    if level > c.levels[last] && near.Some? && near.value < last {
      assert c.levels[near.value] + TOLERANCE > level;
    }
  }

  /** The other way round: the quantile at the level read for a value is that value, exactly when the
      level cannot be mistaken for another fitted one. */
  lemma CumulativeRoundTrip(c: Curve, x: real)
    requires Valid(c) && StrictlyAscending(c.values)
    requires c.values[0] <= x <= c.values[|c.values| - 1]
    ensures QuantileAt(Pairs(c), Cumulative(c, x)) == Some(x) <==> Unmistakable(c, Cumulative(c, x))
  {
    var level := Cumulative(c, x);
    CumulativeRange(c, x);
    QuantileRoundTrip(c, level);
    var y := QuantileAt(Pairs(c), level).value;
    QuantileWithin(c, level);
    StoredCumulativeAgrees(c, y);
    StrictlyRises(c, x, y);
    StrictlyRises(c, y, x);
  }

  lemma QuantileWithin(c: Curve, level: real)
    requires Valid(c) && StrictlyAscending(c.values)
    requires c.levels[0] <= level <= c.levels[|c.levels| - 1]
    ensures QuantileAt(Pairs(c), level).Some?
    ensures c.values[0] <= QuantileAt(Pairs(c), level).value <= c.values[|c.values| - 1]
  {
    var near := NearLevel(Pairs(c), level);
    if near.Some? {
      InOrder(c.values, 0, near.value);
      InOrder(c.values, near.value, |c.values| - 1);
    } else {
      assert Pairs(c)[0].0 != level && Pairs(c)[|c.levels| - 1].0 != level;
      var s := ScanByLevelFinds(c, level, 0);
      assert Pairs(c)[s + 1].0 != level;
      ReadsInverseBack(c, s, level);
      InOrder(c.values, 0, s);
      InOrder(c.values, s + 1, |c.values| - 1);
    }
  }

  /** On a strictly rising curve the cumulative function is strictly increasing over the
      fitted range. */
  lemma StrictlyRises(c: Curve, x: real, y: real)
    requires Valid(c) && StrictlyAscending(c.values)
    requires c.values[0] <= x <= c.values[|c.values| - 1] && c.values[0] <= y <= c.values[|c.values| - 1]
    ensures x < y ==> Cumulative(c, x) < Cumulative(c, y)
  {
    var last := |c.values| - 1;
    if x < y {
      if y == c.values[last] {
        PinnedAtTop(c, y);
        BelowTop(c, x);
      } else {
        CumulativeInside(c, y);
        var j := Locate(c.values, y).segment;
        if x == c.values[0] {
          assert j > 0 ==> c.levels[0] < c.levels[j];
        } else {
          CumulativeInside(c, x);
          var i := Locate(c.values, x).segment;
          if i == j {
            InterpolateOrder(c.levels[i], c.levels[i + 1], c.values[i], c.values[i + 1], x, y);
          } else if i < j {
            assert i + 1 < j ==> c.levels[i + 1] < c.levels[j];
          }
        }
      }
    }
  }

  lemma BelowTop(c: Curve, x: real)
    requires Valid(c) && StrictlyAscending(c.values)
    requires c.values[0] <= x < c.values[|c.values| - 1]
    ensures Cumulative(c, x) < c.levels[|c.levels| - 1]
  {
    var last := |c.values| - 1;
    if x > c.values[0] {
      CumulativeInside(c, x);
      var i := Locate(c.values, x).segment;
      if i + 1 < last {
        assert c.levels[i + 1] < c.levels[last];
      } else {
        InterpolateWithin(c.levels[i], c.levels[i + 1], c.values[i], c.values[i + 1], x);
      }
    }
  }
}
