/** The Benjamini-Hochberg correction over all tickers (dashboard/significance.py): the reverse
    sweep over sorted p-values, against a definition that never mentions a sort. */
module FalseDiscovery {
  import opened Arithmetic
  import opened Ordering

  type Probability = x: real | 0.0 <= x <= 1.0 witness 0.0

  /** `p * m / rank`: a p-value scaled by how many tests there are at or below its rank. */
  function Ratio(x: real, m: nat, rank: nat): real
    requires rank > 0
  {
    x * m as real / rank as real
  }

  lemma RatioOfAll(x: real, m: nat)
    requires m > 0
    ensures Ratio(x, m, m) == x
  {
    var y := m as real;
    assert x * y / y == x;
  }

  lemma RatioFalls(x: real, m: nat, a: nat, b: nat)
    requires x >= 0.0 && 0 < a <= b
    ensures Ratio(x, m, b) <= Ratio(x, m, a)
  {
    DivideByMore(x * m as real, a, b);
  }

  lemma DivideByMore(x: real, a: nat, b: nat)
    requires x >= 0.0 && 0 < a <= b
    ensures x / b as real <= x / a as real
  {
    var r := x / b as real;
    assert r * a as real <= r * b as real == x;
  }

  /** The ratio of `p_j` at the last rank the value `p_j` can have. */
  ghost function Scaled(p: seq<real>, j: nat): real
    requires j < |p|
  {
    AtMostHas(p, j);
    Ratio(p[j], |p|, |AtMost(p, p[j])|)
  }

  lemma AtMostHas(p: seq<real>, j: nat)
    requires j < |p|
    ensures |AtMost(p, p[j])| > 0
  {
    assert j in AtMost(p, p[j]);
  }

  /** `q` is the adjusted value for a p-value of `v`: the least scaled p-value among those at
      least `v`, capped at one.  Neither positions nor a sort order occur here. */
  ghost predicate IsAdjusted(p: seq<real>, v: real, q: real) {
    && q <= 1.0
    && (forall j: nat :: j < |p| && v <= p[j] ==> q <= Scaled(p, j))
    && (q == 1.0 || exists j: nat :: j < |p| && v <= p[j] && q == Scaled(p, j))
  }

  // -------- the sweep --------

  /** `p_(rank) * count / rank` at place `t` of the order. */
  function AtPlace(p: seq<real>, order: seq<nat>, t: nat): real
    requires |order| == |p| && t < |p| && order[t] < |p|
  {
    Ratio(p[order[t]], |p|, t + 1)
  }

  /** The least of one and the ratios at place `t` and beyond. */
  function LeastFrom(p: seq<real>, order: seq<nat>, t: nat): (least: real)
    requires |order| == |p| && (forall i :: 0 <= i < |order| ==> order[i] < |p|) && t <= |p|
    ensures least <= 1.0
    decreases |p| - t
  {
    if t == |p| then 1.0
    else
      var rest := LeastFrom(p, order, t + 1);
      if AtPlace(p, order, t) < rest then AtPlace(p, order, t) else rest
  }

  /** `least` bounds every ratio from place `t` on, and is one of them unless it is one. */
  lemma {:induction false} LeastFromBounds(p: seq<real>, order: seq<nat>, t: nat) returns (u: nat)
    requires Permutation(order, |p|) && t <= |p|
    ensures forall w :: t <= w < |p| ==> LeastFrom(p, order, t) <= AtPlace(p, order, w)
    ensures LeastFrom(p, order, t) != 1.0 ==> t <= u < |p| && LeastFrom(p, order, t) == AtPlace(p, order, u)
    decreases |p| - t
  {
    u := t;
    if t < |p| && LeastFrom(p, order, t) != AtPlace(p, order, t) {
      u := LeastFromBounds(p, order, t + 1);
    } else if t < |p| {
      var _ := LeastFromBounds(p, order, t + 1);
    }
  }

  /** The positions at places from `rank` on have their final value. */
  ghost predicate Swept(p: seq<real>, order: seq<nat>, q: seq<real>, rank: nat)
    requires Permutation(order, |p|) && |q| == |p|
  {
    forall t {:trigger LeastFrom(p, order, t)} :: rank <= t < |p| ==> q[order[t]] == LeastFrom(p, order, t)
  }

  method BenjaminiHochberg(p: seq<Probability>) returns (q: seq<real>)
    ensures |q| == |p|
    ensures forall i :: 0 <= i < |p| ==> IsAdjusted(p, p[i], q[i])
  {
    var count := |p|;
    if count == 0 { return []; }
    StableOrderSorts(p, count);
    var order := StableOrder(p);
    var qValues := new real[count](_ => 1.0);
    var running := 1.0;
    var rank := count;
    while rank > 0
      invariant 0 <= rank <= count
      invariant running == LeastFrom(p, order, rank)
      invariant Swept(p, order, qValues[..], rank)
    {
      var index := order[rank - 1];
      var scaled := Ratio(p[index], count, rank);
      running := if scaled < running then scaled else running;
      SweptStep(p, order, qValues[..], rank - 1);
      qValues[index] := if running < 1.0 then running else 1.0;
      rank := rank - 1;
    }
    q := qValues[..];
    SweepResult(p, order, q);
  }

  lemma SweptStep(p: seq<real>, order: seq<nat>, q: seq<real>, t: nat)
    requires Permutation(order, |p|) && t < |p| == |q|
    requires Swept(p, order, q, t + 1)
    ensures Swept(p, order, q[order[t] := LeastFrom(p, order, t)], t)
  {}

  lemma SweepResult(p: seq<real>, order: seq<nat>, q: seq<real>)
    requires Sorts(p, order) && |q| == |p| && (forall i :: 0 <= i < |p| ==> p[i] >= 0.0)
    requires Swept(p, order, q, 0)
    ensures forall i :: 0 <= i < |p| ==> IsAdjusted(p, p[i], q[i])
  {
    forall i | 0 <= i < |p|
      ensures IsAdjusted(p, p[i], q[i])
    {
      var t := PlaceOf(order, |p|, i);
      LeastFromIsAdjusted(p, order, t);
    }
  }

  /** Place `t` never beats the scaled value of the p-value found there, and the last place of
      a value attains it: ties cannot change the minimum. */
  lemma PlaceVersusScaled(p: seq<real>, order: seq<nat>, t: nat)
    requires Sorts(p, order) && t < |p| && p[order[t]] >= 0.0
    ensures Scaled(p, order[t]) <= AtPlace(p, order, t)
    ensures t < |AtMost(p, p[order[t]])| <= |p|
    ensures var last := |AtMost(p, p[order[t]])| - 1;
            p[order[last]] == p[order[t]] && AtPlace(p, order, last) == Scaled(p, order[t])
  {
    var v := p[order[t]];
    AtMostPlaces(p, order, v);
    var c := |AtMost(p, v)|;
    assert t < c;
    RatioFalls(v, |p|, t + 1, c);
    assert p[order[c - 1]] <= v;
    assert t < c - 1 ==> p[order[t]] <= p[order[c - 1]];
  }

  lemma LeastFromIsAdjusted(p: seq<real>, order: seq<nat>, t: nat)
    requires Sorts(p, order) && t < |p| && (forall i :: 0 <= i < |p| ==> p[i] >= 0.0)
    ensures IsAdjusted(p, p[order[t]], LeastFrom(p, order, t))
  {
    var v := p[order[t]];
    var running := LeastFrom(p, order, t);
    var u := LeastFromBounds(p, order, t);
    forall j: nat | j < |p| && v <= p[j]
      ensures running <= Scaled(p, j)
    {
      var w := PlaceOf(order, |p|, j);
      PlaceVersusScaled(p, order, w);
      AtMostPlaces(p, order, p[j]);
    }
    if running != 1.0 {
      PlaceVersusScaled(p, order, u);
      assert t < u ==> v <= p[order[u]];
      assert running <= Scaled(p, order[u]);
    }
  }

  // -------- what the correction promises --------

  lemma AdjustedIsUnique(p: seq<real>, v: real, q: real, r: real)
    requires IsAdjusted(p, v, q) && IsAdjusted(p, v, r)
    ensures q == r
  {}

  /** q-values follow the order of the p-values, so equal p-values get equal q-values. */
  lemma AdjustedFollowsP(p: seq<real>, v: real, w: real, q: real, r: real)
    requires v <= w && IsAdjusted(p, v, q) && IsAdjusted(p, w, r)
    ensures q <= r
  {
    if r != 1.0 {
      var j: nat :| j < |p| && w <= p[j] && r == Scaled(p, j);
      assert q <= Scaled(p, j);
    }
  }

  lemma CountsWithin(p: seq<real>, v: real)
    ensures |AtMost(p, v)| <= |p|
  {
    StableOrderSorts(p, |p|);
    AtMostPlaces(p, StableOrder(p), v);
  }

  /** A q-value is never below its p-value. */
  lemma AdjustedNotBelowP(p: seq<real>, v: real, q: real)
    requires 0.0 <= v <= 1.0 && IsAdjusted(p, v, q)
    ensures v <= q
  {
    if q != 1.0 {
      var j: nat :| j < |p| && v <= p[j] && q == Scaled(p, j);
      AtMostHas(p, j);
      CountsWithin(p, p[j]);
      RatioFalls(p[j], |p|, |AtMost(p, p[j])|, |p|);
      RatioOfAll(p[j], |p|);
    }
  }

  /** The textbook step-up rule: the largest `k` up to `bound` with `p_(k) * m / k <= rate`,
      or zero when there is none.  The `k` smallest p-values are then rejected. */
  function StepUp(p: seq<real>, order: seq<nat>, rate: real, bound: nat): (k: nat)
    requires |order| == |p| && (forall i :: 0 <= i < |order| ==> order[i] < |p|)
    requires bound <= |p|
    ensures k <= bound
    ensures k > 0 ==> AtPlace(p, order, k - 1) <= rate
    ensures forall t :: k <= t < bound ==> AtPlace(p, order, t) > rate
  {
    if bound == 0 then 0
    else if AtPlace(p, order, bound - 1) <= rate then bound
    else StepUp(p, order, rate, bound - 1)
  }

  /** Whichever way the sort broke ties, the positions with q-value at most `rate` are exactly
      those the step-up rule rejects. */
  lemma RejectionsAreStepUp(p: seq<real>, order: seq<nat>, rate: real, t: nat, q: real)
    requires forall i :: 0 <= i < |p| ==> 0.0 <= p[i] <= 1.0
    requires Sorts(p, order) && t < |p|
    requires IsAdjusted(p, p[order[t]], q)
    ensures q <= rate <==> t < StepUp(p, order, rate, |p|)
  {
    var k := StepUp(p, order, rate, |p|);
    if t < k {
      PlaceVersusScaled(p, order, k - 1);
      assert t < k - 1 ==> p[order[t]] <= p[order[k - 1]];
      assert q <= Scaled(p, order[k - 1]);
    }
    if q <= rate {
      if q == 1.0 {
        var n := |p|;
        RatioOfAll(p[order[n - 1]], n);
        assert AtPlace(p, order, n - 1) <= rate;
        assert k == n;
      } else {
        var j: nat :| j < |p| && p[order[t]] <= p[j] && q == Scaled(p, j);
        var u := PlaceOf(order, |p|, j);
        PlaceVersusScaled(p, order, u);
        AtMostPlaces(p, order, p[j]);
      }
    }
  }

  /** The dashboard calls a ticker significant on a strict comparison: that is the step-up rule
      with a strict comparison. */
  lemma SignificanceIsStrictStepUp(p: seq<real>, order: seq<nat>, rate: real, t: nat, q: real)
    requires forall i :: 0 <= i < |p| ==> 0.0 <= p[i] <= 1.0
    requires Sorts(p, order) && t < |p| && rate <= 1.0
    requires IsAdjusted(p, p[order[t]], q)
    ensures q < rate <==> exists k :: t <= k < |p| && AtPlace(p, order, k) < rate
  {
    if q < rate {
      var j: nat :| j < |p| && p[order[t]] <= p[j] && q == Scaled(p, j);
      var u := PlaceOf(order, |p|, j);
      PlaceVersusScaled(p, order, u);
      AtMostPlaces(p, order, p[j]);
      var last := |AtMost(p, p[j])| - 1;
      assert t <= last && AtPlace(p, order, last) < rate;
    }
    if k :| t <= k < |p| && AtPlace(p, order, k) < rate {
      PlaceVersusScaled(p, order, k);
      assert t < k ==> p[order[t]] <= p[order[k]];
      assert q <= Scaled(p, order[k]);
    }
  }

  // -------- the textbook rule, multiplied out --------

  /** How many p-values do not exceed a value. */
  ghost function CountNotAbove(p: seq<real>, v: real): nat {
    |set k: nat | k < |p| && p[k] <= v|
  }

  lemma QuotientWithin(x: real, n: real, rate: real)
    requires n > 0.0
    ensures x / n <= rate <==> x <= rate * n
    ensures x / n < rate <==> x < rate * n
  {
    var y := x / n;
    assert y * n == x;
    assert (rate - y) * n == rate * n - x;
    SignOfProduct(rate - y, n);
  }

  lemma ScaledWithin(p: seq<real>, j: nat, rate: real)
    requires j < |p|
    ensures Scaled(p, j) <= rate <==> p[j] * |p| as real <= rate * CountNotAbove(p, p[j]) as real
    ensures Scaled(p, j) < rate <==> p[j] * |p| as real < rate * CountNotAbove(p, p[j]) as real
  {
    AtMostHas(p, j);
    assert AtMost(p, p[j]) == set k: nat | k < |p| && p[k] <= p[j];
    QuotientWithin(p[j] * |p| as real, |AtMost(p, p[j])| as real, rate);
  }

  /** A q-value is at most the rate exactly when some p-value not below its own passes: times the number
      of tests it is at most the rate times the number of p-values not above it.  Rates from one on
      reject everything. */
  lemma RejectedExactly(p: seq<real>, i: nat, q: real, rate: real)
    requires i < |p| && IsAdjusted(p, p[i], q)
    ensures q <= rate <==>
            || rate >= 1.0
            || exists j: nat :: j < |p| && p[i] <= p[j] && p[j] * |p| as real <= rate * CountNotAbove(p, p[j]) as real
  {
    if q <= rate < 1.0 {
      var j: nat :| j < |p| && p[i] <= p[j] && q == Scaled(p, j);
      ScaledWithin(p, j, rate);
    }
    if j: nat :| j < |p| && p[i] <= p[j] && p[j] * |p| as real <= rate * CountNotAbove(p, p[j]) as real {
      ScaledWithin(p, j, rate);
    }
  }

  /** The dashboard's verdict, a q-value strictly below the rate, multiplied out in the same way. */
  lemma SignificantExactly(p: seq<real>, i: nat, q: real, rate: real)
    requires i < |p| && IsAdjusted(p, p[i], q)
    ensures q < rate <==>
            || rate > 1.0
            || exists j: nat :: j < |p| && p[i] <= p[j] && p[j] * |p| as real < rate * CountNotAbove(p, p[j]) as real
  {
    if q < rate <= 1.0 {
      var j: nat :| j < |p| && p[i] <= p[j] && q == Scaled(p, j);
      ScaledWithin(p, j, rate);
    }
    if j: nat :| j < |p| && p[i] <= p[j] && p[j] * |p| as real < rate * CountNotAbove(p, p[j]) as real {
      ScaledWithin(p, j, rate);
    }
  }
}
