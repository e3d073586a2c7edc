/** Evaluation metrics (metrics/performance.py): average ranks for tied values and the maximum
    drawdown of a compounded return path. */
module Performance {
  import opened Arithmetic
  import opened Ordering
  import opened Wrappers

  // ------------------------------------------------------------------
  // Average ranks
  // ------------------------------------------------------------------

  /** The rank of value `v`: how many are smaller, plus half of one more than how many equal it. */
  ghost function RankOf(values: seq<real>, v: real): real {
    |Below(values, v)| as real + (|Equal(values, v)| + 1) as real / 2.0
  }

  method AverageRanks(values: seq<real>) returns (result: seq<real>)
    ensures |result| == |values|
    ensures forall i :: 0 <= i < |values| ==> result[i] == RankOf(values, values[i])
  {
    StableOrderSorts(values, |values|);
    var order := StableOrder(values);
    var ranks := new real[|values|];
    var position := 0;
    while position < |values|
      invariant 0 <= position <= |values|
      invariant 0 < position < |values| ==> values[order[position - 1]] < values[order[position]]
      invariant Ranked(values, order, ranks[..], position)
    {
      var end := position + 1;
      while end < |values| && values[order[end]] == values[order[position]]
        invariant position < end <= |values|
        invariant values[order[end - 1]] == values[order[position]]
      {
        end := end + 1;
      }
      var averageRank := (position + end - 1) as real / 2.0 + 1.0;
      BlockRank(values, order, position, end);
      AssignBlock(values, order, ranks, position, end, averageRank);
      position := end;
    }
    result := ranks[..];
    RanksEverywhere(values, order, result);
  }

  /** The positions at the first `n` places have their rank. */
  ghost predicate Ranked(values: seq<real>, order: seq<nat>, ranks: seq<real>, n: nat)
    requires Permutation(order, |values|) && |ranks| == |values| && n <= |values|
  {
    forall t {:trigger order[t]} :: 0 <= t < n ==> ranks[order[t]] == RankOf(values, values[order[t]])
  }

  /** `ranks[order[position:end]] = average_rank`, on a block of equal values. */
  method AssignBlock(values: seq<real>, order: seq<nat>, ranks: array<real>, position: nat, end: nat, rank: real)
    requires Sorts(values, order) && ranks.Length == |values| && position < end <= |values|
    requires values[order[position]] == values[order[end - 1]]
    requires rank == RankOf(values, values[order[position]])
    requires Ranked(values, order, ranks[..], position)
    modifies ranks
    ensures Ranked(values, order, ranks[..], end)
  {
    for k := position to end
      invariant Ranked(values, order, ranks[..], k)
    {
      ranks[order[k]] := rank;
    }
  }

  /** A maximal block of equal values at places `position..end` has the average of its places
      as its rank. */
  lemma BlockRank(values: seq<real>, order: seq<nat>, position: nat, end: nat)
    requires Sorts(values, order) && position < end <= |values|
    requires values[order[position]] == values[order[end - 1]]
    requires position > 0 ==> values[order[position - 1]] < values[order[position]]
    requires end < |values| ==> values[order[end]] != values[order[position]]
    ensures RankOf(values, values[order[position]]) == (position + end - 1) as real / 2.0 + 1.0
    ensures end < |values| ==> values[order[end - 1]] < values[order[end]]
  {
    var v := values[order[position]];
    BelowPlaces(values, order, v);
    AtMostPlaces(values, order, v);
    BelowPlusEqual(values, v);
    if end < |values| {
      assert values[order[end - 1]] <= values[order[end]];
    }
  }

  lemma RanksEverywhere(values: seq<real>, order: seq<nat>, ranks: seq<real>)
    requires Permutation(order, |values|) && |ranks| == |values|
    requires Ranked(values, order, ranks, |values|)
    ensures forall i :: 0 <= i < |values| ==> ranks[i] == RankOf(values, values[i])
  {
    forall i | 0 <= i < |values|
      ensures ranks[i] == RankOf(values, values[i])
    {
      var t := PlaceOf(order, |values|, i);
    }
  }

  /** Ranks follow the values: larger values have larger ranks, and ties share a rank. */
  lemma RanksFollowValues(values: seq<real>, i: nat, j: nat)
    requires i < |values| && j < |values|
    ensures RankOf(values, values[i]) < RankOf(values, values[j]) <==> values[i] < values[j]
    ensures RankOf(values, values[i]) == RankOf(values, values[j]) <==> values[i] == values[j]
  {
    if values[i] < values[j] {
      RankBelow(values, i, j);
    } else if values[j] < values[i] {
      RankBelow(values, j, i);
    }
  }

  lemma RankBelow(values: seq<real>, i: nat, j: nat)
    requires i < |values| && j < |values| && values[i] < values[j]
    ensures RankOf(values, values[i]) < RankOf(values, values[j])
  {
    SubsetSize(AtMost(values, values[i]), Below(values, values[j]));
    BelowPlusEqual(values, values[i]);
    assert j in Equal(values, values[j]) && i in Equal(values, values[i]);
    SubsetSize({j}, Equal(values, values[j]));
    SubsetSize({i}, Equal(values, values[i]));
  }

  /** Two series that order their positions alike have the same ranks: any strictly increasing
      transformation of the values leaves them unchanged. */
  lemma RanksDependOnOrderOnly(values: seq<real>, others: seq<real>, i: nat)
    requires |values| == |others| && i < |values|
    requires forall j, k :: 0 <= j < |values| && 0 <= k < |values| ==>
              (values[j] < values[k] <==> others[j] < others[k])
    ensures RankOf(values, values[i]) == RankOf(others, others[i])
  {
    assert Below(values, values[i]) == Below(others, others[i]);
    forall j: nat | j < |values|
      ensures values[j] == values[i] <==> others[j] == others[i]
    {
      assert values[j] < values[i] <==> others[j] < others[i];
      assert values[i] < values[j] <==> others[i] < others[j];
    }
    assert Equal(values, values[i]) == Equal(others, others[i]);
  }

  lemma RanksSurviveIncreasingMaps(values: seq<real>, f: real -> real, i: nat)
    requires i < |values|
    requires forall x, y :: x < y ==> f(x) < f(y)
    ensures var mapped := seq(|values|, k requires 0 <= k < |values| => f(values[k]));
            RankOf(mapped, mapped[i]) == RankOf(values, values[i])
  {
    var mapped := seq(|values|, k requires 0 <= k < |values| => f(values[k]));
    forall j, k | 0 <= j < |values| && 0 <= k < |values|
      ensures values[j] < values[k] <==> mapped[j] < mapped[k]
    {}
    RanksDependOnOrderOnly(values, mapped, i);
  }

  /** The ranks of the first `n` positions, added up. */
  ghost function RankSum(values: seq<real>, n: nat): real
    requires n <= |values|
  {
    if n == 0 then 0.0 else RankSum(values, n - 1) + RankOf(values, values[n - 1])
  }

  /** How many of the first `n` values exceed `v`, and how many equal it. */
  ghost function Above(values: seq<real>, v: real, n: nat): nat
    requires n <= |values|
  {
    if n == 0 then 0 else Above(values, v, n - 1) + if values[n - 1] > v then 1 else 0
  }

  ghost function Same(values: seq<real>, v: real, n: nat): nat
    requires n <= |values|
  {
    if n == 0 then 0 else Same(values, v, n - 1) + if values[n - 1] == v then 1 else 0
  }

  lemma AppendCounts(values: seq<real>, x: real, v: real)
    ensures |Below(values + [x], v)| == |Below(values, v)| + if x < v then 1 else 0
    ensures |Equal(values + [x], v)| == |Equal(values, v)| + if x == v then 1 else 0
  {
    var n, more := |values|, values + [x];
    assert forall i :: 0 <= i < n ==> more[i] == values[i];
    assert more[n] == x;
    assert Below(more, v) == if x < v then Below(values, v) + {n} else Below(values, v);
    assert Equal(more, v) == if x == v then Equal(values, v) + {n} else Equal(values, v);
  }

  /** Appending `x` raises the rank of every larger value by one and of every equal one by a half. */
  lemma {:induction false} AppendRankSum(values: seq<real>, x: real, n: nat)
    requires n <= |values|
    ensures RankSum(values + [x], n)
         == RankSum(values, n) + Above(values, x, n) as real + Same(values, x, n) as real / 2.0
  {
    if n == 0 {
    } else {
      AppendRankSum(values, x, n - 1);
      AppendCounts(values, x, values[n - 1]);
      assert (values + [x])[n - 1] == values[n - 1];
    }
  }

  lemma {:induction false} CountsPartition(values: seq<real>, v: real, n: nat)
    requires n <= |values|
    ensures |Below(values[..n], v)| + |Equal(values[..n], v)| + Above(values, v, n) == n
    ensures |Equal(values[..n], v)| == Same(values, v, n)
  {
    if n == 0 {
      assert Below(values[..0], v) == {} && Equal(values[..0], v) == {};
    } else {
      CountsPartition(values, v, n - 1);
      AppendCounts(values[..n - 1], values[n - 1], v);
      assert values[..n] == values[..n - 1] + [values[n - 1]];
    }
  }

  /** The average ranks always add up to n(n+1)/2, ties or not. */
  lemma {:induction false} RanksAddUp(values: seq<real>, n: nat)
    requires n == |values|
    ensures RankSum(values, n) == (n * (n + 1)) as real / 2.0
  {
    if n == 0 {
    } else {
      var init, x := values[..n - 1], values[n - 1];
      assert values == init + [x];
      RanksAddUp(init, n - 1);
      RankSumGrows(init, x);
      NextTriangle(n);
    }
  }

  /** One more value adds its own rank and half a place to each value it ties with or precedes: as
      much as there are values. */
  lemma RankSumGrows(init: seq<real>, x: real)
    ensures RankSum(init + [x], |init| + 1) == RankSum(init, |init|) + (|init| + 1) as real
  {
    var n := |init|;
    AppendRankSum(init, x, n);
    AppendCounts(init, x, x);
    CountsPartition(init, x, n);
    assert init[..n] == init;
  }

  lemma NextTriangle(n: nat)
    requires n > 0
    ensures ((n - 1) * (n - 1 + 1)) as real / 2.0 + n as real == (n * (n + 1)) as real / 2.0
  {
    assert (n - 1) * n + 2 * n == n * (n + 1);
  }

  // ------------------------------------------------------------------
  // Maximum drawdown
  // ------------------------------------------------------------------

  /** `concatenate([1], cumprod(1 + path))` at index `i`. */
  function Equity(path: seq<real>, i: nat): real
    requires i <= |path|
  {
    if i == 0 then 1.0 else Equity(path, i - 1) * (1.0 + path[i - 1])
  }

  /** `maximum.accumulate(equity)` at index `i`. */
  function Peak(path: seq<real>, i: nat): real
    requires i <= |path|
  {
    if i == 0 then Equity(path, 0) else MaxReal(Peak(path, i - 1), Equity(path, i))
  }

  /** The relative fall below the running peak, zero where the peak is not positive. */
  function Drawdown(path: seq<real>, i: nat): real
    requires i <= |path|
  {
    if Peak(path, i) > 0.0 then (Peak(path, i) - Equity(path, i)) / Peak(path, i) else 0.0
  }

  function LargestDrawdown(path: seq<real>, i: nat): real
    requires i <= |path|
  {
    if i == 0 then Drawdown(path, 0) else MaxReal(LargestDrawdown(path, i - 1), Drawdown(path, i))
  }

  function MaximumDrawdown(path: seq<real>): Result<real> {
    if |path| == 0 then Ok(0.0)
    else if exists i :: 0 <= i < |path| && path[i] < -1.0 then Err("individual returns must not be below -100%")
    else Ok(LargestDrawdown(path, |path|))
  }

  ghost predicate NoneBelowMinusOne(path: seq<real>) {
    forall i :: 0 <= i < |path| ==> path[i] >= -1.0
  }

  /** The fall from index `i` to a later index `j`, relative to the equity at `i`. */
  ghost function Fall(path: seq<real>, i: nat, j: nat): real
    requires i <= j <= |path| && Equity(path, i) > 0.0
  {
    (Equity(path, i) - Equity(path, j)) / Equity(path, i)
  }

  lemma {:induction false} EquityNonNegative(path: seq<real>, i: nat)
    requires NoneBelowMinusOne(path) && i <= |path|
    ensures Equity(path, i) >= 0.0
  {
    if i == 0 {
    } else {
      EquityNonNegative(path, i - 1);
      ProductNonNegative(Equity(path, i - 1), 1.0 + path[i - 1]);
    }
  }

  /** The peak is the largest equity so far, attained, and never below the starting one. */
  lemma {:induction false} PeakIsLargest(path: seq<real>, j: nat) returns (i: nat)
    requires j <= |path|
    ensures i <= j && Peak(path, j) == Equity(path, i)
    ensures forall k: nat :: k <= j ==> Equity(path, k) <= Peak(path, j)
    ensures Peak(path, j) >= 1.0
  {
    if j == 0 {
      i := 0;
    } else {
      i := PeakIsLargest(path, j - 1);
      if Equity(path, j) > Peak(path, j - 1) {
        i := j;
      }
    }
  }

  lemma FallOrder(high: real, peak: real, low: real)
    requires 0.0 < high <= peak && 0.0 <= low
    ensures (high - low) / high <= (peak - low) / peak
  {
    var p, q := (high - low) / high, (peak - low) / peak;
    assert p * high == high - low && q * peak == peak - low;
    assert (1.0 - p) * high == low && (1.0 - q) * peak == low;
    if q < p {
      ProductOrder(1.0 - p, 1.0 - q, high, peak);
    }
  }

  /** Each drawdown is the largest fall ending there. */
  lemma DrawdownIsLargestFall(path: seq<real>, j: nat) returns (i: nat)
    requires NoneBelowMinusOne(path) && j <= |path|
    ensures i <= j && Equity(path, i) > 0.0 && Drawdown(path, j) == Fall(path, i, j)
    ensures forall k: nat :: k <= j && Equity(path, k) > 0.0 ==> Fall(path, k, j) <= Drawdown(path, j)
  {
    i := PeakIsLargest(path, j);
    EquityNonNegative(path, j);
    forall k: nat | k <= j && Equity(path, k) > 0.0
      ensures Fall(path, k, j) <= Drawdown(path, j)
    {
      FallOrder(Equity(path, k), Peak(path, j), Equity(path, j));
    }
  }

  lemma {:induction false} LargestIsLargest(path: seq<real>, n: nat) returns (j: nat)
    requires n <= |path|
    ensures j <= n && LargestDrawdown(path, n) == Drawdown(path, j)
    ensures forall k: nat :: k <= n ==> Drawdown(path, k) <= LargestDrawdown(path, n)
  {
    if n == 0 {
      j := 0;
    } else {
      j := LargestIsLargest(path, n - 1);
      if Drawdown(path, n) > LargestDrawdown(path, n - 1) {
        j := n;
      }
    }
  }

  /** The running-peak computation is the largest relative fall over all pairs of an earlier
      index with positive equity and a later one. */
  lemma DrawdownIsLargestPairwiseFall(path: seq<real>) returns (i: nat, j: nat)
    requires NoneBelowMinusOne(path)
    ensures MaximumDrawdown(path).Ok?
    ensures i <= j <= |path| && Equity(path, i) > 0.0 && MaximumDrawdown(path).value == Fall(path, i, j)
    ensures forall k: nat, l: nat :: k <= l <= |path| && Equity(path, k) > 0.0 ==>
              Fall(path, k, l) <= MaximumDrawdown(path).value
  {
    j := LargestIsLargest(path, |path|);
    i := DrawdownIsLargestFall(path, j);
    assert LargestDrawdown(path, 0) == 0.0;
    forall k: nat, l: nat | k <= l <= |path| && Equity(path, k) > 0.0
      ensures Fall(path, k, l) <= LargestDrawdown(path, |path|)
    {
      var _ := DrawdownIsLargestFall(path, l);
    }
  }

  lemma DrawdownAt(path: seq<real>, j: nat)
    requires NoneBelowMinusOne(path) && j <= |path|
    ensures 0.0 <= Drawdown(path, j) <= 1.0
    ensures Drawdown(path, j) == 0.0 <==> Equity(path, j) == Peak(path, j)
    ensures Drawdown(path, j) == 1.0 <==> Equity(path, j) == 0.0
  {
    var _ := PeakIsLargest(path, j);
    EquityNonNegative(path, j);
    FractionOf(Peak(path, j), Equity(path, j));
  }

  lemma FractionOf(peak: real, e: real)
    requires peak > 0.0 && 0.0 <= e <= peak
    ensures 0.0 <= (peak - e) / peak <= 1.0
    ensures (peak - e) / peak == 0.0 <==> e == peak
    ensures (peak - e) / peak == 1.0 <==> e == 0.0
  {
    var d := (peak - e) / peak;
    assert d * peak == peak - e;
    assert (d - 1.0) * peak == -e;
    SignOfProduct(d, peak);
    SignOfProduct(d - 1.0, peak);
  }

  lemma {:induction false} RisingEquity(path: seq<real>, n: nat)
    requires n <= |path| && (forall i :: 0 <= i < n ==> path[i] >= 0.0)
    ensures Equity(path, n) == Peak(path, n) >= 1.0
  {
    if n == 0 {
    } else {
      RisingEquity(path, n - 1);
      ProductNonNegative(Equity(path, n - 1), path[n - 1]);
    }
  }

  lemma DrawdownWithin(path: seq<real>)
    requires NoneBelowMinusOne(path)
    ensures MaximumDrawdown(path) == Ok(LargestDrawdown(path, |path|)) && 0.0 <= LargestDrawdown(path, |path|) <= 1.0
  {
    var j := LargestIsLargest(path, |path|);
    DrawdownAt(path, j);
  }

  lemma DrawdownZero(path: seq<real>)
    requires NoneBelowMinusOne(path)
    ensures LargestDrawdown(path, |path|) == 0.0 <==> forall i :: 0 <= i < |path| ==> path[i] >= 0.0
  {
    var j := LargestIsLargest(path, |path|);
    if forall i :: 0 <= i < |path| ==> path[i] >= 0.0 {
      RisingEquity(path, j);
      DrawdownAt(path, j);
    } else {
      var w :| 0 <= w < |path| && path[w] < 0.0;
      var i := FirstNegative(path, w);
      RisingEquity(path, i);
      NegativeReturnLowers(Equity(path, i), path[i]);
      DrawdownAt(path, i + 1);
    }
  }

  lemma DrawdownOne(path: seq<real>)
    requires NoneBelowMinusOne(path)
    ensures LargestDrawdown(path, |path|) == 1.0 <==> exists i :: 0 <= i < |path| && path[i] == -1.0
  {
    var j := LargestIsLargest(path, |path|);
    DrawdownAt(path, j);
    if i :| 0 <= i < |path| && path[i] == -1.0 {
      assert Equity(path, i + 1) == 0.0;
      DrawdownAt(path, i + 1);
    } else {
      PositiveEquity(path, j);
    }
  }

  /** The drawdown lies in [0, 1]; it is zero exactly when no return is negative, and one
      exactly when some return wipes the equity out. */
  lemma DrawdownRange(path: seq<real>)
    requires NoneBelowMinusOne(path)
    ensures MaximumDrawdown(path).Ok? && 0.0 <= MaximumDrawdown(path).value <= 1.0
    ensures MaximumDrawdown(path).value == 0.0 <==> forall i :: 0 <= i < |path| ==> path[i] >= 0.0
    ensures MaximumDrawdown(path).value == 1.0 <==> exists i :: 0 <= i < |path| && path[i] == -1.0
  {
    DrawdownWithin(path);
    DrawdownZero(path);
    DrawdownOne(path);
  }

  lemma NegativeReturnLowers(e: real, r: real)
    requires e > 0.0 && r < 0.0
    ensures e * (1.0 + r) < e
  {
    assert e * r < 0.0;
  }

  lemma {:induction false} FirstNegative(path: seq<real>, w: nat) returns (i: nat)
    requires w < |path| && path[w] < 0.0
    ensures i <= w && path[i] < 0.0 && forall k :: 0 <= k < i ==> path[k] >= 0.0
  {
    if k: nat :| k < w && path[k] < 0.0 {
      i := FirstNegative(path, k);
    } else {
      i := w;
    }
  }

  lemma {:induction false} PositiveEquity(path: seq<real>, n: nat)
    requires n <= |path| && NoneBelowMinusOne(path) && forall i :: 0 <= i < |path| ==> path[i] != -1.0
    ensures Equity(path, n) > 0.0
  {
    if n == 0 {
    } else {
      PositiveEquity(path, n - 1);
      assert path[n - 1] > -1.0;
      SignOfProduct(Equity(path, n - 1), 1.0 + path[n - 1]);
    }
  }

  lemma {:induction false} PrefixAgrees(path: seq<real>, more: seq<real>, i: nat)
    requires i <= |path|
    ensures Equity(path + more, i) == Equity(path, i) && Peak(path + more, i) == Peak(path, i)
    ensures LargestDrawdown(path + more, i) == LargestDrawdown(path, i)
  {
    if i == 0 {
    } else {
      PrefixAgrees(path, more, i - 1);
      assert (path + more)[i - 1] == path[i - 1];
    }
  }

  /** Appending returns never lowers the drawdown. */
  lemma DrawdownNeverRecovers(path: seq<real>, more: seq<real>)
    requires NoneBelowMinusOne(path + more)
    ensures MaximumDrawdown(path).Ok? && MaximumDrawdown(path + more).Ok?
    ensures MaximumDrawdown(path).value <= MaximumDrawdown(path + more).value
  {
    var all := path + more;
    assert forall i :: 0 <= i < |path| ==> path[i] == all[i];
    PrefixAgrees(path, more, |path|);
    LargestGrows(all, |path|, |all|);
  }

  lemma {:induction false} LargestGrows(path: seq<real>, m: nat, n: nat)
    requires m <= n <= |path|
    ensures LargestDrawdown(path, m) <= LargestDrawdown(path, n)
  {
    if m == n {
    } else {
      LargestGrows(path, m, n - 1);
    }
  }

  // -------- the same without a running peak --------

  /** What one unit becomes over a run of returns. */
  ghost function Growth(run: seq<real>): real {
    if run == [] then 1.0 else (1.0 + run[0]) * Growth(run[1..])
  }

  lemma {:induction false} GrowthNonNegative(run: seq<real>)
    requires NoneBelowMinusOne(run)
    ensures Growth(run) >= 0.0
  {
    if run == [] {
    } else {
      GrowthNonNegative(run[1..]);
      ProductNonNegative(1.0 + run[0], Growth(run[1..]));
    }
  }

  /** Between two indices the equity grows by the returns between them. */
  lemma {:induction false} EquityGrows(path: seq<real>, i: nat, j: nat)
    requires i <= j <= |path|
    ensures Equity(path, j) == Equity(path, i) * Growth(path[i..j])
    decreases j - i
  {
    if i == j {
    } else {
      EquityGrows(path, i + 1, j);
      GrowthOfRest(path, i, j);
      Chained(Equity(path, i), 1.0 + path[i], Growth(path[i + 1..j]), Equity(path, i + 1), Equity(path, j),
              Growth(path[i..j]));
    }
  }

  lemma GrowthOfRest(path: seq<real>, i: nat, j: nat)
    requires i < j <= |path|
    ensures Growth(path[i..j]) == (1.0 + path[i]) * Growth(path[i + 1..j])
  {
    assert path[i..j][1..] == path[i + 1..j];
  }

  lemma Chained(e: real, factor: real, rest: real, next: real, last: real, growth: real)
    requires next == e * factor && last == next * rest && growth == factor * rest
    ensures last == e * growth
  {}

  lemma FallIsGrowth(path: seq<real>, i: nat, j: nat)
    requires i <= j <= |path| && Equity(path, i) > 0.0
    ensures Fall(path, i, j) == 1.0 - Growth(path[i..j])
  {
    var e, f, g := EquityBetween(path, i, j);
    FallFrom(path, i, j, e, f, g);
  }

  lemma EquityBetween(path: seq<real>, i: nat, j: nat) returns (e: real, f: real, g: real)
    requires i <= j <= |path|
    ensures e == Equity(path, i) && f == Equity(path, j) && g == Growth(path[i..j]) && f == e * g
  {
    EquityGrows(path, i, j);
    e, f, g := Equity(path, i), Equity(path, j), Growth(path[i..j]);
  }

  lemma FallFrom(path: seq<real>, i: nat, j: nat, e: real, f: real, g: real)
    requires i <= j <= |path| && Equity(path, i) == e > 0.0 && Equity(path, j) == f == e * g
    ensures Fall(path, i, j) == 1.0 - g
  {
    LossOf(e, f, g);
  }

  lemma LossOf(e: real, f: real, g: real)
    requires e > 0.0 && f == e * g
    ensures (e - f) / e == 1.0 - g
  {
    assert e - f == (1.0 - g) * e;
    QuotientIs(e - f, 1.0 - g, e);
  }

  lemma RunLosesAtMost(path: seq<real>, k: nat, l: nat)
    requires NoneBelowMinusOne(path) && k <= l <= |path|
    ensures MaximumDrawdown(path).Ok? && 1.0 - Growth(path[k..l]) <= MaximumDrawdown(path).value
  {
    var _, _ := DrawdownIsLargestPairwiseFall(path);
    if Equity(path, k) > 0.0 {
      FallIsGrowth(path, k, l);
    } else {
      EquityNonNegative(path, k);
      GrowthNonNegative(path[k..l]);
      DrawdownAt(path, k);
      DrawdownWithin(path);
      var _ := LargestIsLargest(path, |path|);
    }
  }

  /** The drawdown is the most that any run of consecutive returns loses. */
  lemma DrawdownIsWorstRun(path: seq<real>) returns (i: nat, j: nat)
    requires NoneBelowMinusOne(path)
    ensures MaximumDrawdown(path).Ok? && i <= j <= |path|
    ensures MaximumDrawdown(path).value == 1.0 - Growth(path[i..j])
    ensures forall k: nat, l: nat :: k <= l <= |path| ==> 1.0 - Growth(path[k..l]) <= MaximumDrawdown(path).value
  {
    i, j := DrawdownIsLargestPairwiseFall(path);
    FallIsGrowth(path, i, j);
    forall k: nat, l: nat | k <= l <= |path|
      ensures 1.0 - Growth(path[k..l]) <= MaximumDrawdown(path).value
    {
      RunLosesAtMost(path, k, l);
    }
  }

  /** It is refused exactly for a return below -100%. */
  lemma DrawdownRefusedExactly(path: seq<real>)
    ensures MaximumDrawdown(path).Err? <==> exists i :: 0 <= i < |path| && path[i] < -1.0
  {}

  /** One return alone draws down what it loses. */
  lemma DrawdownOfOne(r: real)
    requires r >= -1.0
    ensures MaximumDrawdown([r]) == Ok(if r < 0.0 then -r else 0.0)
  {
    var path := [r];
    var i, j := DrawdownIsWorstRun(path);
    OneReturn(path, i, j);
    OneReturn(path, 0, 1);
    OneReturn(path, 0, 0);
    assert 1.0 - Growth(path[0..1]) <= MaximumDrawdown(path).value;
    assert 1.0 - Growth(path[0..0]) <= MaximumDrawdown(path).value;
  }

  lemma OneReturn(path: seq<real>, i: nat, j: nat)
    requires |path| == 1 && i <= j <= 1
    ensures Growth(path[i..j]) == if i < j then 1.0 + path[0] else 1.0
  {
    if i == j {
      assert path[i..j] == [];
    } else {
      assert path[i..j] == path && path[1..] == [];
    }
  }
}
