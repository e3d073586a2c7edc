/** Sorting positions by value, as `sorted(range(n), key=...)` and `argsort(kind="stable")` do,
    and counting by comparison.  Both the false-discovery correction and the average ranks
    read counts off positions in such an order; the lemmas here are what makes that sound. */
module Ordering {

  /** `order` lists each of the positions below `n` exactly once. */
  ghost predicate Permutation(order: seq<nat>, n: nat) {
    && |order| == n
    && (forall i :: 0 <= i < n ==> order[i] < n)
    && (forall i, j :: 0 <= i < j < n ==> order[i] != order[j])
  }

  ghost predicate Ascending(values: seq<real>, order: seq<nat>)
    requires forall i :: 0 <= i < |order| ==> order[i] < |values|
  {
    forall i, j :: 0 <= i < j < |order| ==> values[order[i]] <= values[order[j]]
  }

  /** Any order a sort by value may return, however it breaks ties. */
  ghost predicate Sorts(values: seq<real>, order: seq<nat>) {
    Permutation(order, |values|) && Ascending(values, order)
  }

  /** Equal values stay in position order. */
  ghost predicate Stable(values: seq<real>, order: seq<nat>)
    requires forall i :: 0 <= i < |order| ==> order[i] < |values|
  {
    forall i, j :: 0 <= i < j < |order| && values[order[i]] == values[order[j]] ==> order[i] < order[j]
  }

  // -------- counting by comparison --------

  ghost function Below(values: seq<real>, v: real): set<nat> {
    set i: nat | i < |values| && values[i] < v
  }

  ghost function Equal(values: seq<real>, v: real): set<nat> {
    set i: nat | i < |values| && values[i] == v
  }

  ghost function AtMost(values: seq<real>, v: real): set<nat> {
    set i: nat | i < |values| && values[i] <= v
  }

  // -------- the stable sort --------

  /** Where value `v` goes: after every listed position whose value does not exceed it. */
  function InsertPoint(values: seq<real>, order: seq<nat>, v: real): (k: nat)
    requires forall i :: 0 <= i < |order| ==> order[i] < |values|
    ensures k <= |order|
    ensures k > 0 ==> values[order[k - 1]] <= v
    ensures forall i :: k <= i < |order| ==> v < values[order[i]]
  {
    if order == [] || values[order[|order| - 1]] <= v then |order|
    else InsertPoint(values, order[..|order| - 1], v)
  }

  function Insert(values: seq<real>, order: seq<nat>, n: nat): (r: seq<nat>)
    requires n < |values|
    requires forall i :: 0 <= i < |order| ==> order[i] < |values|
    ensures |r| == |order| + 1
    ensures forall i :: 0 <= i < |r| ==> r[i] < |values|
  {
    var k := InsertPoint(values, order, values[n]);
    order[..k] + [n] + order[k..]
  }

  function StableOrder(values: seq<real>, n: nat := |values|): (r: seq<nat>)
    requires n <= |values|
    ensures |r| == n
    ensures forall i :: 0 <= i < n ==> r[i] < |values|
  {
    if n == 0 then [] else Insert(values, StableOrder(values, n - 1), n - 1)
  }

  lemma InsertedAt(values: seq<real>, order: seq<nat>, n: nat, i: nat)
    requires n < |values| && (forall t :: 0 <= t < |order| ==> order[t] < |values|)
    requires i <= |order|
    ensures var k := InsertPoint(values, order, values[n]);
            Insert(values, order, n)[i] == if i < k then order[i] else if i == k then n else order[i - 1]
  {}

  lemma InsertedPair(values: seq<real>, order: seq<nat>, n: nat, i: nat, j: nat)
    requires n < |values| && Permutation(order, n) && Ascending(values, order) && Stable(values, order)
    requires i < j <= n
    ensures var r := Insert(values, order, n);
            && r[i] != r[j] && values[r[i]] <= values[r[j]]
            && (values[r[i]] == values[r[j]] ==> r[i] < r[j])
  {
    var k := InsertPoint(values, order, values[n]);
    InsertedAt(values, order, n, i);
    InsertedAt(values, order, n, j);
    if j == k {
      assert i <= k - 1;
      assert i < k - 1 ==> values[order[i]] <= values[order[k - 1]];
    }
  }

  lemma InsertSorts(values: seq<real>, order: seq<nat>, n: nat)
    requires n < |values| && Permutation(order, n) && Ascending(values, order) && Stable(values, order)
    ensures var r := Insert(values, order, n);
            Permutation(r, n + 1) && Ascending(values, r) && Stable(values, r)
  {
    var r := Insert(values, order, n);
    forall i | 0 <= i < n + 1
      ensures r[i] < n + 1
    {
      InsertedAt(values, order, n, i);
    }
    forall i, j | 0 <= i < j < n + 1
      ensures r[i] != r[j] && values[r[i]] <= values[r[j]]
      ensures values[r[i]] == values[r[j]] ==> r[i] < r[j]
    {
      InsertedPair(values, order, n, i, j);
    }
  }

  lemma {:induction false} StableOrderSorts(values: seq<real>, n: nat)
    requires n <= |values|
    ensures var r := StableOrder(values, n);
            Permutation(r, n) && Ascending(values, r) && Stable(values, r)
  {
    if n == 0 {
    } else {
      StableOrderSorts(values, n - 1);
      InsertSorts(values, StableOrder(values, n - 1), n - 1);
    }
  }

  // -------- positions and counts --------

  ghost function Image(order: seq<nat>, k: nat): set<nat>
    requires k <= |order|
  {
    set i | 0 <= i < k :: order[i]
  }

  lemma {:induction false} ImageSize(order: seq<nat>, k: nat)
    requires k <= |order|
    requires forall i, j :: 0 <= i < j < |order| ==> order[i] != order[j]
    ensures |Image(order, k)| == k
  {
    if k == 0 {
    } else {
      ImageSize(order, k - 1);
      assert Image(order, k) == Image(order, k - 1) + {order[k - 1]};
    }
  }

  ghost function Positions(n: nat): (s: set<nat>)
    ensures |s| == n
    ensures forall i: nat :: i in s <==> i < n
  {
    if n == 0 then {} else Positions(n - 1) + {n - 1}
  }

  lemma SubsetOfSameSize(a: set<nat>, b: set<nat>)
    requires a <= b && |a| == |b|
    ensures a == b
  {
    assert b == a + (b - a);
  }

  /** Every position has a place in the order. */
  lemma PlaceOf(order: seq<nat>, n: nat, i: nat) returns (k: nat)
    requires Permutation(order, n) && i < n
    ensures k < n && order[k] == i
  {
    ImageSize(order, n);
    SubsetOfSameSize(Image(order, n), Positions(n));
    assert i in Image(order, n);
    k :| 0 <= k < n && order[k] == i;
  }

  /** When the first `k` places hold exactly the positions in `s`, `s` has `k` members. */
  lemma CountByPlace(order: seq<nat>, n: nat, k: nat, s: set<nat>)
    requires Permutation(order, n) && k <= n
    requires forall i: nat :: i in s ==> i < n
    requires forall t :: 0 <= t < n ==> (order[t] in s <==> t < k)
    ensures |s| == k && s == Image(order, k)
  {
    forall i | i in s
      ensures i in Image(order, k)
    {
      var t := PlaceOf(order, n, i);
      assert order[t] in s;
    }
    assert s == Image(order, k);
    ImageSize(order, k);
  }

  /** The positions whose value is at most `v` fill an initial stretch of the order. */
  lemma {:induction false} AtMostPlaces(values: seq<real>, order: seq<nat>, v: real)
    requires Sorts(values, order)
    ensures |AtMost(values, v)| <= |values|
    ensures forall t :: 0 <= t < |order| ==> (values[order[t]] <= v <==> t < |AtMost(values, v)|)
  {
    var k := 0;
    while k < |order| && values[order[k]] <= v
      invariant 0 <= k <= |order|
      invariant forall t :: 0 <= t < k ==> values[order[t]] <= v
    {
      k := k + 1;
    }
    CountByPlace(order, |values|, k, AtMost(values, v));
  }

  /** The positions whose value is below `v` fill an initial stretch of the order. */
  lemma {:induction false} BelowPlaces(values: seq<real>, order: seq<nat>, v: real)
    requires Sorts(values, order)
    ensures |Below(values, v)| <= |values|
    ensures forall t :: 0 <= t < |order| ==> (values[order[t]] < v <==> t < |Below(values, v)|)
  {
    var k := 0;
    while k < |order| && values[order[k]] < v
      invariant 0 <= k <= |order|
      invariant forall t :: 0 <= t < k ==> values[order[t]] < v
    {
      k := k + 1;
    }
    CountByPlace(order, |values|, k, Below(values, v));
  }

  lemma BelowPlusEqual(values: seq<real>, v: real)
    ensures |AtMost(values, v)| == |Below(values, v)| + |Equal(values, v)|
  {
    assert AtMost(values, v) == Below(values, v) + Equal(values, v);
    assert Below(values, v) !! Equal(values, v);
  }
}
