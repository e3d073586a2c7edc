/** Fisher's one-sided exact test that BUY sessions rise more often than the others
    (dashboard/significance.py). */
module FisherExact {
  import opened Arithmetic

  /** `math.comb`, by Pascal's rule; zero outside `0..n`. */
  function Comb(n: nat, k: int): nat {
    if k == 0 then 1
    else if k < 0 || n == 0 then 0
    else Comb(n - 1, k - 1) + Comb(n - 1, k)
  }

  /** One 2x2 table: rows are BUY and other sessions, columns are up and down sessions. */
  datatype Table = Table(signalUp: nat, signalDown: nat, otherUp: nat, otherDown: nat) {
    function SignalRow(): nat { signalUp + signalDown }
    function OtherRow(): nat { otherUp + otherDown }
    function UpColumn(): nat { signalUp + otherUp }
    function DownColumn(): nat { signalDown + otherDown }
    function Total(): nat { SignalRow() + OtherRow() }
    predicate HasEmptyMargin() {
      SignalRow() == 0 || OtherRow() == 0 || UpColumn() == 0 || DownColumn() == 0
    }
  }

  /** Ways to put `count` of `r` signals on `up` sessions and the others on `down` sessions. */
  function Weight(up: nat, down: nat, r: int, count: int): nat {
    Comb(up, count) * Comb(down, r - count)
  }

  lemma WeightPascal(up: nat, down: nat, r: int, count: int)
    ensures Weight(up + 1, down, r, count) == Weight(up, down, r, count) + Weight(up, down, r - 1, count - 1)
  {
    var a, b, c := Comb(up, count), Comb(up, count - 1), Comb(down, r - count);
    assert Comb(up + 1, count) == a + b;
    Distribute(a, b, c);
  }

  /** `probability(count)`: the hypergeometric weight of `count` up sessions among the signals. */
  function Probability(t: Table, count: nat): real
    requires count <= t.SignalRow() && Comb(t.Total(), t.SignalRow()) > 0
  {
    Weight(t.UpColumn(), t.DownColumn(), t.SignalRow(), count) as real / Comb(t.Total(), t.SignalRow()) as real
  }

  function SumOfProbabilities(t: Table, count: nat, highest: nat): real
    requires highest <= t.SignalRow() && Comb(t.Total(), t.SignalRow()) > 0
    decreases highest + 1 - count
  {
    if count > highest then 0.0
    else Probability(t, count) + SumOfProbabilities(t, count + 1, highest)
  }

  function FisherExactGreater(t: Table): real {
    if t.Total() == 0 || t.HasEmptyMargin() then 1.0
    else
      CombPositive(t.Total(), t.SignalRow());
      SumOfProbabilities(t, t.signalUp, Min(t.SignalRow(), t.UpColumn()))
  }

  function Min(a: nat, b: nat): nat { if a <= b then a else b }

  lemma {:induction false} CombPositive(n: nat, k: int)
    ensures Comb(n, k) > 0 <==> 0 <= k <= n
  {
    if n > 0 && k > 0 {
      CombPositive(n - 1, k - 1);
      CombPositive(n - 1, k);
    }
  }

  /** The number of ways to place `r` signals so that at least `least` fall on the `up` sessions,
      as the sum the tail adds up before dividing. */
  function TailCount(up: nat, down: nat, r: int, least: int): nat
    decreases r + 1 - least
  {
    if least > r then 0
    else Weight(up, down, r, least) + TailCount(up, down, r, least + 1)
  }

  lemma {:induction false} TailCountPascal(up: nat, down: nat, r: int, least: int)
    ensures TailCount(up + 1, down, r, least) == TailCount(up, down, r, least) + TailCount(up, down, r - 1, least - 1)
    decreases r + 1 - least
  {
    if least <= r {
      TailCountPascal(up, down, r, least + 1);
      WeightPascal(up, down, r, least);
    }
  }

  lemma {:induction false} TailCountNoUp(down: nat, r: int, least: int)
    ensures TailCount(0, down, r, least) == if least <= 0 then Comb(down, r) else 0
    decreases r + 1 - least
  {
    if least <= r {
      TailCountNoUp(down, r, least + 1);
    }
  }

  /** Vandermonde's identity: over the whole support the products sum to one binomial. */
  lemma {:induction false} Vandermonde(up: nat, down: nat, r: int, least: int)
    requires least <= 0
    ensures TailCount(up, down, r, least) == Comb(up + down, r)
    decreases up
  {
    if up == 0 {
      TailCountNoUp(down, r, least);
    } else {
      TailCountPascal(up - 1, down, r, least);
      Vandermonde(up - 1, down, r, least);
      Vandermonde(up - 1, down, r - 1, least - 1);
    }
  }

  /** The real sum over the range the code walks is the counted tail over all tables. */
  lemma {:induction false} SumIsTailCount(t: Table, count: nat)
    requires Comb(t.Total(), t.SignalRow()) > 0
    ensures SumOfProbabilities(t, count, Min(t.SignalRow(), t.UpColumn()))
         == TailCount(t.UpColumn(), t.DownColumn(), t.SignalRow(), count) as real
            / Comb(t.Total(), t.SignalRow()) as real
    decreases t.SignalRow() + 1 - count
  {
    var up, down, r := t.UpColumn(), t.DownColumn(), t.SignalRow();
    if count > Min(r, up) {
      NoTailBeyondColumn(up, down, r, count);
    } else {
      SumIsTailCount(t, count + 1);
      SumOfFractions(Weight(up, down, r, count), TailCount(up, down, r, count + 1), Comb(t.Total(), r));
    }
  }

  lemma {:induction false} NoTailBeyondColumn(up: nat, down: nat, r: int, least: int)
    requires least > r || least > up
    ensures TailCount(up, down, r, least) == 0
    decreases r + 1 - least
  {
    if least <= r {
      NoTailBeyondColumn(up, down, r, least + 1);
      WeightPositive(up, down, r, least);
    }
  }

  // -------- what the tail means: a share of equally likely signal assignments --------

  /** All ways to call `r` of the `sessions` signals with at least `least` of them in `up`. */
  ghost function Assignments(sessions: set<nat>, up: set<nat>, r: int, least: int): set<set<nat>> {
    set s: set<nat> | s <= sessions && |s| == r && |s * up| >= least
  }

  ghost function WithMember(family: set<set<nat>>, x: nat): set<set<nat>> {
    set s | s in family :: s + {x}
  }

  lemma SameWithoutMember(s: set<nat>, u: set<nat>, x: nat)
    requires x !in s && x !in u && s + {x} == u + {x}
    ensures s == u
  {
    assert s == (s + {x}) - {x};
    assert u == (u + {x}) - {x};
  }

  lemma {:induction false} WithMemberSize(family: set<set<nat>>, x: nat)
    requires forall s :: s in family ==> x !in s
    ensures |WithMember(family, x)| == |family|
  {
    if family == {} {
      assert WithMember(family, x) == {};
    } else {
      var s :| s in family;
      var rest := family - {s};
      WithMemberSize(rest, x);
      assert s + {x} !in WithMember(rest, x) by {
        if s + {x} in WithMember(rest, x) {
          var u :| u in rest && u + {x} == s + {x};
          SameWithoutMember(u, s, x);
          assert false;
        }
      }
      assert WithMember(family, x) == WithMember(rest, x) + {s + {x}};
    }
  }

  /** Splitting on whether session `x` carries the signal. */
  lemma AssignmentsSplit(sessions: set<nat>, up: set<nat>, r: int, least: int, x: nat, hit: int)
    requires x in sessions && hit == if x in up then 1 else 0
    ensures |Assignments(sessions, up, r, least)|
         == |Assignments(sessions - {x}, up - {x}, r, least)|
            + |Assignments(sessions - {x}, up - {x}, r - 1, least - hit)|
  {
    AvoidsMember(sessions, up - {x}, r, least, x);
    AvoidsMember(sessions, up - {x}, r - 1, least - hit, x);
    forall s: set<nat> {
      SplitOne(sessions, up, r, least, x, hit, s);
    }
    SplitSize(Assignments(sessions, up, r, least), Assignments(sessions - {x}, up - {x}, r, least),
              Assignments(sessions - {x}, up - {x}, r - 1, least - hit), x);
  }

  lemma AvoidsMember(sessions: set<nat>, up: set<nat>, r: int, least: int, x: nat)
    ensures forall s :: s in Assignments(sessions - {x}, up, r, least) ==> x !in s
  {}

  lemma HasMember(family: set<set<nat>>, x: nat)
    ensures forall s :: s in WithMember(family, x) ==> x in s
  {}

  lemma SplitOne(sessions: set<nat>, up: set<nat>, r: int, least: int, x: nat, hit: int, s: set<nat>)
    requires x in sessions && hit == if x in up then 1 else 0
    ensures s in Assignments(sessions, up, r, least) <==>
            || s in Assignments(sessions - {x}, up - {x}, r, least)
            || s in WithMember(Assignments(sessions - {x}, up - {x}, r - 1, least - hit), x)
  {
    if x in s {
      AvoidsMember(sessions, up - {x}, r, least, x);
      SplitWith(sessions, up, r, least, x, hit, s);
    } else {
      HasMember(Assignments(sessions - {x}, up - {x}, r - 1, least - hit), x);
      SplitWithout(sessions, up, r, least, x, s);
    }
  }

  lemma SplitSize(all: set<set<nat>>, without: set<set<nat>>, base: set<set<nat>>, x: nat)
    requires forall s :: s in without || s in base ==> x !in s
    requires forall s :: s in all <==> s in without || s in WithMember(base, x)
    ensures |all| == |without| + |base|
  {
    WithMemberSize(base, x);
    HasMember(base, x);
    assert all == without + WithMember(base, x);
    assert without !! WithMember(base, x);
  }

  lemma SplitWithout(sessions: set<nat>, up: set<nat>, r: int, least: int, x: nat, s: set<nat>)
    requires x in sessions && x !in s
    ensures s in Assignments(sessions, up, r, least) <==> s in Assignments(sessions - {x}, up - {x}, r, least)
  {
    assert s * (up - {x}) == s * up;
  }

  lemma SplitWith(sessions: set<nat>, up: set<nat>, r: int, least: int, x: nat, hit: int, s: set<nat>)
    requires x in sessions && x in s && hit == if x in up then 1 else 0
    ensures s in Assignments(sessions, up, r, least)
            <==> s in WithMember(Assignments(sessions - {x}, up - {x}, r - 1, least - hit), x)
  {
    var base := Assignments(sessions - {x}, up - {x}, r - 1, least - hit);
    var u := s - {x};
    assert s == u + {x};
    if x in up {
      assert s * up == u * (up - {x}) + {x};
    } else {
      assert s * up == u * (up - {x});
    }
    assert |s * up| == |u * (up - {x})| + hit;
    assert s in Assignments(sessions, up, r, least) <==> u in base;
    if s in WithMember(base, x) {
      var w :| w in base && w + {x} == s;
      SameWithoutMember(w, u, x);
    }
  }

  /** The tail sum counts exactly the assignments at least as favourable as the one observed. */
  lemma {:induction false} TailCountsAssignments(sessions: set<nat>, up: set<nat>, u: nat, d: nat, r: int, least: int)
    requires up <= sessions && |up| == u && |sessions - up| == d
    ensures |Assignments(sessions, up, r, least)| == TailCount(u, d, r, least)
    decreases u
  {
    if u > 0 {
      var x :| x in up;
      var rest, fewer := sessions - {x}, up - {x};
      assert rest - fewer == sessions - up;
      TailCountsAssignments(rest, fewer, u - 1, d, r, least);
      TailCountsAssignments(rest, fewer, u - 1, d, r - 1, least - 1);
      TailCountPascal(u - 1, d, r, least);
      AssignmentsSplit(sessions, up, r, least, x, 1);
    } else {
      assert up == {};
      CountRestWithoutUp(sessions, r, least);
      assert sessions - up == sessions;
      TailCountNoUp(d, r, least);
    }
  }

  lemma CountWithoutUp(sessions: set<nat>, r: int, least: int, x: nat)
    requires x in sessions
    ensures |Assignments(sessions, {}, r, least)| == if least <= 0 then Comb(|sessions|, r) else 0
    decreases |sessions|, 1
  {
    var rest := sessions - {x};
    AssignmentsSplit(sessions, {}, r, least, x, 0);
    assert {} - {x} == {};
    CountRestWithoutUp(rest, r, least);
    CountRestWithoutUp(rest, r - 1, least);
  }

  lemma CountRestWithoutUp(sessions: set<nat>, r: int, least: int)
    ensures |Assignments(sessions, {}, r, least)| == if least <= 0 then Comb(|sessions|, r) else 0
    decreases |sessions|, 2
  {
    if sessions == {} {
      NoSessions(r, least);
    } else {
      var x :| x in sessions;
      CountWithoutUp(sessions, r, least, x);
    }
  }

  lemma NoSessions(r: int, least: int)
    ensures |Assignments({}, {}, r, least)| == if least <= 0 && r == 0 then 1 else 0
  {
    var all := Assignments({}, {}, r, least);
    assert forall s :: s in all ==> s == {};
    if r == 0 && least <= 0 {
      var none: set<nat> := {};
      assert |none * none| == 0;
      assert all == {none};
    } else {
      assert all == {};
    }
  }

  /** The returned p-value is a permutation probability: of all equally likely choices of which
      sessions the signals fell on, the share with at least as many up sessions as observed. */
  lemma FisherIsPermutationShare(t: Table, sessions: set<nat>, up: set<nat>)
    requires up <= sessions && |up| == t.signalUp + t.otherUp
    requires |sessions| == t.signalUp + t.signalDown + t.otherUp + t.otherDown
    ensures var signals := t.signalUp + t.signalDown;
            && |Assignments(sessions, up, signals, 0)| > 0
            && FisherExactGreater(t)
               == |Assignments(sessions, up, signals, t.signalUp)| as real
                  / |Assignments(sessions, up, signals, 0)| as real
  {
    var r := t.SignalRow();
    FisherIsTailShare(t);
    assert sessions == up + (sessions - up);
    assert |sessions - up| == t.DownColumn();
    TailCountsAssignments(sessions, up, t.UpColumn(), t.DownColumn(), r, t.signalUp);
    TailCountsAssignments(sessions, up, t.UpColumn(), t.DownColumn(), r, 0);
  }

  lemma FisherIsTailShare(t: Table)
    ensures var up, down, r := t.UpColumn(), t.DownColumn(), t.SignalRow();
            TailCount(up, down, r, 0) > 0
            && FisherExactGreater(t) == TailCount(up, down, r, t.signalUp) as real / TailCount(up, down, r, 0) as real
  {
    var r := t.SignalRow();
    CombPositive(t.Total(), r);
    Vandermonde(t.UpColumn(), t.DownColumn(), r, 0);
    if t.HasEmptyMargin() {
      TailHasWholeSupport(t.UpColumn(), t.DownColumn(), r, 0, t.signalUp);
      DivideSelf(Comb(t.Total(), r) as real);
    } else {
      SumIsTailCount(t, t.signalUp);
    }
  }

  /** The hypergeometric probabilities over the whole support sum to exactly one. */
  lemma ProbabilitiesSumToOne(t: Table)
    ensures Comb(t.Total(), t.SignalRow()) > 0
    ensures SumOfProbabilities(t, 0, Min(t.SignalRow(), t.UpColumn())) == 1.0
  {
    CombPositive(t.Total(), t.SignalRow());
    Vandermonde(t.UpColumn(), t.DownColumn(), t.SignalRow(), 0);
    SumIsTailCount(t, 0);
    var all := Comb(t.Total(), t.SignalRow());
    ShareOrder(all, all, all);
  }

  lemma {:induction false} TailCountFalls(up: nat, down: nat, r: int, a: int, b: int)
    requires a <= b
    ensures TailCount(up, down, r, a) >= TailCount(up, down, r, b)
    ensures a < b && a <= r && Weight(up, down, r, a) > 0 ==> TailCount(up, down, r, a) > TailCount(up, down, r, b)
    decreases b - a
  {
    if a < b {
      TailCountFalls(up, down, r, a + 1, b);
    }
  }

  lemma WeightPositive(up: nat, down: nat, r: int, k: int)
    ensures Weight(up, down, r, k) > 0 <==> 0 <= k <= up && 0 <= r - k <= down
  {
    CombPositive(up, k);
    CombPositive(down, r - k);
    if Comb(up, k) > 0 && Comb(down, r - k) > 0 {
      MulPositive(Comb(up, k), Comb(down, r - k));
    }
  }

  lemma ShareOrder(a: nat, b: nat, c: nat)
    requires c > 0
    ensures a < b ==> a as real / c as real < b as real / c as real
    ensures a == c ==> a as real / c as real == 1.0
    ensures a > 0 ==> a as real / c as real > 0.0
  {
    DivideSelf(c as real);
  }

  /** The p-value lies in (0, 1], and is 1 exactly when the margins leave nothing less
      favourable: no up signal, or no down session outside the signals. */
  lemma FisherRange(t: Table)
    ensures 0.0 < FisherExactGreater(t) <= 1.0
    ensures FisherExactGreater(t) == 1.0 <==> t.signalUp == 0 || t.otherDown == 0
  {
    if !t.HasEmptyMargin() {
      var up, down, r := t.UpColumn(), t.DownColumn(), t.SignalRow();
      var all := Comb(t.Total(), r);
      var tail := TailCount(up, down, r, t.signalUp);
      CombPositive(t.Total(), r);
      SumIsTailCount(t, t.signalUp);
      Vandermonde(up, down, r, 0);
      TailCountFalls(up, down, r, 0, t.signalUp);
      WeightPositive(up, down, r, t.signalUp);
      assert tail > 0;
      ShareOrder(tail, all, all);
      ShareOrder(all, all, all);
      if t.signalUp > 0 && t.otherDown > 0 {
        WeightPositive(up, down, r, t.signalUp - 1);
        TailCountFalls(up, down, r, t.signalUp - 1, t.signalUp);
        TailCountFalls(up, down, r, 0, t.signalUp - 1);
      } else {
        TailHasWholeSupport(up, down, r, 0, t.signalUp);
      }
    }
  }

  /** Below the smallest count the margins allow there is no weight. */
  lemma {:induction false} TailHasWholeSupport(up: nat, down: nat, r: int, a: int, least: int)
    requires a <= least && least <= r && (least <= 0 || r - least == down)
    ensures TailCount(up, down, r, a) == TailCount(up, down, r, least)
    decreases least - a
  {
    if a < least {
      TailHasWholeSupport(up, down, r, a + 1, least);
      WeightPositive(up, down, r, a);
    }
  }

  /** With the margins fixed, one more up signal strictly lowers the p-value. */
  lemma FisherStrictlyFalls(t: Table)
    requires t.signalDown > 0 && t.otherUp > 0
    ensures var more := Table(t.signalUp + 1, t.signalDown - 1, t.otherUp - 1, t.otherDown + 1);
            FisherExactGreater(more) < FisherExactGreater(t)
  {
    var more := Table(t.signalUp + 1, t.signalDown - 1, t.otherUp - 1, t.otherDown + 1);
    var up, down, r := t.UpColumn(), t.DownColumn(), t.SignalRow();
    CombPositive(t.Total(), r);
    SumIsTailCount(t, t.signalUp);
    SumIsTailCount(more, more.signalUp);
    WeightPositive(up, down, r, t.signalUp);
    TailCountFalls(up, down, r, t.signalUp, t.signalUp + 1);
    ShareOrder(TailCount(up, down, r, t.signalUp + 1), TailCount(up, down, r, t.signalUp), Comb(t.Total(), r));
  }
}
