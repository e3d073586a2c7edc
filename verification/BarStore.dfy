/** Append-only bar revisions (database/repository.py, class MarketDataRepository): identical
    rows are reused, corrected ones are kept beside the row they correct. */
module BarStore {
  import opened Wrappers

  // ------------------------------------------------------------------
  // Bars, rows and keys
  // ------------------------------------------------------------------

  datatype TableName = MarketData | StockPrice
  datatype Evidence = FirstObserved | ProviderTimestamp | ProviderSlaEstimate | PublishedSchedule
  datatype Quality = Official | EodConfirmed | FreeUnverified | Delayed | MissingData

  const CORRECTED_REVISION := "corrected_revision"

  /** A normalized provider row; instants and dates are integers. */
  datatype RawBar = Bar(
    canonicalSymbol: string, symbol: string, provider: string, interval: string, marketDate: int,
    timestamp: int, available: int, firstObserved: int, retrieved: int,
    evidence: Evidence, quality: Quality, open: Option<real>, close: real,
    rawHash: Option<string>, flags: set<string>)
  {
    /** What the record's own constructor enforces. */
    predicate WellTimed() {
      timestamp <= available <= firstObserved <= retrieved
    }
  }

  type Bar = b: RawBar | b.WellTimed()
    witness Bar("", "", "", "", 0, 0, 0, 0, 0, FirstObserved, Official, None, 0.0, None, {})

  /** A bar bound for the table its symbol belongs in. */
  datatype Incoming = Incoming(table: TableName, bar: Bar)

  /** One logical series within one table. */
  datatype Group = Group(table: TableName, provider: string, symbol: string, interval: string)

  /** The columns of the revision uniqueness rule. */
  datatype Key = Key(group: Group, timestamp: int, hash: Option<string>)

  datatype Row = Row(table: TableName, bar: Bar, lastSeen: int)

  function GroupOf(table: TableName, bar: Bar): Group {
    Group(table, bar.provider, bar.symbol, bar.interval)
  }

  function KeyOf(table: TableName, bar: Bar): Key {
    Key(GroupOf(table, bar), bar.timestamp, bar.rawHash)
  }

  function RowKey(row: Row): Key {
    KeyOf(row.table, row.bar)
  }

  /** A later revision may not claim to have been available before it was seen. */
  function Corrected(bar: Bar): (r: Bar)
    ensures r.available == r.firstObserved == bar.firstObserved && r.retrieved == bar.retrieved
    ensures forall table :: KeyOf(table, r) == KeyOf(table, bar)
  {
    bar.(available := bar.firstObserved, evidence := FirstObserved, flags := bar.flags + {CORRECTED_REVISION})
  }

  function Resolve(rows: seq<Bar>, stocks: set<string>): seq<Incoming> {
    seq(|rows|, i requires 0 <= i < |rows| =>
      Incoming(if rows[i].canonicalSymbol in stocks then StockPrice else MarketData, rows[i]))
  }

  // ------------------------------------------------------------------
  // One row at a time: the specification
  // ------------------------------------------------------------------

  type Table = map<Key, Row>

  ghost predicate SlotTaken(t: Table, g: Group, timestamp: int) {
    exists hash :: Key(g, timestamp, hash) in t
  }

  ghost function UpsertOne(t: Table, e: Incoming): Table {
    var k := KeyOf(e.table, e.bar);
    if k in t then
      if e.bar.retrieved > t[k].lastSeen then t[k := t[k].(lastSeen := e.bar.retrieved)] else t
    else
      t[k := Row(e.table, if SlotTaken(t, k.group, k.timestamp) then Corrected(e.bar) else e.bar, e.bar.retrieved)]
  }

  ghost function UpsertAll(t: Table, entries: seq<Incoming>): Table {
    if entries == [] then t
    else UpsertOne(UpsertAll(t, entries[..|entries| - 1]), entries[|entries| - 1])
  }

  /** Cutting a run of rows into batches anywhere makes no difference. */
  lemma {:induction false} UpsertInBatches(t: Table, a: seq<Incoming>, b: seq<Incoming>)
    ensures UpsertAll(UpsertAll(t, a), b) == UpsertAll(t, a + b)
  {
    if b == [] {
      assert a + b == a;
    } else {
      var init := b[..|b| - 1];
      UpsertInBatches(t, a, init);
      assert (a + b)[..|a + b| - 1] == a + init;
    }
  }

  // -------- repeating a batch changes nothing --------

  /** The row of `e` is stored and was last seen no earlier than `e` was retrieved. */
  ghost predicate Absorbed(t: Table, e: Incoming) {
    KeyOf(e.table, e.bar) in t && t[KeyOf(e.table, e.bar)].lastSeen >= e.bar.retrieved
  }

  lemma {:induction false} AllAbsorbed(t: Table, entries: seq<Incoming>)
    ensures forall i :: 0 <= i < |entries| ==> Absorbed(UpsertAll(t, entries), entries[i])
  {
    if entries == [] {
    } else {
      var init := entries[..|entries| - 1];
      AllAbsorbed(t, init);
      assert forall i :: 0 <= i < |init| ==> entries[i] == init[i];
    }
  }

  lemma {:induction false} AbsorbedChangesNothing(t: Table, entries: seq<Incoming>)
    requires forall i :: 0 <= i < |entries| ==> Absorbed(t, entries[i])
    ensures UpsertAll(t, entries) == t
  {
    if entries == [] {
    } else {
      AbsorbedChangesNothing(t, entries[..|entries| - 1]);
    }
  }

  lemma RepeatedBatchChangesNothing(t: Table, entries: seq<Incoming>)
    ensures UpsertAll(UpsertAll(t, entries), entries) == UpsertAll(t, entries)
  {
    AllAbsorbed(t, entries);
    AbsorbedChangesNothing(UpsertAll(t, entries), entries);
  }

  // -------- the whole history in closed form --------

  ghost predicate FirstWithKey(entries: seq<Incoming>, i: nat)
    requires i < |entries|
  {
    forall j :: 0 <= j < i ==> KeyOf(entries[j].table, entries[j].bar) != KeyOf(entries[i].table, entries[i].bar)
  }

  ghost predicate SameSlot(a: Incoming, b: Incoming) {
    GroupOf(a.table, a.bar) == GroupOf(b.table, b.bar) && a.bar.timestamp == b.bar.timestamp
  }

  ghost predicate FirstInSlot(entries: seq<Incoming>, i: nat)
    requires i < |entries|
  {
    forall j :: 0 <= j < i ==> !SameSlot(entries[j], entries[i])
  }

  /** `row` is what the first arrival `i` of its key left behind: verbatim when it was the first
      of its slot, otherwise with its availability moved to its first observation; last seen
      at the latest retrieval of that key. */
  ghost predicate RowOfArrival(entries: seq<Incoming>, i: nat, row: Row)
    requires i < |entries|
  {
    && row.table == entries[i].table
    && row.bar == (if FirstInSlot(entries, i) then entries[i].bar else Corrected(entries[i].bar))
    && LatestRetrieval(entries, KeyOf(entries[i].table, entries[i].bar), row.lastSeen)
  }

  ghost predicate LatestRetrieval(entries: seq<Incoming>, k: Key, seen: int) {
    && (forall j :: 0 <= j < |entries| && KeyOf(entries[j].table, entries[j].bar) == k ==>
          entries[j].bar.retrieved <= seen)
    && (exists j ::
         0 <= j < |entries| && KeyOf(entries[j].table, entries[j].bar) == k && entries[j].bar.retrieved == seen)
  }

  /** `t` holds one row for each key that arrived, and nothing else. */
  ghost predicate IsHistory(t: Table, entries: seq<Incoming>) {
    && (forall i :: 0 <= i < |entries| ==> KeyOf(entries[i].table, entries[i].bar) in t)
    && (forall k :: k in t ==> ArrivedAs(t[k], k, entries))
  }

  ghost predicate ArrivedAs(row: Row, k: Key, entries: seq<Incoming>) {
    exists i: nat :: i < |entries| && KeyOf(entries[i].table, entries[i].bar) == k && FirstWithKey(entries, i)
                     && RowOfArrival(entries, i, row)
  }

  /** Starting from an empty table, the table after any run of rows in any batches is fully
      determined by the arrivals. */
  lemma {:induction false} TableIsHistory(entries: seq<Incoming>)
    ensures IsHistory(UpsertAll(map[], entries), entries)
  {
    if entries == [] {
    } else {
      var init, e := entries[..|entries| - 1], entries[|entries| - 1];
      assert entries == init + [e];
      TableIsHistory(init);
      HistoryStep(UpsertAll(map[], init), init, e);
    }
  }

  lemma HistoryStep(t: Table, init: seq<Incoming>, e: Incoming)
    requires IsHistory(t, init)
    ensures IsHistory(UpsertOne(t, e), init + [e])
  {
    var entries, k, after := init + [e], KeyOf(e.table, e.bar), UpsertOne(t, e);
    var n := |init|;
    assert forall i :: 0 <= i < n ==> entries[i] == init[i];
    SlotHistory(t, init, k);
    forall q | q in after
      ensures ArrivedAs(after[q], q, entries)
    {
      if q != k {
        OtherKeyStep(t[q], q, init, e);
      } else if k in t {
        SameKeyStep(t[k], init, e);
      } else {
        NewKeyStep(t, init, e);
      }
    }
  }

  lemma SlotHistory(t: Table, init: seq<Incoming>, k: Key)
    requires IsHistory(t, init)
    ensures SlotTaken(t, k.group, k.timestamp)
            <==> exists j ::
                  0 <= j < |init| && GroupOf(init[j].table, init[j].bar) == k.group
                  && init[j].bar.timestamp == k.timestamp
  {}

  lemma ExtendRow(entries: seq<Incoming>, e: Incoming, i: nat)
    requires i < |entries|
    ensures FirstWithKey(entries + [e], i) == FirstWithKey(entries, i)
    ensures FirstInSlot(entries + [e], i) == FirstInSlot(entries, i)
  {
    assert forall j :: 0 <= j <= i ==> (entries + [e])[j] == entries[j];
  }

  lemma ExtendLatest(entries: seq<Incoming>, e: Incoming, k: Key, seen: int)
    requires LatestRetrieval(entries, k, seen)
    ensures LatestRetrieval(entries + [e], k,
              if KeyOf(e.table, e.bar) == k && e.bar.retrieved > seen then e.bar.retrieved else seen)
  {
    var all := entries + [e];
    assert forall j :: 0 <= j < |entries| ==> all[j] == entries[j];
    assert all[|entries|] == e;
    var j :| 0 <= j < |entries| && KeyOf(entries[j].table, entries[j].bar) == k && entries[j].bar.retrieved == seen;
    assert KeyOf(all[j].table, all[j].bar) == k && all[j].bar.retrieved == seen;
  }

  lemma OtherKeyStep(row: Row, q: Key, init: seq<Incoming>, e: Incoming)
    requires ArrivedAs(row, q, init) && q != KeyOf(e.table, e.bar)
    ensures ArrivedAs(row, q, init + [e])
  {
    var i: nat :| i < |init| && KeyOf(init[i].table, init[i].bar) == q && FirstWithKey(init, i)
        && RowOfArrival(init, i, row);
    ExtendRow(init, e, i);
    ExtendLatest(init, e, q, row.lastSeen);
    assert (init + [e])[i] == init[i];
  }

  lemma SameKeyStep(row: Row, init: seq<Incoming>, e: Incoming)
    requires ArrivedAs(row, KeyOf(e.table, e.bar), init)
    ensures ArrivedAs(if e.bar.retrieved > row.lastSeen then row.(lastSeen := e.bar.retrieved) else row,
                      KeyOf(e.table, e.bar), init + [e])
  {
    var k := KeyOf(e.table, e.bar);
    var i: nat :| i < |init| && KeyOf(init[i].table, init[i].bar) == k && FirstWithKey(init, i)
        && RowOfArrival(init, i, row);
    ExtendRow(init, e, i);
    ExtendLatest(init, e, k, row.lastSeen);
    assert (init + [e])[i] == init[i];
  }

  lemma NewKeyStep(t: Table, init: seq<Incoming>, e: Incoming)
    requires IsHistory(t, init) && KeyOf(e.table, e.bar) !in t
    ensures ArrivedAs(UpsertOne(t, e)[KeyOf(e.table, e.bar)], KeyOf(e.table, e.bar), init + [e])
  {
    var entries, n := init + [e], |init|;
    var row := UpsertOne(t, e)[KeyOf(e.table, e.bar)];
    assert entries[n] == e;
    FirstOfKey(t, init, e);
    FirstOfSlot(t, init, e);
    OnlyRetrieval(t, init, e);
    assert RowOfArrival(entries, n, row) && FirstWithKey(entries, n);
  }

  lemma FirstOfKey(t: Table, init: seq<Incoming>, e: Incoming)
    requires IsHistory(t, init) && KeyOf(e.table, e.bar) !in t
    ensures FirstWithKey(init + [e], |init|)
  {
    assert forall j :: 0 <= j < |init| ==> (init + [e])[j] == init[j] && KeyOf(init[j].table, init[j].bar) in t;
  }

  lemma FirstOfSlot(t: Table, init: seq<Incoming>, e: Incoming)
    requires IsHistory(t, init)
    ensures FirstInSlot(init + [e], |init|) <==> !SlotTaken(t, GroupOf(e.table, e.bar), e.bar.timestamp)
  {
    var entries, k := init + [e], KeyOf(e.table, e.bar);
    SlotHistory(t, init, k);
    assert forall j :: 0 <= j < |init| ==> entries[j] == init[j];
    if SlotTaken(t, k.group, k.timestamp) {
      var j :| 0 <= j < |init| && GroupOf(init[j].table, init[j].bar) == k.group
          && init[j].bar.timestamp == k.timestamp;
      assert SameSlot(entries[j], entries[|init|]);
    }
  }

  lemma OnlyRetrieval(t: Table, init: seq<Incoming>, e: Incoming)
    requires IsHistory(t, init) && KeyOf(e.table, e.bar) !in t
    ensures LatestRetrieval(init + [e], KeyOf(e.table, e.bar), e.bar.retrieved)
  {
    var entries := init + [e];
    assert entries[|init|] == e;
    assert forall j :: 0 <= j < |init| ==> entries[j] == init[j] && KeyOf(init[j].table, init[j].bar) in t;
  }

  /** A row whose availability is not its first observation is the first arrival of its slot. */
  lemma ClaimMeansFirst(row: Row, k: Key, entries: seq<Incoming>) returns (i: nat)
    requires ArrivedAs(row, k, entries) && row.bar.available != row.bar.firstObserved
    ensures i < |entries| && KeyOf(entries[i].table, entries[i].bar) == k && FirstInSlot(entries, i)
  {
    i :| i < |entries| && KeyOf(entries[i].table, entries[i].bar) == k && FirstWithKey(entries, i)
    && RowOfArrival(entries, i, row);
  }

  /** At most the first revision of a slot keeps the availability its provider claimed: of two
      different revisions one has its first observation as availability. */
  lemma OnlyFirstRevisionKeepsClaim(entries: seq<Incoming>, p: Key, q: Key)
    requires p in UpsertAll(map[], entries) && q in UpsertAll(map[], entries)
    requires p != q && p.group == q.group && p.timestamp == q.timestamp
    ensures || UpsertAll(map[], entries)[p].bar.available == UpsertAll(map[], entries)[p].bar.firstObserved
            || UpsertAll(map[], entries)[q].bar.available == UpsertAll(map[], entries)[q].bar.firstObserved
  {}

  /** Every stored row has event <= available <= first observed <= retrieved <= last seen. */
  lemma StoredInstantsOrdered(entries: seq<Incoming>, k: Key)
    requires k in UpsertAll(map[], entries)
    ensures var row := UpsertAll(map[], entries)[k];
            row.bar.timestamp <= row.bar.available <= row.bar.firstObserved <= row.bar.retrieved <= row.lastSeen
  {}

  /** No column of a stored row but `last_seen_at` ever changes, and that one only upward. */
  lemma {:induction false} RowsOnlySeenLater(t: Table, entries: seq<Incoming>, k: Key)
    requires k in t
    ensures k in UpsertAll(t, entries)
    ensures var row := UpsertAll(t, entries)[k];
            row == t[k].(lastSeen := row.lastSeen) && row.lastSeen >= t[k].lastSeen
  {
    if entries == [] {
    } else {
      RowsOnlySeenLater(t, entries[..|entries| - 1], k);
    }
  }
}
