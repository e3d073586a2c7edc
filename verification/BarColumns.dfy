/** The bar tables after any arrivals, told in the columns of their rows alone
    (database/repository.py, class MarketDataRepository). */
module BarColumns {
  import opened BarRepository
  import opened BarStore
  import opened Wrappers

  /** Two arrivals at one instant of one series. */
  ghost predicate SameInstant(e: Incoming, f: Incoming) {
    && e.table == f.table && e.bar.provider == f.bar.provider && e.bar.symbol == f.bar.symbol
    && e.bar.interval == f.bar.interval && e.bar.timestamp == f.bar.timestamp
  }

  /** Two arrivals of one revision: the content is the same as well. */
  ghost predicate SameRevision(e: Incoming, f: Incoming) {
    SameInstant(e, f) && e.bar.rawHash == f.bar.rawHash
  }

  /** The row and the arrival agree in every column the provider filled in. */
  ghost predicate AsProvided(row: Row, e: Incoming) {
    && row.table == e.table
    && row.bar.canonicalSymbol == e.bar.canonicalSymbol && row.bar.symbol == e.bar.symbol
    && row.bar.provider == e.bar.provider && row.bar.interval == e.bar.interval
    && row.bar.marketDate == e.bar.marketDate && row.bar.timestamp == e.bar.timestamp
    && row.bar.firstObserved == e.bar.firstObserved && row.bar.retrieved == e.bar.retrieved
    && row.bar.quality == e.bar.quality && row.bar.open == e.bar.open && row.bar.close == e.bar.close
    && row.bar.rawHash == e.bar.rawHash
  }

  /** Availability, its evidence and the flags: the provider's own for the first arrival of its instant,
      the first observation and one more flag for any later revision. */
  ghost predicate Claims(row: Row, e: Incoming, revised: bool) {
    if revised then
      && row.bar.available == e.bar.firstObserved && row.bar.evidence == FirstObserved
      && row.bar.flags == e.bar.flags + {"corrected_revision"}
    else row.bar.available == e.bar.available && row.bar.evidence == e.bar.evidence && row.bar.flags == e.bar.flags
  }

  /** `row` is what arrival `i`, the first of its revision, left. */
  ghost predicate LeftBy(row: Row, entries: seq<Incoming>, i: nat)
    requires i < |entries|
  {
    && AsProvided(row, entries[i])
    && (forall j :: 0 <= j < i ==> !SameRevision(entries[j], entries[i]))
    && Claims(row, entries[i], exists j :: 0 <= j < i && SameInstant(entries[j], entries[i]))
    && (forall j :: 0 <= j < |entries| && SameRevision(entries[j], entries[i]) ==>
          entries[j].bar.retrieved <= row.lastSeen)
    && (exists j :: 0 <= j < |entries| && SameRevision(entries[j], entries[i])
                    && entries[j].bar.retrieved == row.lastSeen)
  }

  /** The row of a revision. */
  ghost predicate RowOf(row: Row, e: Incoming) {
    && row.table == e.table && row.bar.provider == e.bar.provider && row.bar.symbol == e.bar.symbol
    && row.bar.interval == e.bar.interval && row.bar.timestamp == e.bar.timestamp && row.bar.rawHash == e.bar.rawHash
  }

  lemma SameKeyColumns(e: Incoming, f: Incoming)
    ensures SameInstant(e, f) <==> SameSlot(e, f)
    ensures SameRevision(e, f) <==> KeyOf(e.table, e.bar) == KeyOf(f.table, f.bar)
  {}

  /** A row that `ArrivedAs` describes, in columns. */
  lemma ArrivalColumns(row: Row, k: Key, entries: seq<Incoming>) returns (i: nat)
    requires ArrivedAs(row, k, entries)
    ensures i < |entries| && KeyOf(entries[i].table, entries[i].bar) == k && LeftBy(row, entries, i)
  {
    i :| i < |entries| && KeyOf(entries[i].table, entries[i].bar) == k && FirstWithKey(entries, i)
    && RowOfArrival(entries, i, row);
    forall j | 0 <= j < |entries|
      ensures SameInstant(entries[j], entries[i]) <==> SameSlot(entries[j], entries[i])
      ensures SameRevision(entries[j], entries[i]) <==> KeyOf(entries[j].table, entries[j].bar) == k
    {
      SameKeyColumns(entries[j], entries[i]);
    }
    RowColumns(row, entries, i);
  }

  lemma RowColumns(row: Row, entries: seq<Incoming>, i: nat)
    requires i < |entries| && RowOfArrival(entries, i, row)
    requires forall j :: 0 <= j < |entries| ==>
              (SameInstant(entries[j], entries[i]) <==> SameSlot(entries[j], entries[i]))
    ensures AsProvided(row, entries[i])
    ensures Claims(row, entries[i], exists j :: 0 <= j < i && SameInstant(entries[j], entries[i]))
  {
    assert FirstInSlot(entries, i) <==> !exists j :: 0 <= j < i && SameInstant(entries[j], entries[i]);
  }

  ghost predicate LeftBySome(row: Row, entries: seq<Incoming>) {
    exists i: nat :: i < |entries| && LeftBy(row, entries, i)
  }

  ghost predicate HasRow(rows: set<Row>, e: Incoming) {
    exists row :: row in rows && RowOf(row, e)
  }

  /** The rows are of one revision. */
  ghost predicate SameColumns(a: Row, b: Row) {
    && a.table == b.table && a.bar.provider == b.bar.provider && a.bar.symbol == b.bar.symbol
    && a.bar.interval == b.bar.interval && a.bar.timestamp == b.bar.timestamp && a.bar.rawHash == b.bar.rawHash
  }

  /** Every row is what the first arrival of its revision left, every arrival has a row of its revision,
      and no revision has two. */
  ghost predicate HoldArrivals(rows: set<Row>, entries: seq<Incoming>) {
    && (forall row :: row in rows ==> LeftBySome(row, entries))
    && (forall i :: 0 <= i < |entries| ==> HasRow(rows, entries[i]))
    && (forall a, b :: a in rows && b in rows && SameColumns(a, b) ==> a == b)
  }

  lemma HistoryInColumns(t: Table, entries: seq<Incoming>)
    requires IsHistory(t, entries)
    ensures HoldArrivals(t.Values, entries)
  {
    RowsAreArrivals(t, entries);
    ArrivalsHaveRows(t, entries);
    RowsAreDistinct(t, entries);
  }

  lemma ArrivalsHaveRows(t: Table, entries: seq<Incoming>)
    requires IsHistory(t, entries)
    ensures forall i :: 0 <= i < |entries| ==> HasRow(t.Values, entries[i])
  {
    forall i | 0 <= i < |entries|
      ensures HasRow(t.Values, entries[i])
    {
      ArrivalHasRow(t, entries, i);
    }
  }

  lemma RowsAreDistinct(t: Table, entries: seq<Incoming>)
    requires IsHistory(t, entries)
    ensures forall a, b :: a in t.Values && b in t.Values && SameColumns(a, b) ==> a == b
  {
    forall a, b | a in t.Values && b in t.Values && SameColumns(a, b)
      ensures a == b
    {
      OneRowEach(t, entries, a, b);
    }
  }

  lemma RowsAreArrivals(t: Table, entries: seq<Incoming>)
    requires IsHistory(t, entries)
    ensures forall row :: row in t.Values ==> LeftBySome(row, entries)
  {
    forall row | row in t.Values
      ensures LeftBySome(row, entries)
    {
      RowIsArrival(t, entries, row);
    }
  }

  lemma RowIsArrival(t: Table, entries: seq<Incoming>, row: Row)
    requires IsHistory(t, entries) && row in t.Values
    ensures LeftBySome(row, entries)
  {
    var k :| k in t && t[k] == row;
    var i := ArrivalColumns(row, k, entries);
  }

  lemma ArrivalHasRow(t: Table, entries: seq<Incoming>, i: nat)
    requires IsHistory(t, entries) && i < |entries|
    ensures HasRow(t.Values, entries[i])
  {
    var k := KeyOf(entries[i].table, entries[i].bar);
    var j := ArrivalColumns(t[k], k, entries);
    assert t[k] in t.Values && RowOf(t[k], entries[i]);
  }

  lemma OneRowEach(t: Table, entries: seq<Incoming>, a: Row, b: Row)
    requires IsHistory(t, entries) && a in t.Values && b in t.Values && SameColumns(a, b)
    ensures a == b
  {
    var k :| k in t && t[k] == a;
    var l :| l in t && t[l] == b;
    var i := ArrivalColumns(a, k, entries);
    var j := ArrivalColumns(b, l, entries);
    SameKeyColumns(entries[i], entries[j]);
  }

  /** After any arrivals, in any batches. */
  lemma TableInColumns(entries: seq<Incoming>)
    ensures HoldArrivals(UpsertAll(map[], entries).Values, entries)
  {
    TableIsHistory(entries);
    HistoryInColumns(UpsertAll(map[], entries), entries);
  }

  /** The same of the rows a repository holds, and no row is there twice. */
  lemma RowsInColumns(rows: seq<Row>, entries: seq<Incoming>)
    requires DistinctKeys(rows) && TableOf(rows) == UpsertAll(map[], entries)
    ensures HoldArrivals((set row | row in rows), entries)
    ensures forall n, m :: 0 <= n < m < |rows| ==> !SameColumns(rows[n], rows[m])
  {
    TableInColumns(entries);
    SameRows(rows);
  }

  lemma SameRows(rows: seq<Row>)
    requires DistinctKeys(rows)
    ensures TableOf(rows).Values == set row | row in rows
  {
    TableOfRows(rows);
    var t := TableOf(rows);
    forall row | row in rows
      ensures row in t.Values
    {
      var n :| 0 <= n < |rows| && rows[n] == row;
      assert t[RowKey(rows[n])] == row;
    }
    forall row | row in t.Values
      ensures row in rows
    {
      var k :| k in t && t[k] == row;
      var n :| 0 <= n < |rows| && RowKey(rows[n]) == k;
      assert t[RowKey(rows[n])] == rows[n];
    }
  }

  /** A bar goes to the stock table exactly when its canonical symbol is a stock's, and is not altered. */
  lemma ResolvedColumns(bars: seq<Bar>, stocks: set<string>)
    ensures |Resolve(bars, stocks)| == |bars|
    ensures forall i :: 0 <= i < |bars| ==>
              && Resolve(bars, stocks)[i].bar == bars[i]
              && (Resolve(bars, stocks)[i].table == StockPrice <==> bars[i].canonicalSymbol in stocks)
  {}
}
