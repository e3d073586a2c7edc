/** `MarketDataRepository.upsert_bars` as it runs: rows grouped by series, stored revisions
    preloaded per group in bounded chunks, and two in-memory indexes kept in step with the
    inserts.  Proved to leave the table the one-row-at-a-time specification gives. */
module BarRepository {
  import opened BarStore
  import opened Wrappers

  // ------------------------------------------------------------------
  // Rows as a table
  // ------------------------------------------------------------------

  ghost predicate DistinctKeys(rows: seq<Row>) {
    forall i, j :: 0 <= i < j < |rows| ==> RowKey(rows[i]) != RowKey(rows[j])
  }

  ghost function TableOf(rows: seq<Row>): Table {
    if rows == [] then map[]
    else TableOf(rows[..|rows| - 1])[RowKey(rows[|rows| - 1]) := rows[|rows| - 1]]
  }

  lemma {:induction false} RowOfKey(rows: seq<Row>, k: Key) returns (i: nat)
    requires k in TableOf(rows)
    ensures i < |rows| && RowKey(rows[i]) == k
  {
    var last := |rows| - 1;
    if k == RowKey(rows[last]) {
      i := last;
    } else {
      i := RowOfKey(rows[..last], k);
    }
  }

  lemma {:induction false} TableHasRows(rows: seq<Row>)
    requires DistinctKeys(rows)
    ensures forall i :: 0 <= i < |rows| ==>
              RowKey(rows[i]) in TableOf(rows) && TableOf(rows)[RowKey(rows[i])] == rows[i]
  {
    if rows == [] {
    } else {
      var init, last := rows[..|rows| - 1], |rows| - 1;
      TableHasRows(init);
      forall i | 0 <= i < |rows|
        ensures RowKey(rows[i]) in TableOf(rows) && TableOf(rows)[RowKey(rows[i])] == rows[i]
      {
        if i < last { assert init[i] == rows[i]; }
      }
    }
  }

  lemma TableOfRows(rows: seq<Row>)
    requires DistinctKeys(rows)
    ensures forall i :: 0 <= i < |rows| ==>
              RowKey(rows[i]) in TableOf(rows) && TableOf(rows)[RowKey(rows[i])] == rows[i]
    ensures forall k :: k in TableOf(rows) ==> exists i :: 0 <= i < |rows| && RowKey(rows[i]) == k
  {}

  lemma TablesEqual(t: Table, u: Table)
    requires forall k :: k in t ==> k in u && t[k] == u[k]
    requires forall k :: k in u ==> k in t
    ensures t == u
  {}

  /** Changing a row in place, its key unchanged, changes that entry of the table. */
  lemma TableOfUpdate(rows: seq<Row>, i: nat, row: Row)
    requires DistinctKeys(rows) && i < |rows| && RowKey(row) == RowKey(rows[i])
    ensures DistinctKeys(rows[i := row])
    ensures TableOf(rows[i := row]) == TableOf(rows)[RowKey(row) := row]
  {
    var after := rows[i := row];
    TableOfRows(rows);
    assert DistinctKeys(after) by {
      forall a, b | 0 <= a < b < |after|
        ensures RowKey(after[a]) != RowKey(after[b])
      {
        assert RowKey(after[a]) == RowKey(rows[a]) && RowKey(after[b]) == RowKey(rows[b]);
      }
    }
    TableOfRows(after);
    var t, u := TableOf(after), TableOf(rows)[RowKey(row) := row];
    forall k | k in t
      ensures k in u && t[k] == u[k]
    {
      var j :| 0 <= j < |after| && RowKey(after[j]) == k;
      assert RowKey(rows[j]) == k;
    }
    forall k | k in u
      ensures k in t
    {
      assert k in TableOf(rows);
      var j :| 0 <= j < |rows| && RowKey(rows[j]) == k;
      assert RowKey(after[j]) == k;
    }
    TablesEqual(t, u);
  }

  lemma TableOfAppend(rows: seq<Row>, row: Row)
    requires DistinctKeys(rows) && RowKey(row) !in TableOf(rows)
    ensures DistinctKeys(rows + [row])
    ensures TableOf(rows + [row]) == TableOf(rows)[RowKey(row) := row]
  {}

  /** Stored rows keep every column but `last_seen_at`, which only moves forward; new rows are
      appended. */
  ghost predicate Evolves(before: seq<Row>, after: seq<Row>) {
    && |before| <= |after|
    && forall i :: 0 <= i < |before| ==>
         after[i] == before[i].(lastSeen := after[i].lastSeen) && before[i].lastSeen <= after[i].lastSeen
  }

  lemma EvolvesTransitively(a: seq<Row>, b: seq<Row>, c: seq<Row>)
    requires Evolves(a, b) && Evolves(b, c)
    ensures Evolves(a, c)
  {}

  ghost predicate MarkedCorrected(bar: Bar) {
    bar.available == bar.firstObserved && bar.evidence == FirstObserved && CORRECTED_REVISION in bar.flags
  }

  ghost predicate SameRowSlot(a: Row, b: Row) {
    GroupOf(a.table, a.bar) == GroupOf(b.table, b.bar) && a.bar.timestamp == b.bar.timestamp
  }

  /** What the stored rows keep: the uniqueness rule, the order of instants, and that only the
      first row of a slot is not marked as a correction. */
  ghost predicate RowsValid(rows: seq<Row>) {
    && DistinctKeys(rows)
    && (forall i :: 0 <= i < |rows| ==> rows[i].bar.retrieved <= rows[i].lastSeen)
    && (forall i, j :: 0 <= i < j < |rows| && SameRowSlot(rows[i], rows[j]) ==> MarkedCorrected(rows[j].bar))
  }

  // ------------------------------------------------------------------
  // The in-memory indexes
  // ------------------------------------------------------------------

  /** Key of `exact`: instant and content hash, within one series. */
  type RevisionKey = (int, Option<string>)

  /** For the instants in `times`, `exact` finds the stored row of a revision and `prior` tells
      whether any revision is stored. */
  ghost predicate Indexed(rows: seq<Row>, g: Group, times: set<int>, exact: map<RevisionKey, int>, prior: set<int>) {
    && (forall t, h :: (t, h) in exact ==> 0 <= exact[(t, h)] < |rows| && RowKey(rows[exact[(t, h)]]) == Key(g, t, h))
    && (forall t, h :: t in times && Key(g, t, h) in TableOf(rows) ==> (t, h) in exact)
    && (forall t :: t in times ==> (t in prior <==> SlotTaken(TableOf(rows), g, t)))
  }

  lemma IndexedAfterReuse(rows: seq<Row>, g: Group, times: set<int>, exact: map<RevisionKey, int>, prior: set<int>,
                          i: nat, row: Row)
    requires DistinctKeys(rows) && i < |rows| && RowKey(row) == RowKey(rows[i])
    requires Indexed(rows, g, times, exact, prior)
    ensures Indexed(rows[i := row], g, times, exact, prior)
  {
    TableOfRows(rows);
    TableOfUpdate(rows, i, row);
    var t, u := TableOf(rows), TableOf(rows[i := row]);
    assert forall k :: k in t <==> k in u;
    forall s | s in times
      ensures SlotTaken(t, g, s) <==> SlotTaken(u, g, s)
    {
      if h :| Key(g, s, h) in t { assert Key(g, s, h) in u; }
      if h :| Key(g, s, h) in u { assert Key(g, s, h) in t; }
    }
  }

  lemma SlotsAfterInsert(t: Table, u: Table, g: Group, k: Key, row: Row, s: int)
    requires u == t[k := row] && k.group == g
    ensures SlotTaken(u, g, s) <==> SlotTaken(t, g, s) || s == k.timestamp
  {
    if s == k.timestamp {
      assert Key(g, s, k.hash) in u;
    }
    if h :| Key(g, s, h) in t { assert Key(g, s, h) in u; }
    if h :| Key(g, s, h) in u { assert Key(g, s, h) in t || s == k.timestamp; }
  }

  lemma IndexedAfterInsert(rows: seq<Row>, g: Group, times: set<int>, exact: map<RevisionKey, int>, prior: set<int>,
                           row: Row)
    requires DistinctKeys(rows) && RowKey(row) !in TableOf(rows) && GroupOf(row.table, row.bar) == g
    requires Indexed(rows, g, times, exact, prior)
    ensures Indexed(rows + [row], g, times, exact[(row.bar.timestamp, row.bar.rawHash) := |rows|],
                    prior + {row.bar.timestamp})
  {
    TableOfAppend(rows, row);
    forall s | s in times
      ensures s in prior + {row.bar.timestamp} <==> SlotTaken(TableOf(rows + [row]), g, s)
    {
      SlotsAfterInsert(TableOf(rows), TableOf(rows + [row]), g, RowKey(row), row, s);
    }
    ExactAfterInsert(rows, g, exact, row);
  }

  lemma ExactAfterInsert(rows: seq<Row>, g: Group, exact: map<RevisionKey, int>, row: Row)
    requires GroupOf(row.table, row.bar) == g
    requires forall s, h :: (s, h) in exact ==>
              0 <= exact[(s, h)] < |rows| && RowKey(rows[exact[(s, h)]]) == Key(g, s, h)
    ensures var more := exact[(row.bar.timestamp, row.bar.rawHash) := |rows|];
            forall s, h :: (s, h) in more ==>
              0 <= more[(s, h)] < |rows + [row]| && RowKey((rows + [row])[more[(s, h)]]) == Key(g, s, h)
  {}

  // ------------------------------------------------------------------
  // The repository
  // ------------------------------------------------------------------

  datatype Summary = Summary(inserted: nat, reused: nat)

  const CHUNK := 500

  function Entries(table: TableName, bars: seq<Bar>): seq<Incoming> {
    seq(|bars|, i requires 0 <= i < |bars| => Incoming(table, bars[i]))
  }

  /** `list(dict.fromkeys(timestamps))`: first occurrences, in order. */
  function Instants(bars: seq<Bar>, n: nat): (r: seq<int>)
    requires n <= |bars|
    ensures forall t :: t in r <==> exists i :: 0 <= i < n && bars[i].timestamp == t
  {
    if n == 0 then []
    else
      var r := Instants(bars, n - 1);
      if bars[n - 1].timestamp in r then r else r + [bars[n - 1].timestamp]
  }

  function Members(instants: seq<int>): set<int> {
    set t | t in instants
  }

  class Repository {
    /** Both tables, in insertion order; a row's index is its primary key. */
    var rows: seq<Row>

    constructor ()
      ensures rows == []
    {
      rows := [];
    }

    /** The query of one chunk. */
    function Select(g: Group, instants: set<int>): (ids: set<nat>)
      reads this
    {
      set i: nat | i < |rows| && GroupOf(rows[i].table, rows[i].bar) == g && rows[i].bar.timestamp in instants
    }

    /** Loads the stored revisions of one series at the given instants, chunk by chunk, and
        builds both indexes. */
    method LoadRevisions(g: Group, instants: seq<int>) returns (exact: map<RevisionKey, int>, prior: set<int>)
      requires DistinctKeys(rows)
      ensures Indexed(rows, g, Members(instants), exact, prior)
    {
      var stored: set<nat> := {};
      var offset := 0;
      while offset < |instants|
        invariant 0 <= offset
        invariant forall i: nat :: i in stored <==>
                    i < |rows| && GroupOf(rows[i].table, rows[i].bar) == g
                    && exists k :: 0 <= k < offset && k < |instants| && instants[k] == rows[i].bar.timestamp
      {
        var limit := if offset + CHUNK < |instants| then offset + CHUNK else |instants|;
        var chunk := instants[offset..limit];
        stored := stored + Select(g, Members(chunk));
        ChunkCovers(instants, offset, limit);
        offset := offset + CHUNK;
      }
      exact := map i | i in stored :: (rows[i].bar.timestamp, rows[i].bar.rawHash) := i;
      prior := set i | i in stored :: rows[i].bar.timestamp;
      LoadedIndex(rows, g, instants, stored, exact, prior);
    }

    /** The body of the loop over one group's rows. */
    method UpsertRow(g: Group, row: Bar, exact: map<RevisionKey, int>, prior: set<int>)
      returns (isNew: bool, newExact: map<RevisionKey, int>, newPrior: set<int>)
      requires forall t, h :: (t, h) in exact ==> 0 <= exact[(t, h)] < |rows|
      modifies this
      ensures rows == StepRows(old(rows), g, exact, prior, row)
      ensures isNew <==> (row.timestamp, row.rawHash) !in exact
      ensures newExact == if isNew then exact[(row.timestamp, row.rawHash) := |old(rows)|] else exact
      ensures newPrior == if isNew then prior + {row.timestamp} else prior
    {
      var key := (row.timestamp, row.rawHash);
      newExact, newPrior := exact, prior;
      isNew := key !in exact;
      if !isNew {
        var existing := exact[key];
        if row.retrieved > rows[existing].lastSeen {
          rows := rows[existing := rows[existing].(lastSeen := row.retrieved)];
        }
      } else {
        var persisted := if row.timestamp in prior then Corrected(row) else row;
        rows := rows + [Row(g.table, persisted, persisted.retrieved)];
        newExact := exact[key := |rows| - 1];
        newPrior := prior + {row.timestamp};
      }
    }

    /** The loop over one group's rows. */
    method UpsertGroup(g: Group, bars: seq<Bar>) returns (summary: Summary)
      requires RowsValid(rows)
      requires forall i :: 0 <= i < |bars| ==> GroupOf(g.table, bars[i]) == g
      modifies this
      ensures RowsValid(rows) && Evolves(old(rows), rows)
      ensures TableOf(rows) == UpsertAll(TableOf(old(rows)), Entries(g.table, bars))
      ensures summary.inserted + summary.reused == |bars|
      ensures |rows| == |old(rows)| + summary.inserted
    {
      var inserted, reused := 0, 0;
      var instants := Instants(bars, |bars|);
      var exact, prior := LoadRevisions(g, instants);
      assert Entries(g.table, bars[..0]) == [];
      for k := 0 to |bars|
        invariant InStep(old(rows), rows, g, Members(instants), exact, prior, Entries(g.table, bars[..k]))
        invariant inserted + reused == k && |rows| == |old(rows)| + inserted
      {
        LoopStep(old(rows), rows, g, Members(instants), exact, prior, Entries(g.table, bars[..k]), bars[k]);
        EntriesAppend(g.table, bars, k);
        var isNew;
        isNew, exact, prior := UpsertRow(g, bars[k], exact, prior);
        if isNew {
          inserted := inserted + 1;
        } else {
          reused := reused + 1;
        }
      }
      assert bars[..|bars|] == bars;
      return Summary(inserted, reused);
    }

    /** Insert new revisions and reuse identical rows.  A row without a content hash refuses the
        whole batch before anything is stored. */
    method UpsertBars(batch: seq<Bar>, stocks: set<string>) returns (r: Result<Summary>)
      requires RowsValid(rows)
      modifies this
      ensures RowsValid(rows) && Evolves(old(rows), rows)
      ensures r.Err? <==> exists i :: 0 <= i < |batch| && batch[i].rawHash.None?
      ensures r.Err? ==> rows == old(rows)
      ensures r.Ok? ==> TableOf(rows) == UpsertAll(TableOf(old(rows)), Resolve(batch, stocks))
      ensures r.Ok? ==> r.value.inserted + r.value.reused == |batch| && |rows| == |old(rows)| + r.value.inserted
    {
      var groups := GroupRows(batch, stocks);
      match groups
      case Err(error) => return Err(error);
      case Ok((order, grouped)) =>
        var summary := UpsertGroups(order, grouped, Resolve(batch, stocks));
        return Ok(summary);
    }

    /** The loop over the groups. */
    method UpsertGroups(order: seq<Group>, grouped: map<Group, seq<Bar>>, ghost entries: seq<Incoming>)
      returns (summary: Summary)
      requires RowsValid(rows) && Groups(entries, order, grouped)
      modifies this
      ensures RowsValid(rows) && Evolves(old(rows), rows)
      ensures TableOf(rows) == UpsertAll(TableOf(old(rows)), entries)
      ensures summary.inserted + summary.reused == |entries|
      ensures |rows| == |old(rows)| + summary.inserted
    {
      var inserted: nat, reused: nat := 0, 0;
      MembersKnowGroup(entries, order, grouped);
      for k := 0 to |order|
        invariant RowsValid(rows) && Evolves(old(rows), rows)
        invariant GroupsDone(TableOf(old(rows)), TableOf(rows), entries, order, k)
        invariant inserted + reused == CountIn(order, grouped, k) && |rows| == |old(rows)| + inserted
      {
        var g := order[k];
        ghost var before := rows;
        var part := UpsertGroup(g, grouped[g]);
        GroupDone(TableOf(old(rows)), TableOf(before), TableOf(rows), entries, order, k);
        EvolvesTransitively(old(rows), before, rows);
        inserted, reused := inserted + part.inserted, reused + part.reused;
      }
      AllGroupsDone(TableOf(old(rows)), TableOf(rows), entries, order);
      return Summary(inserted, reused);
    }
  }

  // ------------------------------------------------------------------
  // Grouping
  // ------------------------------------------------------------------

  function Filter(entries: seq<Incoming>, g: Group): (r: seq<Incoming>)
    ensures forall i :: 0 <= i < |r| ==> GroupOf(r[i].table, r[i].bar) == g
  {
    if entries == [] then []
    else
      var e := entries[|entries| - 1];
      Filter(entries[..|entries| - 1], g) + if GroupOf(e.table, e.bar) == g then [e] else []
  }

  /** How many rows the first `k` groups hold. */
  function CountIn(order: seq<Group>, grouped: map<Group, seq<Bar>>, k: nat): nat
    requires k <= |order| && (forall i :: 0 <= i < |order| ==> order[i] in grouped)
  {
    if k == 0 then 0 else CountIn(order, grouped, k - 1) + |grouped[order[k - 1]]|
  }

  /** `order` lists the groups, each once. */
  ghost predicate Listed(order: seq<Group>, grouped: map<Group, seq<Bar>>) {
    && (forall i :: 0 <= i < |order| ==> order[i] in grouped)
    && (forall i, j :: 0 <= i < j < |order| ==> order[i] != order[j])
    && (forall g :: g in grouped ==> g in order)
  }

  /** Each group holds its own rows of the batch, in batch order. */
  ghost predicate Filled(entries: seq<Incoming>, grouped: map<Group, seq<Bar>>) {
    && (forall g :: g in grouped ==> Entries(g.table, grouped[g]) == Filter(entries, g))
    && (forall g :: g !in grouped ==> Filter(entries, g) == [])
  }

  /** The rows of a batch by group, none lost. */
  ghost predicate Groups(entries: seq<Incoming>, order: seq<Group>, grouped: map<Group, seq<Bar>>) {
    Listed(order, grouped) && Filled(entries, grouped) && CountIn(order, grouped, |order|) == |entries|
  }

  predicate Hashed(batch: seq<Bar>, n: nat)
    requires n <= |batch|
  {
    forall i :: 0 <= i < n ==> batch[i].rawHash.Some?
  }

  method GroupRows(batch: seq<Bar>, stocks: set<string>) returns (r: Result<(seq<Group>, map<Group, seq<Bar>>)>)
    ensures r.Ok? <==> Hashed(batch, |batch|)
    ensures r.Ok? ==> Groups(Resolve(batch, stocks), r.value.0, r.value.1)
  {
    var order: seq<Group> := [];
    var grouped: map<Group, seq<Bar>> := map[];
    for k := 0 to |batch|
      invariant Hashed(batch, k) && Groups(Resolve(batch[..k], stocks), order, grouped)
    {
      if batch[k].rawHash.None? { return Err("raw_hash is required for idempotent persistence"); }
      order, grouped := GroupNext(batch, stocks, k, order, grouped);
    }
    assert batch[..|batch|] == batch;
    return Ok((order, grouped));
  }

  /** Row `k` joins its group. */
  method GroupNext(batch: seq<Bar>, stocks: set<string>, k: nat, order: seq<Group>, grouped: map<Group, seq<Bar>>)
    returns (longer: seq<Group>, after: map<Group, seq<Bar>>)
    requires k < |batch| && Groups(Resolve(batch[..k], stocks), order, grouped)
    ensures Groups(Resolve(batch[..k + 1], stocks), longer, after)
  {
    var table := if batch[k].canonicalSymbol in stocks then StockPrice else MarketData;
    longer, after := AddToGroup(order, grouped, table, batch[k], Resolve(batch[..k], stocks));
    ResolveNext(batch, stocks, k, table);
  }

  method AddToGroup(order: seq<Group>, grouped: map<Group, seq<Bar>>, table: TableName, row: Bar,
                    ghost entries: seq<Incoming>)
    returns (longer: seq<Group>, after: map<Group, seq<Bar>>)
    requires Groups(entries, order, grouped)
    ensures Groups(entries + [Incoming(table, row)], longer, after)
  {
    var g := GroupOf(table, row);
    if g in grouped {
      KnownGroupStep(entries, order, grouped, Incoming(table, row));
      longer, after := order, grouped[g := grouped[g] + [row]];
    } else {
      NewGroupStep(entries, order, grouped, Incoming(table, row));
      longer, after := order + [g], grouped[g := [row]];
    }
  }

  lemma ResolveNext(batch: seq<Bar>, stocks: set<string>, k: nat, table: TableName)
    requires k < |batch| && table == if batch[k].canonicalSymbol in stocks then StockPrice else MarketData
    ensures Resolve(batch[..k + 1], stocks) == Resolve(batch[..k], stocks) + [Incoming(table, batch[k])]
  {}

  lemma MembersKnowGroup(entries: seq<Incoming>, order: seq<Group>, grouped: map<Group, seq<Bar>>)
    requires Groups(entries, order, grouped)
    ensures forall g, i :: g in grouped && 0 <= i < |grouped[g]| ==> GroupOf(g.table, grouped[g][i]) == g
  {
    forall g, i | g in grouped && 0 <= i < |grouped[g]|
      ensures GroupOf(g.table, grouped[g][i]) == g
    {
      assert Entries(g.table, grouped[g])[i] == Incoming(g.table, grouped[g][i]);
    }
  }

  lemma {:induction false} CountUnchanged(order: seq<Group>, a: map<Group, seq<Bar>>, b: map<Group, seq<Bar>>, k: nat)
    requires k <= |order| && (forall i :: 0 <= i < |order| ==> order[i] in a && order[i] in b)
    requires forall i :: 0 <= i < k ==> a[order[i]] == b[order[i]]
    ensures CountIn(order, a, k) == CountIn(order, b, k)
  {
    if k == 0 {
    } else {
      CountUnchanged(order, a, b, k - 1);
    }
  }

  lemma {:induction false} CountOneMore(order: seq<Group>, a: map<Group, seq<Bar>>, g: Group, row: Bar, k: nat)
    requires k <= |order| && (forall i :: 0 <= i < |order| ==> order[i] in a) && g in a
    requires forall i, j :: 0 <= i < j < |order| ==> order[i] != order[j]
    ensures CountIn(order, a[g := a[g] + [row]], k) == CountIn(order, a, k) + if g in order[..k] then 1 else 0
  {
    if k == 0 {
    } else {
      CountOneMore(order, a, g, row, k - 1);
      assert order[..k] == order[..k - 1] + [order[k - 1]];
    }
  }

  lemma {:induction false} CountPrefix(order: seq<Group>, more: seq<Group>, a: map<Group, seq<Bar>>, k: nat)
    requires k <= |order| && (forall i :: 0 <= i < |order + more| ==> (order + more)[i] in a)
    ensures forall i :: 0 <= i < |order| ==> order[i] in a
    ensures CountIn(order + more, a, k) == CountIn(order, a, k)
  {
    forall i | 0 <= i < |order|
      ensures order[i] in a
    {
      assert (order + more)[i] == order[i];
    }
    if k > 0 {
      CountPrefix(order, more, a, k - 1);
    }
  }

  lemma KnownGroupStep(entries: seq<Incoming>, order: seq<Group>, grouped: map<Group, seq<Bar>>, e: Incoming)
    requires Groups(entries, order, grouped) && GroupOf(e.table, e.bar) in grouped
    ensures Groups(entries + [e], order, grouped[GroupOf(e.table, e.bar) := grouped[GroupOf(e.table, e.bar)] + [e.bar]])
  {
    var g := GroupOf(e.table, e.bar);
    KnownGroupFilled(entries, grouped, e, g);
    CountOneMore(order, grouped, g, e.bar, |order|);
    assert order[..|order|] == order;
  }

  lemma KnownGroupFilled(entries: seq<Incoming>, grouped: map<Group, seq<Bar>>, e: Incoming, g: Group)
    requires Filled(entries, grouped) && g == GroupOf(e.table, e.bar) && g in grouped
    ensures Filled(entries + [e], grouped[g := grouped[g] + [e.bar]])
  {}

  lemma NewGroupStep(entries: seq<Incoming>, order: seq<Group>, grouped: map<Group, seq<Bar>>, e: Incoming)
    requires Groups(entries, order, grouped) && GroupOf(e.table, e.bar) !in grouped
    ensures Groups(entries + [e], order + [GroupOf(e.table, e.bar)], grouped[GroupOf(e.table, e.bar) := [e.bar]])
  {
    var g := GroupOf(e.table, e.bar);
    NewGroupFilled(entries, grouped, e, g);
    NewGroupListed(order, grouped, g, [e.bar]);
    NewGroupCount(order, grouped, g, [e.bar]);
  }

  lemma NewGroupFilled(entries: seq<Incoming>, grouped: map<Group, seq<Bar>>, e: Incoming, g: Group)
    requires Filled(entries, grouped) && g == GroupOf(e.table, e.bar) && g !in grouped
    ensures Filled(entries + [e], grouped[g := [e.bar]])
  {}

  lemma NewGroupListed(order: seq<Group>, grouped: map<Group, seq<Bar>>, g: Group, rows: seq<Bar>)
    requires Listed(order, grouped) && g !in grouped
    ensures Listed(order + [g], grouped[g := rows])
  {}

  lemma NewGroupCount(order: seq<Group>, grouped: map<Group, seq<Bar>>, g: Group, rows: seq<Bar>)
    requires (forall i :: 0 <= i < |order| ==> order[i] in grouped) && g !in grouped
    ensures forall i :: 0 <= i < |order + [g]| ==> (order + [g])[i] in grouped[g := rows]
    ensures CountIn(order + [g], grouped[g := rows], |order + [g]|) == CountIn(order, grouped, |order|) + |rows|
  {
    var after := grouped[g := rows];
    CountPrefix(order, [g], after, |order|);
    CountUnchanged(order, grouped, after, |order|);
  }

  // ------------------------------------------------------------------
  // Groups do not interfere
  // ------------------------------------------------------------------

  /** The tables agree on every row of series `g`. */
  ghost predicate Agree(t: Table, u: Table, g: Group) {
    forall s, h ::
      && (Key(g, s, h) in t <==> Key(g, s, h) in u)
      && (Key(g, s, h) in t ==> t[Key(g, s, h)] == u[Key(g, s, h)])
  }

  lemma AgreeEverywhere(t: Table, u: Table)
    requires forall g :: Agree(t, u, g)
    ensures t == u
  {
    forall k | k in t
      ensures k in u && t[k] == u[k]
    {
      assert Agree(t, u, k.group);
      assert k == Key(k.group, k.timestamp, k.hash);
    }
    forall k | k in u
      ensures k in t
    {
      assert Agree(t, u, k.group);
      assert k == Key(k.group, k.timestamp, k.hash);
    }
    TablesEqual(t, u);
  }

  lemma AgreeTransitively(t: Table, u: Table, v: Table, g: Group)
    requires Agree(t, u, g) && Agree(u, v, g)
    ensures Agree(t, v, g)
  {}

  lemma UpsertOneAgrees(t: Table, u: Table, e: Incoming, g: Group)
    requires Agree(t, u, g) && GroupOf(e.table, e.bar) == g
    ensures Agree(UpsertOne(t, e), UpsertOne(u, e), g)
  {}

  lemma UpsertOneElsewhere(t: Table, e: Incoming, g: Group)
    requires GroupOf(e.table, e.bar) != g
    ensures Agree(UpsertOne(t, e), t, g)
  {}

  lemma {:induction false} UpsertAllAgrees(t: Table, u: Table, entries: seq<Incoming>, g: Group)
    requires Agree(t, u, g) && (forall i :: 0 <= i < |entries| ==> GroupOf(entries[i].table, entries[i].bar) == g)
    ensures Agree(UpsertAll(t, entries), UpsertAll(u, entries), g)
  {
    if entries == [] {
    } else {
      var init, e := entries[..|entries| - 1], entries[|entries| - 1];
      UpsertAllAgrees(t, u, init, g);
      UpsertOneAgrees(UpsertAll(t, init), UpsertAll(u, init), e, g);
    }
  }

  lemma {:induction false} UpsertAllElsewhere(t: Table, entries: seq<Incoming>, g: Group)
    requires forall i :: 0 <= i < |entries| ==> GroupOf(entries[i].table, entries[i].bar) != g
    ensures Agree(UpsertAll(t, entries), t, g)
  {
    if entries == [] {
    } else {
      var init, e := entries[..|entries| - 1], entries[|entries| - 1];
      UpsertAllElsewhere(t, init, g);
      UpsertOneElsewhere(UpsertAll(t, init), e, g);
      AgreeTransitively(UpsertAll(t, entries), UpsertAll(t, init), t, g);
    }
  }

  /** On the rows of one series, upserting everything is upserting that series' rows alone. */
  lemma {:induction false} OnlyOwnRowsMatter(t: Table, entries: seq<Incoming>, g: Group)
    ensures Agree(UpsertAll(t, entries), UpsertAll(t, Filter(entries, g)), g)
  {
    if entries == [] {
    } else {
      var init, e := entries[..|entries| - 1], entries[|entries| - 1];
      var own := Filter(init, g);
      OnlyOwnRowsMatter(t, init, g);
      if GroupOf(e.table, e.bar) == g {
        UpsertOneAgrees(UpsertAll(t, init), UpsertAll(t, own), e, g);
        assert Filter(entries, g) == own + [e];
        assert (own + [e])[..|own|] == own;
        assert UpsertAll(t, own + [e]) == UpsertOne(UpsertAll(t, own), e);
      } else {
        UpsertOneElsewhere(UpsertAll(t, init), e, g);
        AgreeTransitively(UpsertAll(t, entries), UpsertAll(t, init), UpsertAll(t, own), g);
        assert Filter(entries, g) == own;
      }
    }
  }

  /** The first `k` groups are as if their rows had been upserted, the others untouched. */
  ghost predicate GroupsDone(start: Table, now: Table, entries: seq<Incoming>, order: seq<Group>, k: nat)
    requires k <= |order|
  {
    forall g :: if g in order[..k] then Agree(now, UpsertAll(start, Filter(entries, g)), g) else Agree(now, start, g)
  }

  lemma GroupDone(start: Table, before: Table, after: Table, entries: seq<Incoming>, order: seq<Group>, k: nat)
    requires k < |order| && (forall i, j :: 0 <= i < j < |order| ==> order[i] != order[j])
    requires GroupsDone(start, before, entries, order, k)
    requires after == UpsertAll(before, Filter(entries, order[k]))
    ensures GroupsDone(start, after, entries, order, k + 1)
  {
    var own := Filter(entries, order[k]);
    assert order[..k + 1] == order[..k] + [order[k]];
    forall g
      ensures if g in order[..k + 1]
              then Agree(after, UpsertAll(start, Filter(entries, g)), g)
              else Agree(after, start, g)
    {
      if g == order[k] {
        assert g !in order[..k];
        UpsertAllAgrees(before, start, own, g);
      } else {
        UpsertAllElsewhere(before, own, g);
        if g in order[..k] {
          AgreeTransitively(after, before, UpsertAll(start, Filter(entries, g)), g);
        } else {
          AgreeTransitively(after, before, start, g);
        }
      }
    }
  }

  lemma AllGroupsDone(start: Table, now: Table, entries: seq<Incoming>, order: seq<Group>)
    requires GroupsDone(start, now, entries, order, |order|)
    requires forall g :: g !in order ==> Filter(entries, g) == []
    ensures now == UpsertAll(start, entries)
  {
    assert order[..|order|] == order;
    forall g
      ensures Agree(now, UpsertAll(start, entries), g)
    {
      OnlyOwnRowsMatter(start, entries, g);
      assert Agree(now, UpsertAll(start, Filter(entries, g)), g);
      AgreeTransitively(now, UpsertAll(start, Filter(entries, g)), UpsertAll(start, entries), g);
    }
    AgreeEverywhere(now, UpsertAll(start, entries));
  }

  lemma EntriesAppend(table: TableName, bars: seq<Bar>, k: nat)
    requires k < |bars|
    ensures Entries(table, bars[..k + 1]) == Entries(table, bars[..k]) + [Incoming(table, bars[k])]
  {}

  lemma ChunkCovers(instants: seq<int>, offset: nat, limit: nat)
    requires offset <= limit <= |instants|
    ensures forall t :: t in instants[offset..limit] <==> exists k :: offset <= k < limit && instants[k] == t
  {}

  lemma LoadedIndex(rows: seq<Row>, g: Group, instants: seq<int>, stored: set<nat>, exact: map<RevisionKey, int>,
                    prior: set<int>)
    requires DistinctKeys(rows)
    requires forall i: nat :: i in stored <==>
               i < |rows| && GroupOf(rows[i].table, rows[i].bar) == g && rows[i].bar.timestamp in instants
    requires forall i :: i in stored ==> (rows[i].bar.timestamp, rows[i].bar.rawHash) in exact
    requires forall t, h :: (t, h) in exact ==>
               exact[(t, h)] in stored && rows[exact[(t, h)]].bar.timestamp == t && rows[exact[(t, h)]].bar.rawHash == h
    requires forall t :: t in prior <==> exists i :: i in stored && rows[i].bar.timestamp == t
    ensures Indexed(rows, g, Members(instants), exact, prior)
  {
    TableOfRows(rows);
    forall t, h | t in instants && Key(g, t, h) in TableOf(rows)
      ensures (t, h) in exact && t in prior
    {
      var i :| 0 <= i < |rows| && RowKey(rows[i]) == Key(g, t, h);
      assert i in stored;
    }
    forall t | t in prior
      ensures SlotTaken(TableOf(rows), g, t)
    {
      var i :| i in stored && rows[i].bar.timestamp == t;
      assert RowKey(rows[i]) == Key(g, t, rows[i].bar.rawHash);
    }
  }

  /** What the loop body does to the rows for one incoming row, by the answer of `exact`. */
  ghost function StepRows(rows: seq<Row>, g: Group, exact: map<RevisionKey, int>, prior: set<int>, bar: Bar): seq<Row>
    requires forall t, h :: (t, h) in exact ==> 0 <= exact[(t, h)] < |rows|
  {
    var key := (bar.timestamp, bar.rawHash);
    if key in exact then
      if bar.retrieved > rows[exact[key]].lastSeen then
        rows[exact[key] := rows[exact[key]].(lastSeen := bar.retrieved)]
      else rows
    else rows + [Row(g.table, if bar.timestamp in prior then Corrected(bar) else bar, bar.retrieved)]
  }

  /** The loop's state after some of a group's rows. */
  ghost predicate InStep(start: seq<Row>, rows: seq<Row>, g: Group, times: set<int>, exact: map<RevisionKey, int>,
                         prior: set<int>, done: seq<Incoming>)
  {
    && RowsValid(rows) && Evolves(start, rows)
    && Indexed(rows, g, times, exact, prior)
    && TableOf(rows) == UpsertAll(TableOf(start), done)
  }

  lemma LoopStep(start: seq<Row>, rows: seq<Row>, g: Group, times: set<int>, exact: map<RevisionKey, int>,
                 prior: set<int>, done: seq<Incoming>, bar: Bar)
    requires InStep(start, rows, g, times, exact, prior, done)
    requires GroupOf(g.table, bar) == g && bar.timestamp in times
    ensures (bar.timestamp, bar.rawHash) in exact ==>
              InStep(start, StepRows(rows, g, exact, prior, bar), g, times, exact, prior,
                     done + [Incoming(g.table, bar)])
    ensures (bar.timestamp, bar.rawHash) !in exact ==>
              InStep(start, StepRows(rows, g, exact, prior, bar), g, times,
                     exact[(bar.timestamp, bar.rawHash) := |rows|],
                     prior + {bar.timestamp}, done + [Incoming(g.table, bar)])
  {
    var after := StepRows(rows, g, exact, prior, bar);
    if (bar.timestamp, bar.rawHash) in exact {
      ReuseMatches(rows, g, times, exact, prior, bar);
    } else {
      InsertMatches(rows, g, times, exact, prior, bar);
    }
    EvolvesTransitively(start, rows, after);
    assert (done + [Incoming(g.table, bar)])[..|done|] == done;
  }

  lemma ReuseMatches(rows: seq<Row>, g: Group, times: set<int>, exact: map<RevisionKey, int>, prior: set<int>, bar: Bar)
    requires RowsValid(rows) && Indexed(rows, g, times, exact, prior)
    requires GroupOf(g.table, bar) == g && (bar.timestamp, bar.rawHash) in exact
    ensures RowsValid(StepRows(rows, g, exact, prior, bar)) && Evolves(rows, StepRows(rows, g, exact, prior, bar))
    ensures TableOf(StepRows(rows, g, exact, prior, bar)) == UpsertOne(TableOf(rows), Incoming(g.table, bar))
    ensures Indexed(StepRows(rows, g, exact, prior, bar), g, times, exact, prior)
  {
    var i := exact[(bar.timestamp, bar.rawHash)];
    TableOfRows(rows);
    assert RowKey(rows[i]) == KeyOf(g.table, bar);
    if bar.retrieved > rows[i].lastSeen {
      var row := rows[i].(lastSeen := bar.retrieved);
      TableOfUpdate(rows, i, row);
      IndexedAfterReuse(rows, g, times, exact, prior, i, row);
      SeenLater(rows, i, bar.retrieved);
      SeenEvolves(rows, i, bar.retrieved);
    } else {
      EvolvesSame(rows);
    }
  }

  lemma EvolvesSame(rows: seq<Row>)
    ensures Evolves(rows, rows)
  {}

  lemma SeenEvolves(rows: seq<Row>, i: nat, seen: int)
    requires i < |rows| && seen >= rows[i].lastSeen
    ensures Evolves(rows, rows[i := rows[i].(lastSeen := seen)])
  {}

  lemma SeenLater(rows: seq<Row>, i: nat, seen: int)
    requires RowsValid(rows) && i < |rows| && seen > rows[i].lastSeen
    ensures RowsValid(rows[i := rows[i].(lastSeen := seen)])
  {}

  lemma InsertMatches(rows: seq<Row>, g: Group, times: set<int>, exact: map<RevisionKey, int>, prior: set<int>,
                      bar: Bar)
    requires RowsValid(rows) && Indexed(rows, g, times, exact, prior)
    requires GroupOf(g.table, bar) == g && bar.timestamp in times && (bar.timestamp, bar.rawHash) !in exact
    ensures RowsValid(StepRows(rows, g, exact, prior, bar)) && Evolves(rows, StepRows(rows, g, exact, prior, bar))
    ensures TableOf(StepRows(rows, g, exact, prior, bar)) == UpsertOne(TableOf(rows), Incoming(g.table, bar))
    ensures Indexed(StepRows(rows, g, exact, prior, bar), g, times, exact[(bar.timestamp, bar.rawHash) := |rows|],
                    prior + {bar.timestamp})
  {
    var row := Row(g.table, if bar.timestamp in prior then Corrected(bar) else bar, bar.retrieved);
    assert RowKey(row) == KeyOf(g.table, bar);
    TableOfAppend(rows, row);
    IndexedAfterInsert(rows, g, times, exact, prior, row);
    LateRowsMarked(rows, row);
  }

  lemma LateRowsMarked(rows: seq<Row>, row: Row)
    requires RowsValid(rows) && RowKey(row) !in TableOf(rows) && row.bar.retrieved <= row.lastSeen
    requires SlotTaken(TableOf(rows), GroupOf(row.table, row.bar), row.bar.timestamp) ==> MarkedCorrected(row.bar)
    ensures RowsValid(rows + [row])
  {
    TableOfRows(rows);
    TableOfAppend(rows, row);
    forall i | 0 <= i < |rows| && SameRowSlot(rows[i], row)
      ensures MarkedCorrected(row.bar)
    {
      assert Key(GroupOf(row.table, row.bar), row.bar.timestamp, rows[i].bar.rawHash) in TableOf(rows);
    }
  }
}
