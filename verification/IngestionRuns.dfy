/** End-of-day ingestion as a sequence of runs over one plan (data/fetch.py): what skipping
    already stored sessions leaves in storage. */
module IngestionRuns {
  import opened BarRepository
  import opened BarStore
  import opened Ingestion
  import opened Wrappers

  // ------------------------------------------------------------------
  // One run over the plan
  // ------------------------------------------------------------------

  /** One planned series with its sources in priority order: registry key and provider symbol. */
  datatype Target = Target(symbol: string, isStock: bool, calendar: Calendar, sources: seq<(string, string)>)

  datatype Outcome = Skipped | Covered(through: int, target: int) | Failed | Succeeded(provider: string)

  function CandidatesFor(target: Target, w: Window): seq<Candidate>
    requires w.target.Some? && w.requestStart.Some?
  {
    seq(|target.sources|, i requires 0 <= i < |target.sources| =>
      Candidate(target.sources[i].0,
                FetchRequest(target.symbol, target.sources[i].1, w.requestStart.value, w.target.value)))
  }

  function StocksFor(target: Target, stocks: set<string>): set<string> {
    if target.isStock then stocks else {}
  }

  function TableFor(target: Target): TableName {
    if target.isStock then StockPrice else MarketData
  }

  function WindowFor(target: Target, run: Run, storedThrough: Option<int>): Window {
    EodFetchWindow(Completed(target.calendar, run.start, run.end, run.cutoff), run.start, storedThrough)
  }

  function Dates(sessions: seq<int>): set<int> {
    set d | d in sessions
  }

  /** What the providers together answer for one series and window: rows to store, or nothing. */
  datatype Answer = NoAnswer | Answered(entries: seq<Incoming>, provider: string)

  type Asking = (Target, Window) -> Answer

  function Ask(target: Target, stocks: set<string>, run: Run, w: Window): Answer {
    if w.target.None? || w.requestStart.None? || Dates(w.required) == {} then NoAnswer
    else match Route(run, CandidatesFor(target, w), Dates(w.required), 1.0, 0)
      case Served(_, provider, rows) =>
        if rows == [] || exists i :: 0 <= i < |rows| && rows[i].rawHash.None? then NoAnswer
        else Answered(Resolve(rows, StocksFor(target, stocks)), provider)
      case _ => NoAnswer
  }

  /** The providers of one run, asked through the router. */
  function Router(run: Run, stocks: set<string>): Asking {
    (target, w) => Ask(target, stocks, run, w)
  }

  /** What one series of a run does to the stored table, and how it is reported. */
  ghost function FetchSeries(t: Table, target: Target, run: Run, storedThrough: Option<int>, ask: Asking)
    : (Table, Outcome)
  {
    var w := WindowFor(target, run, storedThrough);
    if target.sources == [] then (t, Failed)
    else if w.target.None? then (t, Skipped)
    else if w.IsCovered() then (t, Covered(w.storedThrough.value, w.target.value))
    else match ask(target, w)
      case Answered(entries, provider) => (UpsertAll(t, entries), Succeeded(provider))
      case NoAnswer => (t, Failed)
  }

  // ------------------------------------------------------------------
  // No hole is ever left
  // ------------------------------------------------------------------

  /** The end-of-day session dates stored for a symbol. */
  ghost function StoredDates(t: Table, symbol: string): set<int> {
    set k | k in t && t[k].bar.canonicalSymbol == symbol && t[k].bar.interval == EOD :: t[k].bar.marketDate
  }

  /** Every exchange session from the start date to the newest stored date is stored. */
  ghost predicate NoGap(dates: set<int>, cal: Calendar, start: int) {
    forall d, newest :: newest in dates && start <= d <= newest && cal.isSession(d) ==> d in dates
  }

  /** Which series, if any, and which session a revision key stands for. */
  type Meaning = Key -> (Option<string>, int)

  ghost predicate Means(meaning: Meaning, table: TableName, bar: Bar) {
    meaning(KeyOf(table, bar)) == (Some(bar.canonicalSymbol), bar.marketDate)
  }

  ghost predicate TableMeans(t: Table, meaning: Meaning) {
    forall k :: k in t ==> RowKey(t[k]) == k && Means(meaning, t[k].table, t[k].bar)
  }

  ghost predicate EntryMeans(e: Incoming, meaning: Meaning) {
    Means(meaning, e.table, e.bar)
  }

  ghost function EntryDates(entries: seq<Incoming>, symbol: string): set<int> {
    set i | 0 <= i < |entries| && entries[i].bar.canonicalSymbol == symbol && entries[i].bar.interval == EOD
      :: entries[i].bar.marketDate
  }

  lemma UpsertOneDates(t: Table, e: Incoming, symbol: string, meaning: Meaning)
    requires TableMeans(t, meaning) && EntryMeans(e, meaning)
    ensures TableMeans(UpsertOne(t, e), meaning)
    ensures StoredDates(UpsertOne(t, e), symbol)
         == StoredDates(t, symbol)
            + if e.bar.canonicalSymbol == symbol && e.bar.interval == EOD then {e.bar.marketDate} else {}
  {
    var k, u := KeyOf(e.table, e.bar), UpsertOne(t, e);
    assert u[k].bar.canonicalSymbol == e.bar.canonicalSymbol && u[k].bar.marketDate == e.bar.marketDate
        && u[k].bar.interval == e.bar.interval;
    forall q | q in t
      ensures q in u && u[q].bar.canonicalSymbol == t[q].bar.canonicalSymbol
              && u[q].bar.marketDate == t[q].bar.marketDate && u[q].bar.interval == t[q].bar.interval
    {}
    forall d | d in StoredDates(t, symbol)
      ensures d in StoredDates(u, symbol)
    {
      var q :| q in t && t[q].bar.canonicalSymbol == symbol && t[q].bar.interval == EOD && t[q].bar.marketDate == d;
      assert q in u;
    }
    forall d | d in StoredDates(u, symbol)
      ensures d in StoredDates(t, symbol) || (d == e.bar.marketDate && e.bar.canonicalSymbol == symbol
                                              && e.bar.interval == EOD)
    {
      var q :| q in u && u[q].bar.canonicalSymbol == symbol && u[q].bar.interval == EOD && u[q].bar.marketDate == d;
      if q != k { assert q in t; }
    }
  }

  lemma {:induction false} UpsertAllDates(t: Table, entries: seq<Incoming>, symbol: string, meaning: Meaning)
    requires TableMeans(t, meaning) && (forall i :: 0 <= i < |entries| ==> EntryMeans(entries[i], meaning))
    ensures TableMeans(UpsertAll(t, entries), meaning)
    ensures StoredDates(UpsertAll(t, entries), symbol) == StoredDates(t, symbol) + EntryDates(entries, symbol)
  {
    if entries == [] {
    } else {
      var init, e := entries[..|entries| - 1], entries[|entries| - 1];
      assert forall i :: 0 <= i < |init| ==> init[i] == entries[i];
      UpsertAllDates(t, init, symbol, meaning);
      UpsertOneDates(UpsertAll(t, init), e, symbol, meaning);
      EntryDatesStep(init, e, symbol);
      assert entries == init + [e];
    }
  }

  lemma EntryDatesStep(init: seq<Incoming>, e: Incoming, symbol: string)
    ensures EntryDates(init + [e], symbol)
         == EntryDates(init, symbol)
            + if e.bar.canonicalSymbol == symbol && e.bar.interval == EOD then {e.bar.marketDate} else {}
  {
    var all := init + [e];
    assert forall i :: 0 <= i < |init| ==> all[i] == init[i];
    assert all[|init|] == e;
  }

  /** The heart of it: a window that starts the day after some stored session, filled completely
      up to the last completed session, cannot leave a hole, because availability is monotone
      and everything before the window was already without one. */
  lemma FillingWindowLeavesNoGap(dates: set<int>, target: Target, run: Run, storedThrough: Option<int>)
    requires NoGap(dates, target.calendar, run.start) && Monotone(target.calendar)
    requires storedThrough.Some? ==> storedThrough.value in dates
    requires var w := WindowFor(target, run, storedThrough); w.target.Some? && !w.IsCovered()
    ensures NoGap(dates + Dates(WindowFor(target, run, storedThrough).required), target.calendar, run.start)
    ensures forall d :: IsCompleted(target.calendar, run.start, run.end, run.cutoff, d) ==>
              d in dates + Dates(WindowFor(target, run, storedThrough).required)
  {}

  /** An answer fills its window: rows of the asked series alone, for every required session. */
  ghost predicate Fills(answer: Answer, target: Target, w: Window, meaning: Meaning) {
    answer.Answered? ==>
      && (forall i :: 0 <= i < |answer.entries| ==> EntryMeans(answer.entries[i], meaning))
      && (forall symbol ::
            EntryDates(answer.entries, symbol) == if symbol == target.symbol then Dates(w.required) else {})
  }

  lemma RouterFills(targets: seq<Target>, n: nat, run: Run, w: Window, meaning: Meaning)
    requires n < |targets| && AnswersMean(run, targets[n], meaning)
    ensures Fills(Ask(targets[n], Tickers(targets), run, w), targets[n], w, meaning)
  {
    var target, stocks := targets[n], Tickers(targets);
    if Ask(target, stocks, run, w).Answered? {
      var rows := Route(run, CandidatesFor(target, w), Dates(w.required), 1.0, 0).rows;
      forall symbol
        ensures EntryDates(Resolve(rows, StocksFor(target, stocks)), symbol)
             == if symbol == target.symbol then Dates(w.required) else {}
      {
        ServedDates(targets, n, run, w, rows, symbol, meaning);
      }
      ServedDates(targets, n, run, w, rows, target.symbol, meaning);
    }
  }

  /** Answers to a series' own requests are end-of-day bars of the meaning their key has. */
  ghost predicate AnswersMean(run: Run, target: Target, meaning: Meaning) {
    forall source, start, end, b ::
      source in target.sources && source.0 in run.providers
      && AnsweredBy(run.providers[source.0], target, source, start, end, b) ==>
        b.interval == EOD && Means(meaning, TableFor(target), b)
  }

  /** `b` is in a provider's answer for a source of the series, and passes the router's own checks. */
  ghost predicate AnsweredBy(p: Provider, target: Target, source: (string, string), start: int, end: int, b: Bar) {
    && p.fetch(FetchRequest(target.symbol, source.1, start, end)).Rows?
    && b in p.fetch(FetchRequest(target.symbol, source.1, start, end)).rows
    && b.provider == p.name && b.canonicalSymbol == target.symbol
  }

  lemma ServedDates(targets: seq<Target>, n: nat, run: Run, w: Window, rows: seq<Bar>, symbol: string, meaning: Meaning)
    requires n < |targets| && AnswersMean(run, targets[n], meaning)
    requires w.target.Some? && w.requestStart.Some? && Dates(w.required) != {}
    requires var r := Route(run, CandidatesFor(targets[n], w), Dates(w.required), 1.0, 0); r.Served? && r.rows == rows
    ensures var entries := Resolve(rows, StocksFor(targets[n], Tickers(targets)));
            && (forall i :: 0 <= i < |rows| ==> EntryMeans(entries[i], meaning))
            && EntryDates(entries, symbol) == if symbol == targets[n].symbol then Dates(w.required) else {}
  {
    var target, candidates := targets[n], CandidatesFor(targets[n], w);
    var r := Route(run, candidates, Dates(w.required), 1.0, 0);
    ServedWasAccepted(run, candidates, Dates(w.required), 1.0, 0);
    var provider, request := run.providers[candidates[r.index].registryKey], candidates[r.index].request;
    AcceptedSeriesIsComplete(run, provider, request, Dates(w.required));
    var entries := Resolve(rows, StocksFor(target, Tickers(targets)));
    forall i | 0 <= i < |rows|
      ensures EntryMeans(entries[i], meaning) && entries[i].bar.interval == EOD
              && entries[i].bar.canonicalSymbol == target.symbol && entries[i].bar.marketDate in Dates(w.required)
    {
      assert rows[i] in rows;
      assert AnsweredBy(provider, target, target.sources[r.index], request.start, request.end, rows[i]);
      assert entries[i].table == TableFor(target);
    }
    if symbol == target.symbol {
      forall d | d in Dates(w.required)
        ensures d in EntryDates(entries, symbol)
      {
        var b :| b in rows && b.marketDate == d;
        var i :| 0 <= i < |rows| && rows[i] == b;
        assert entries[i].bar.marketDate == d;
      }
    }
  }

  ghost predicate FillsPlan(ask: Asking, targets: seq<Target>, meaning: Meaning) {
    forall i, w :: 0 <= i < |targets| ==> Fills(ask(targets[i], w), targets[i], w, meaning)
  }

  /** What one series of a run keeps: no hole in its own dates, and every other symbol's dates
      untouched; when it succeeds every completed session is stored. */
  lemma FetchSeriesKeeps(t: Table, target: Target, run: Run, storedThrough: Option<int>, ask: Asking,
                         symbol: string, meaning: Meaning)
    requires TableMeans(t, meaning) && forall w :: Fills(ask(target, w), target, w, meaning)
    requires storedThrough.Some? ==> storedThrough.value in StoredDates(t, target.symbol)
    requires Monotone(target.calendar) && NoGap(StoredDates(t, target.symbol), target.calendar, run.start)
    ensures TableMeans(FetchSeries(t, target, run, storedThrough, ask).0, meaning)
    ensures NoGap(StoredDates(FetchSeries(t, target, run, storedThrough, ask).0, target.symbol), target.calendar,
                  run.start)
    ensures symbol != target.symbol ==>
              StoredDates(FetchSeries(t, target, run, storedThrough, ask).0, symbol) == StoredDates(t, symbol)
    ensures StoredDates(t, target.symbol)
         <= StoredDates(FetchSeries(t, target, run, storedThrough, ask).0, target.symbol)
    ensures FetchSeries(t, target, run, storedThrough, ask).1.Succeeded? ==>
              forall d :: IsCompleted(target.calendar, run.start, run.end, run.cutoff, d) ==>
                d in StoredDates(FetchSeries(t, target, run, storedThrough, ask).0, target.symbol)
  {
    if FetchSeries(t, target, run, storedThrough, ask).1.Succeeded? {
      var w := WindowFor(target, run, storedThrough);
      var entries := ask(target, w).entries;
      assert Fills(ask(target, w), target, w, meaning);
      UpsertAllDates(t, entries, symbol, meaning);
      UpsertAllDates(t, entries, target.symbol, meaning);
      FillingWindowLeavesNoGap(StoredDates(t, target.symbol), target, run, storedThrough);
    }
  }

  lemma WindowStartsSomewhere(target: Target, run: Run, storedThrough: Option<int>)
    ensures var w := WindowFor(target, run, storedThrough);
            w.target.Some? && !w.IsCovered() ==> w.requestStart.Some? && Dates(w.required) != {}
  {
    CompletedSpec(target.calendar, run.start, run.end, run.cutoff);
    WindowAsks(Completed(target.calendar, run.start, run.end, run.cutoff), run.start, storedThrough);
    var w := WindowFor(target, run, storedThrough);
    if w.target.Some? && !w.IsCovered() {
      assert w.target.value in Dates(w.required);
    }
  }

  // ------------------------------------------------------------------
  // Coverage, plans and runs
  // ------------------------------------------------------------------

  /** Newest stored date by symbol, as `stored_coverage` returns it. */
  type Coverage = string -> Option<int>

  ghost predicate VisibleRow(row: Row, table: TableName, symbol: string, cutoff: int) {
    && row.table == table && row.bar.canonicalSymbol == symbol && row.bar.interval == EOD
    && row.bar.available <= cutoff && row.bar.firstObserved <= cutoff && row.bar.retrieved <= cutoff
  }

  ghost predicate IsNewestVisible(t: Table, table: TableName, symbol: string, cutoff: int, newest: Option<int>) {
    && (forall k :: k in t && VisibleRow(t[k], table, symbol, cutoff) ==>
          newest.Some? && t[k].bar.marketDate <= newest.value)
    && (newest.Some? ==>
          exists k :: k in t && VisibleRow(t[k], table, symbol, cutoff) && t[k].bar.marketDate == newest.value)
  }

  /** The stock table's answer wins where both tables know a symbol. */
  ghost predicate IsSymbolCoverage(t: Table, cutoff: int, symbol: string, newest: Option<int>) {
    exists market, stock ::
      && IsNewestVisible(t, MarketData, symbol, cutoff, market) && IsNewestVisible(t, StockPrice, symbol, cutoff, stock)
      && newest == if stock.Some? then stock else market
  }

  ghost predicate CoverageFor(t: Table, run: Run, coverage: Coverage) {
    forall symbol ::
      if run.skipCovered then IsSymbolCoverage(t, run.cutoff, symbol, coverage(symbol)) else coverage(symbol) == None
  }

  /** Coverage only ever names stored sessions. */
  ghost predicate CoverageStored(t: Table, coverage: Coverage) {
    forall symbol :: coverage(symbol).Some? ==> coverage(symbol).value in StoredDates(t, symbol)
  }

  lemma CoverageIsStored(t: Table, run: Run, coverage: Coverage)
    requires CoverageFor(t, run, coverage)
    ensures CoverageStored(t, coverage)
  {}

  ghost function Tickers(targets: seq<Target>): set<string> {
    set i | 0 <= i < |targets| && targets[i].isStock :: targets[i].symbol
  }

  /** Series `i` of the plan takes table `i` to the next and is reported as `outcome`. */
  ghost predicate SeriesRan(tables: seq<Table>, i: nat, target: Target, run: Run, storedThrough: Option<int>,
                            ask: Asking,
                            outcome: Outcome)
    requires i + 1 < |tables|
  {
    tables[i + 1] == FetchSeries(tables[i], target, run, storedThrough, ask).0
    && outcome == FetchSeries(tables[i], target, run, storedThrough, ask).1
  }

  /** One run over the whole plan: the stored table before and after each series, with coverage
      read once at the start. */
  ghost predicate PlanRan(tables: seq<Table>, outcomes: seq<Outcome>, coverage: Coverage, targets: seq<Target>,
                          run: Run, ask: Asking)
  {
    && |tables| == |outcomes| + 1 == |targets| + 1
    && forall i :: 0 <= i < |targets| ==>
         SeriesRan(tables, i, targets[i], run, coverage(targets[i].symbol), ask, outcomes[i])
  }

  ghost predicate GoodPlan(targets: seq<Target>) {
    && (forall i, j :: 0 <= i < j < |targets| ==> targets[i].symbol != targets[j].symbol)
    && (forall i :: 0 <= i < |targets| ==> Monotone(targets[i].calendar))
  }

  /** What each registered provider calls itself in the rows it returns. */
  type Naming = string -> string

  /** Rows of group `g` are what a source of the series returns. */
  ghost predicate Feeds(target: Target, names: Naming, g: Group) {
    && g.table == TableFor(target) && g.interval == EOD
    && exists source :: source in target.sources && names(source.0) == g.provider && source.1 == g.symbol
  }

  /** No provider symbol feeds two series of one table: the catalog refuses a shared one. */
  ghost predicate SourcesDistinct(targets: seq<Target>, names: Naming) {
    forall i, j, g ::
      && 0 <= i < |targets| && 0 <= j < |targets|
      && Feeds(targets[i], names, g) && Feeds(targets[j], names, g)
      ==> i == j
  }

  /** What the run's providers return for the series' own requests: bars for end of day, under the
      symbol they were asked for, whose session follows from their instant and hash. */
  ghost predicate Answers(run: Run, target: Target, names: Naming, dated: Key -> int) {
    forall source, start, end, b ::
      source in target.sources && source.0 in run.providers
      && AnsweredBy(run.providers[source.0], target, source, start, end, b) ==>
        && b.interval == EOD && b.symbol == source.1 && b.provider == names(source.0)
        && dated(KeyOf(TableFor(target), b)) == b.marketDate
  }

  ghost predicate AnswersPlan(run: Run, targets: seq<Target>, names: Naming, dated: Key -> int) {
    forall i :: 0 <= i < |targets| ==> Answers(run, targets[i], names, dated)
  }

  /** The series a group of rows belongs to. */
  ghost function Owner(targets: seq<Target>, names: Naming, g: Group): Option<string> {
    if i :| 0 <= i < |targets| && Feeds(targets[i], names, g) then Some(targets[i].symbol) else None
  }

  ghost function PlanMeaning(targets: seq<Target>, names: Naming, dated: Key -> int): Meaning {
    (k: Key) => (Owner(targets, names, k.group), dated(k))
  }

  lemma OwnAnswersMean(run: Run, targets: seq<Target>, n: nat, names: Naming, dated: Key -> int)
    requires n < |targets| && SourcesDistinct(targets, names) && Answers(run, targets[n], names, dated)
    ensures AnswersMean(run, targets[n], PlanMeaning(targets, names, dated))
  {
    var target, meaning := targets[n], PlanMeaning(targets, names, dated);
    forall source, start, end, b |
      source in target.sources && source.0 in run.providers
      && AnsweredBy(run.providers[source.0], target, source, start, end, b)
      ensures b.interval == EOD && Means(meaning, TableFor(target), b)
    {
      assert Feeds(target, names, GroupOf(TableFor(target), b));
    }
  }

  /** No series of the plan has a hole. */
  ghost predicate Whole(t: Table, targets: seq<Target>, start: int) {
    forall i :: 0 <= i < |targets| ==> NoGap(StoredDates(t, targets[i].symbol), targets[i].calendar, start)
  }

  /** Part-way through a plan: no hole anywhere, and the series still to come untouched. */
  ghost predicate PlanState(start: Table, now: Table, targets: seq<Target>, run: Run, meaning: Meaning, n: nat) {
    && TableMeans(now, meaning) && Whole(now, targets, run.start)
    && (forall i :: n <= i < |targets| ==> StoredDates(now, targets[i].symbol) == StoredDates(start, targets[i].symbol))
  }

  lemma {:induction false} PlanKeepsWhole(tables: seq<Table>, outcomes: seq<Outcome>, coverage: Coverage,
                                          targets: seq<Target>,
                                          run: Run, ask: Asking, meaning: Meaning, n: nat)
    requires PlanRan(tables, outcomes, coverage, targets, run, ask) && n <= |targets|
    requires GoodPlan(targets) && FillsPlan(ask, targets, meaning) && CoverageStored(tables[0], coverage)
    requires TableMeans(tables[0], meaning) && Whole(tables[0], targets, run.start)
    ensures PlanState(tables[0], tables[n], targets, run, meaning, n)
  {
    if n == 0 {
    } else {
      PlanKeepsWhole(tables, outcomes, coverage, targets, run, ask, meaning, n - 1);
      assert SeriesRan(tables, n - 1, targets[n - 1], run, coverage(targets[n - 1].symbol), ask, outcomes[n - 1]);
      SeriesStep(tables[0], tables[n - 1], tables[n], targets, n - 1, run, coverage(targets[n - 1].symbol), ask,
                 meaning);
    }
  }

  lemma SeriesStep(start: Table, before: Table, after: Table, targets: seq<Target>, n: nat, run: Run,
                   storedThrough: Option<int>,
                   ask: Asking, meaning: Meaning)
    requires n < |targets| && GoodPlan(targets) && FillsPlan(ask, targets, meaning)
    requires PlanState(start, before, targets, run, meaning, n)
    requires storedThrough.Some? ==> storedThrough.value in StoredDates(start, targets[n].symbol)
    requires after == FetchSeries(before, targets[n], run, storedThrough, ask).0
    ensures PlanState(start, after, targets, run, meaning, n + 1)
  {
    FetchSeriesKeeps(before, targets[n], run, storedThrough, ask, targets[n].symbol, meaning);
    forall i | 0 <= i < |targets| && i != n
      ensures StoredDates(after, targets[i].symbol) == StoredDates(before, targets[i].symbol)
    {
      FetchSeriesKeeps(before, targets[n], run, storedThrough, ask, targets[i].symbol, meaning);
    }
  }

  /** One entry of a history: a run with what it started from and how it went. */
  datatype History = History(run: Run, coverage: Coverage, tables: seq<Table>, outcomes: seq<Outcome>)

  ghost predicate Happened(h: History, targets: seq<Target>, before: Table, after: Table) {
    && PlanRan(h.tables, h.outcomes, h.coverage, targets, h.run, Router(h.run, Tickers(targets)))
    && h.tables[0] == before && h.tables[|targets|] == after && CoverageFor(before, h.run, h.coverage)
  }

  /** A past: an empty store, then runs over the plan from one start date. */
  ghost predicate Past(stored: seq<Table>, runs: seq<History>, targets: seq<Target>, start: int, names: Naming,
                       dated: Key -> int)
  {
    && |stored| == |runs| + 1 && stored[0] == map[]
    && (forall i :: 0 <= i < |runs| ==> runs[i].run.start == start && AnswersPlan(runs[i].run, targets, names, dated))
    && (forall i :: 0 <= i < |runs| ==> Happened(runs[i], targets, stored[i], stored[i + 1]))
  }

  /** After any past over a plan whose sources are distinct, failed series and all, with any cutoffs
      and end dates, every series holds each exchange session from the start date to its newest
      stored date. */
  lemma RunsLeaveNoGap(stored: seq<Table>, runs: seq<History>, targets: seq<Target>, start: int, names: Naming,
                       dated: Key -> int)
    requires GoodPlan(targets) && SourcesDistinct(targets, names) && Past(stored, runs, targets, start, names, dated)
    ensures Whole(stored[|runs|], targets, start)
  {
    PastIsWhole(stored, runs, targets, start, names, dated, |runs|);
  }

  lemma {:induction false} PastIsWhole(stored: seq<Table>, runs: seq<History>, targets: seq<Target>, start: int,
                                       names: Naming,
                                       dated: Key -> int, n: nat)
    requires GoodPlan(targets) && SourcesDistinct(targets, names) && Past(stored, runs, targets, start, names, dated)
    requires n <= |runs|
    ensures Whole(stored[n], targets, start) && TableMeans(stored[n], PlanMeaning(targets, names, dated))
  {
    if n == 0 {
    } else {
      PastIsWhole(stored, runs, targets, start, names, dated, n - 1);
      var h := runs[n - 1];
      assert Happened(h, targets, stored[n - 1], stored[n - 1 + 1]) && AnswersPlan(h.run, targets, names, dated);
      RunKeepsWhole(h, targets, stored[n - 1], stored[n], names, dated);
    }
  }

  lemma RunKeepsWhole(h: History, targets: seq<Target>, before: Table, after: Table, names: Naming, dated: Key -> int)
    requires GoodPlan(targets) && SourcesDistinct(targets, names) && AnswersPlan(h.run, targets, names, dated)
    requires Happened(h, targets, before, after)
    requires TableMeans(before, PlanMeaning(targets, names, dated)) && Whole(before, targets, h.run.start)
    ensures PlanState(before, after, targets, h.run, PlanMeaning(targets, names, dated), |targets|)
  {
    var meaning := PlanMeaning(targets, names, dated);
    RouterFillsPlan(h.run, targets, names, dated);
    CoverageIsStored(before, h.run, h.coverage);
    PlanKeepsWhole(h.tables, h.outcomes, h.coverage, targets, h.run, Router(h.run, Tickers(targets)), meaning,
                   |targets|);
  }

  lemma RouterFillsPlan(run: Run, targets: seq<Target>, names: Naming, dated: Key -> int)
    requires SourcesDistinct(targets, names) && AnswersPlan(run, targets, names, dated)
    ensures FillsPlan(Router(run, Tickers(targets)), targets, PlanMeaning(targets, names, dated))
  {
    forall i, w | 0 <= i < |targets|
      ensures Fills(Router(run, Tickers(targets))(targets[i], w), targets[i], w, PlanMeaning(targets, names, dated))
    {
      OwnAnswersMean(run, targets, i, names, dated);
      RouterFills(targets, i, run, w, PlanMeaning(targets, names, dated));
    }
  }

  // ------------------------------------------------------------------
  // The run as it executes
  // ------------------------------------------------------------------

  /** `max(market_date)` over the visible end-of-day rows of one symbol in one table. */
  function NewestStored(rows: seq<Row>, table: TableName, symbol: string, cutoff: int): Option<int> {
    if rows == [] then None
    else
      var row, earlier := rows[|rows| - 1], NewestStored(rows[..|rows| - 1], table, symbol, cutoff);
      if row.table == table && row.bar.canonicalSymbol == symbol && row.bar.interval == EOD
         && row.bar.available <= cutoff && row.bar.firstObserved <= cutoff && row.bar.retrieved <= cutoff
         && (earlier.None? || row.bar.marketDate > earlier.value)
      then Some(row.bar.marketDate) else earlier
  }

  function StoredCoverage(rows: seq<Row>, cutoff: int, symbol: string): Option<int> {
    var stock := NewestStored(rows, StockPrice, symbol, cutoff);
    if stock.Some? then stock else NewestStored(rows, MarketData, symbol, cutoff)
  }

  lemma {:induction false} NewestStoredIsNewest(rows: seq<Row>, table: TableName, symbol: string, cutoff: int)
    ensures var newest := NewestStored(rows, table, symbol, cutoff);
            && (forall i :: 0 <= i < |rows| && VisibleRow(rows[i], table, symbol, cutoff) ==>
                  newest.Some? && rows[i].bar.marketDate <= newest.value)
            && (newest.Some? ==> exists i :: 0 <= i < |rows| && VisibleRow(rows[i], table, symbol, cutoff)
                                             && rows[i].bar.marketDate == newest.value)
  {
    if rows == [] {
    } else {
      var init, last := rows[..|rows| - 1], |rows| - 1;
      NewestStoredIsNewest(init, table, symbol, cutoff);
      var earlier, newest := NewestStored(init, table, symbol, cutoff), NewestStored(rows, table, symbol, cutoff);
      assert forall i :: 0 <= i < last ==> init[i] == rows[i];
      if earlier.Some? {
        var i :| 0 <= i < |init| && VisibleRow(init[i], table, symbol, cutoff)
            && init[i].bar.marketDate == earlier.value;
        assert VisibleRow(rows[i], table, symbol, cutoff) && rows[i].bar.marketDate == earlier.value;
      }
    }
  }

  lemma NewestInTable(rows: seq<Row>, table: TableName, symbol: string, cutoff: int)
    requires DistinctKeys(rows)
    ensures IsNewestVisible(TableOf(rows), table, symbol, cutoff, NewestStored(rows, table, symbol, cutoff))
  {
    TableOfRows(rows);
    NewestStoredIsNewest(rows, table, symbol, cutoff);
    var t, newest := TableOf(rows), NewestStored(rows, table, symbol, cutoff);
    forall k | k in t && VisibleRow(t[k], table, symbol, cutoff)
      ensures newest.Some? && t[k].bar.marketDate <= newest.value
    {
      var i :| 0 <= i < |rows| && RowKey(rows[i]) == k;
      assert VisibleRow(rows[i], table, symbol, cutoff);
    }
    if newest.Some? {
      var i :| 0 <= i < |rows| && VisibleRow(rows[i], table, symbol, cutoff) && rows[i].bar.marketDate == newest.value;
      assert VisibleRow(t[RowKey(rows[i])], table, symbol, cutoff);
    }
  }

  /** The coverage map a run starts from. */
  function RunCoverage(rows: seq<Row>, run: Run): Coverage {
    symbol => if run.skipCovered then StoredCoverage(rows, run.cutoff, symbol) else None
  }

  lemma RunCoverageIsCoverage(rows: seq<Row>, run: Run)
    requires DistinctKeys(rows)
    ensures CoverageFor(TableOf(rows), run, RunCoverage(rows, run))
  {
    forall symbol
      ensures if run.skipCovered
              then IsSymbolCoverage(TableOf(rows), run.cutoff, symbol, RunCoverage(rows, run)(symbol))
              else RunCoverage(rows, run)(symbol) == None
    {
      NewestInTable(rows, MarketData, symbol, run.cutoff);
      NewestInTable(rows, StockPrice, symbol, run.cutoff);
    }
  }

  /** One series: window, router, storage; every failure is caught and reported. */
  method FetchTarget(repository: Repository, target: Target, stocks: set<string>, run: Run, storedThrough: Option<int>)
    returns (outcome: Outcome)
    requires RowsValid(repository.rows)
    modifies repository
    ensures RowsValid(repository.rows) && Evolves(old(repository.rows), repository.rows)
    ensures TableOf(repository.rows)
         == FetchSeries(TableOf(old(repository.rows)), target, run, storedThrough, Router(run, stocks)).0
    ensures outcome == FetchSeries(TableOf(old(repository.rows)), target, run, storedThrough, Router(run, stocks)).1
  {
    if target.sources == [] { return Failed; }
    var completed := CompletedSessions(target.calendar, run.start, run.end, run.cutoff);
    var w := EodFetchWindow(completed, run.start, storedThrough);
    if w.target.None? { return Skipped; }
    if w.IsCovered() { return Covered(w.storedThrough.value, w.target.value); }
    WindowStartsSomewhere(target, run, storedThrough);
    outcome := FetchWindow(repository, target, stocks, run, w);
  }

  /** The router's answer for one window, stored if there is one. */
  method FetchWindow(repository: Repository, target: Target, stocks: set<string>, run: Run, w: Window)
    returns (outcome: Outcome)
    requires RowsValid(repository.rows) && w.target.Some? && w.requestStart.Some? && Dates(w.required) != {}
    modifies repository
    ensures RowsValid(repository.rows) && Evolves(old(repository.rows), repository.rows)
    ensures match Ask(target, stocks, run, w)
            case Answered(entries, provider) =>
              TableOf(repository.rows) == UpsertAll(TableOf(old(repository.rows)), entries)
              && outcome == Succeeded(provider)
            case NoAnswer => TableOf(repository.rows) == TableOf(old(repository.rows)) && outcome == Failed
  {
    var selection := FetchEodSeries(run, CandidatesFor(target, w), Dates(w.required), 1.0);
    if selection.Err? || selection.value.rows == [] || selection.value.provider.None? { return Failed; }
    var stored := repository.UpsertBars(selection.value.rows, StocksFor(target, stocks));
    return if stored.Err? then Failed else Succeeded(selection.value.provider.value);
  }

  /** One run: refused for an impossible range, otherwise every series in turn.  The ghost
      tables record the store before and after each. */
  method ExecuteFetchPlan(repository: Repository, targets: seq<Target>, run: Run)
    returns (r: Result<seq<Outcome>>, ghost tables: seq<Table>)
    requires RowsValid(repository.rows)
    modifies repository
    ensures RowsValid(repository.rows) && Evolves(old(repository.rows), repository.rows)
    ensures r.Err? <==> run.start > run.end
    ensures r.Err? ==> repository.rows == old(repository.rows)
    ensures r.Ok? ==> Happened(History(run, RunCoverage(old(repository.rows), run), tables, r.value), targets,
                               TableOf(old(repository.rows)), TableOf(repository.rows))
  {
    tables := [];
    if run.start > run.end { return Err("start_date must not be after end_date"), tables; }
    RunCoverageIsCoverage(repository.rows, run);
    var stocks := set i | 0 <= i < |targets| && targets[i].isStock :: targets[i].symbol;
    var outcomes;
    outcomes, tables := RunTargets(repository, targets, stocks, run, RunCoverage(repository.rows, run));
    return Ok(outcomes), tables;
  }

  /** The loop over the planned series. */
  method RunTargets(repository: Repository, targets: seq<Target>, stocks: set<string>, run: Run, coverage: Coverage)
    returns (outcomes: seq<Outcome>, ghost tables: seq<Table>)
    requires RowsValid(repository.rows)
    modifies repository
    ensures RowsValid(repository.rows) && Evolves(old(repository.rows), repository.rows)
    ensures PlanRan(tables, outcomes, coverage, targets, run, Router(run, stocks))
    ensures tables[0] == TableOf(old(repository.rows)) && tables[|targets|] == TableOf(repository.rows)
  {
    outcomes := [];
    tables := [TableOf(repository.rows)];
    assert targets[..0] == [];
    for n := 0 to |targets|
      invariant RowsValid(repository.rows) && Evolves(old(repository.rows), repository.rows)
      invariant PlanRan(tables, outcomes, coverage, targets[..n], run, Router(run, stocks))
      invariant tables[0] == TableOf(old(repository.rows)) && tables[n] == TableOf(repository.rows)
    {
      ghost var before := repository.rows;
      var outcome := FetchTarget(repository, targets[n], stocks, run, coverage(targets[n].symbol));
      EvolvesTransitively(old(repository.rows), before, repository.rows);
      PlanExtends(tables, outcomes, coverage, targets, n, run, Router(run, stocks), TableOf(repository.rows), outcome);
      outcomes := outcomes + [outcome];
      tables := tables + [TableOf(repository.rows)];
    }
    assert targets[..|targets|] == targets;
  }

  lemma PlanExtends(tables: seq<Table>, outcomes: seq<Outcome>, coverage: Coverage, targets: seq<Target>, n: nat,
                    run: Run,
                    ask: Asking, after: Table, outcome: Outcome)
    requires n < |targets| && PlanRan(tables, outcomes, coverage, targets[..n], run, ask)
    requires after == FetchSeries(tables[n], targets[n], run, coverage(targets[n].symbol), ask).0
    requires outcome == FetchSeries(tables[n], targets[n], run, coverage(targets[n].symbol), ask).1
    ensures PlanRan(tables + [after], outcomes + [outcome], coverage, targets[..n + 1], run, ask)
  {
    var more, all := tables + [after], outcomes + [outcome];
    forall i | 0 <= i < n + 1
      ensures SeriesRan(more, i, targets[i], run, coverage(targets[i].symbol), ask, all[i])
    {
      if i < n {
        assert SeriesRan(tables, i, targets[..n][i], run, coverage(targets[..n][i].symbol), ask, outcomes[i]);
        assert more[i] == tables[i] && more[i + 1] == tables[i + 1];
      }
    }
  }
}
