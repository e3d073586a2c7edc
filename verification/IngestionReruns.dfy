/** Running ingestion again (data/fetch.py): which series are reported as covered, and why a rerun after
    an operational run asks nobody. */
module IngestionReruns {
  import opened BarStore
  import opened Ingestion
  import opened IngestionRuns
  import opened Wrappers

  // ------------------------------------------------------------------
  // When a series is covered
  // ------------------------------------------------------------------

  /** `newest` is at or past every completed session, and there is one. */
  ghost predicate ReachedBy(target: Target, run: Run, newest: int) {
    && (exists d :: IsCompleted(target.calendar, run.start, run.end, run.cutoff, d))
    && (forall d :: IsCompleted(target.calendar, run.start, run.end, run.cutoff, d) ==> d <= newest)
  }

  /** What is visible of a symbol reaches every session completed by the cutoff, and there is one. */
  ghost predicate Reached(t: Table, target: Target, run: Run) {
    exists newest :: IsSymbolCoverage(t, run.cutoff, target.symbol, Some(newest)) && ReachedBy(target, run, newest)
  }

  lemma NewestIsUnique(t: Table, table: TableName, symbol: string, cutoff: int, a: Option<int>, b: Option<int>)
    requires IsNewestVisible(t, table, symbol, cutoff, a) && IsNewestVisible(t, table, symbol, cutoff, b)
    ensures a == b
  {}

  lemma CoverageIsUnique(t: Table, cutoff: int, symbol: string, a: Option<int>, b: Option<int>)
    requires IsSymbolCoverage(t, cutoff, symbol, a) && IsSymbolCoverage(t, cutoff, symbol, b)
    ensures a == b
  {
    var market, stock :|
      IsNewestVisible(t, MarketData, symbol, cutoff, market) && IsNewestVisible(t, StockPrice, symbol, cutoff, stock)
      && a == if stock.Some? then stock else market;
    var market', stock' :|
      IsNewestVisible(t, MarketData, symbol, cutoff, market') && IsNewestVisible(t, StockPrice, symbol, cutoff, stock')
      && b == if stock'.Some? then stock' else market';
    NewestIsUnique(t, MarketData, symbol, cutoff, market, market');
    NewestIsUnique(t, StockPrice, symbol, cutoff, stock, stock');
  }

  lemma WindowCovered(target: Target, run: Run, storedThrough: Option<int>)
    ensures var w := WindowFor(target, run, storedThrough);
            && (w.target.Some? <==> exists d :: IsCompleted(target.calendar, run.start, run.end, run.cutoff, d))
            && (w.IsCovered() <==>
                  && storedThrough.Some? && w.target.Some?
                  && forall d :: IsCompleted(target.calendar, run.start, run.end, run.cutoff, d) ==>
                      d <= storedThrough.value)
  {
    var completed := Completed(target.calendar, run.start, run.end, run.cutoff);
    CompletedSpec(target.calendar, run.start, run.end, run.cutoff);
    if completed != [] {
      assert completed[|completed| - 1] in completed;
    }
  }

  /** A series is reported as covered exactly when covered series are skipped and what was visible of it
      as the run began reaches the last session completed by the cutoff; then nothing is stored. */
  lemma CoveredExactlyWhenReached(h: History, targets: seq<Target>, before: Table, after: Table, i: nat)
    requires Happened(h, targets, before, after) && i < |targets| && targets[i].sources != []
    ensures h.outcomes[i].Covered? <==> h.run.skipCovered && Reached(before, targets[i], h.run)
    ensures h.outcomes[i].Covered? ==> h.tables[i + 1] == h.tables[i]
  {
    var target, newest := targets[i], h.coverage(targets[i].symbol);
    assert SeriesRan(h.tables, i, target, h.run, newest, Router(h.run, Tickers(targets)), h.outcomes[i]);
    WindowCovered(target, h.run, newest);
    if h.run.skipCovered {
      assert IsSymbolCoverage(before, h.run.cutoff, target.symbol, newest);
      if Reached(before, target, h.run) {
        var known :| IsSymbolCoverage(before, h.run.cutoff, target.symbol, Some(known))
            && ReachedBy(target, h.run, known);
        CoverageIsUnique(before, h.run.cutoff, target.symbol, newest, Some(known));
      }
    }
  }

  // ------------------------------------------------------------------
  // What operational runs store is visible at their cutoff
  // ------------------------------------------------------------------

  ghost predicate HeldBy(b: Bar, cutoff: int) {
    b.available <= cutoff && b.firstObserved <= cutoff && b.retrieved <= cutoff
  }

  ghost predicate AllHeldBy(t: Table, cutoff: int) {
    forall k :: k in t ==> HeldBy(t[k].bar, cutoff)
  }

  lemma {:induction false} UpsertAllHeld(t: Table, entries: seq<Incoming>, cutoff: int)
    requires AllHeldBy(t, cutoff) && forall i :: 0 <= i < |entries| ==> HeldBy(entries[i].bar, cutoff)
    ensures AllHeldBy(UpsertAll(t, entries), cutoff)
  {
    if entries == [] {
    } else {
      UpsertAllHeld(t, entries[..|entries| - 1], cutoff);
    }
  }

  lemma AnsweredHeld(target: Target, stocks: set<string>, run: Run, w: Window)
    requires run.operational && Ask(target, stocks, run, w).Answered?
    ensures forall i :: 0 <= i < |Ask(target, stocks, run, w).entries| ==>
              HeldBy(Ask(target, stocks, run, w).entries[i].bar, run.cutoff)
  {
    var candidates, required := CandidatesFor(target, w), Dates(w.required);
    var r := Route(run, candidates, required, 1.0, 0);
    ServedWasAccepted(run, candidates, required, 1.0, 0);
    AcceptedSeriesIsComplete(run, run.providers[candidates[r.index].registryKey], candidates[r.index].request,
                             required);
    forall i | 0 <= i < |r.rows|
      ensures HeldBy(r.rows[i], run.cutoff)
    {
      assert r.rows[i] in r.rows;
    }
  }

  lemma SeriesHeld(t: Table, target: Target, run: Run, storedThrough: Option<int>, stocks: set<string>)
    requires run.operational && AllHeldBy(t, run.cutoff)
    ensures AllHeldBy(FetchSeries(t, target, run, storedThrough, Router(run, stocks)).0, run.cutoff)
  {
    var w := WindowFor(target, run, storedThrough);
    if Ask(target, stocks, run, w).Answered? {
      AnsweredHeld(target, stocks, run, w);
      UpsertAllHeld(t, Ask(target, stocks, run, w).entries, run.cutoff);
    }
  }

  lemma {:induction false} RunHeld(h: History, targets: seq<Target>, before: Table, after: Table, n: nat)
    requires Happened(h, targets, before, after) && h.run.operational && AllHeldBy(before, h.run.cutoff)
             && n <= |targets|
    ensures AllHeldBy(h.tables[n], h.run.cutoff)
  {
    if n == 0 {
    } else {
      RunHeld(h, targets, before, after, n - 1);
      var storedThrough := h.coverage(targets[n - 1].symbol);
      assert SeriesRan(h.tables, n - 1, targets[n - 1], h.run, storedThrough, Router(h.run, Tickers(targets)),
                       h.outcomes[n - 1]);
      SeriesHeld(h.tables[n - 1], targets[n - 1], h.run, storedThrough, Tickers(targets));
    }
  }

  /** Operational runs whose cutoffs do not go back. */
  ghost predicate Operational(runs: seq<History>) {
    && (forall i :: 0 <= i < |runs| ==> runs[i].run.operational)
    && (forall i, j :: 0 <= i < j < |runs| ==> runs[i].run.cutoff <= runs[j].run.cutoff)
  }

  lemma {:induction false} PastHeld(stored: seq<Table>, runs: seq<History>, targets: seq<Target>, start: int,
                                    names: Naming,
                                    dated: Key -> int, n: nat, cutoff: int)
    requires Past(stored, runs, targets, start, names, dated) && Operational(runs) && n <= |runs|
    requires forall i :: 0 <= i < n ==> runs[i].run.cutoff <= cutoff
    ensures AllHeldBy(stored[n], cutoff)
  {
    if n == 0 {
    } else {
      var h := runs[n - 1];
      PastHeld(stored, runs, targets, start, names, dated, n - 1, h.run.cutoff);
      assert Happened(h, targets, stored[n - 1], stored[n - 1 + 1]);
      RunHeld(h, targets, stored[n - 1], stored[n], |targets|);
    }
  }

  // ------------------------------------------------------------------
  // What a run has stored stays stored
  // ------------------------------------------------------------------

  lemma {:induction false} DatesKept(t: Table, entries: seq<Incoming>, symbol: string)
    ensures StoredDates(t, symbol) <= StoredDates(UpsertAll(t, entries), symbol)
  {
    forall d | d in StoredDates(t, symbol)
      ensures d in StoredDates(UpsertAll(t, entries), symbol)
    {
      var k :| k in t && t[k].bar.canonicalSymbol == symbol && t[k].bar.interval == EOD && t[k].bar.marketDate == d;
      RowsOnlySeenLater(t, entries, k);
    }
  }

  lemma {:induction false} RunKeepsDates(h: History, targets: seq<Target>, before: Table, after: Table, m: nat,
                                         n: nat, symbol: string)
    requires Happened(h, targets, before, after) && m <= n <= |targets|
    ensures StoredDates(h.tables[m], symbol) <= StoredDates(h.tables[n], symbol)
    decreases n
  {
    if m == n {
    } else {
      RunKeepsDates(h, targets, before, after, m, n - 1, symbol);
      var target, storedThrough := targets[n - 1], h.coverage(targets[n - 1].symbol);
      assert SeriesRan(h.tables, n - 1, target, h.run, storedThrough, Router(h.run, Tickers(targets)),
                       h.outcomes[n - 1]);
      SeriesKeepsDates(h.tables[n - 1], target, h.run, storedThrough, Router(h.run, Tickers(targets)), symbol);
    }
  }

  lemma SeriesKeepsDates(t: Table, target: Target, run: Run, storedThrough: Option<int>, ask: Asking, symbol: string)
    ensures StoredDates(t, symbol) <= StoredDates(FetchSeries(t, target, run, storedThrough, ask).0, symbol)
  {
    var w := WindowFor(target, run, storedThrough);
    if ask(target, w).Answered? {
      DatesKept(t, ask(target, w).entries, symbol);
    }
  }

  /** A series that succeeded or was covered has its last completed session stored when the run ends. */
  lemma ReachedAtEnd(h: History, targets: seq<Target>, before: Table, after: Table, names: Naming, dated: Key -> int,
                     i: nat)
    returns (newest: int)
    requires GoodPlan(targets) && SourcesDistinct(targets, names) && AnswersPlan(h.run, targets, names, dated)
    requires Happened(h, targets, before, after) && i < |targets|
    requires TableMeans(before, PlanMeaning(targets, names, dated)) && Whole(before, targets, h.run.start)
    requires h.outcomes[i].Succeeded? || h.outcomes[i].Covered?
    ensures newest in StoredDates(after, targets[i].symbol) && ReachedBy(targets[i], h.run, newest)
  {
    if h.outcomes[i].Covered? {
      newest := CoveredAtEnd(h, targets, before, after, i);
    } else {
      newest := SucceededAtEnd(h, targets, before, after, names, dated, i);
    }
  }

  lemma CoveredAtEnd(h: History, targets: seq<Target>, before: Table, after: Table, i: nat) returns (newest: int)
    requires Happened(h, targets, before, after) && i < |targets| && h.outcomes[i].Covered?
    ensures newest in StoredDates(after, targets[i].symbol) && ReachedBy(targets[i], h.run, newest)
  {
    var target, storedThrough := targets[i], h.coverage(targets[i].symbol);
    assert SeriesRan(h.tables, i, target, h.run, storedThrough, Router(h.run, Tickers(targets)), h.outcomes[i]);
    CoverageIsStored(before, h.run, h.coverage);
    WindowCovered(target, h.run, storedThrough);
    RunKeepsDates(h, targets, before, after, 0, |targets|, target.symbol);
    newest := storedThrough.value;
  }

  lemma SucceededAtEnd(h: History, targets: seq<Target>, before: Table, after: Table, names: Naming,
                       dated: Key -> int, i: nat)
    returns (newest: int)
    requires GoodPlan(targets) && SourcesDistinct(targets, names) && AnswersPlan(h.run, targets, names, dated)
    requires Happened(h, targets, before, after) && i < |targets|
    requires TableMeans(before, PlanMeaning(targets, names, dated)) && Whole(before, targets, h.run.start)
    requires h.outcomes[i].Succeeded?
    ensures newest in StoredDates(after, targets[i].symbol) && ReachedBy(targets[i], h.run, newest)
  {
    var target, storedThrough := targets[i], h.coverage(targets[i].symbol);
    assert SeriesRan(h.tables, i, target, h.run, storedThrough, Router(h.run, Tickers(targets)), h.outcomes[i]);
    newest := WindowFor(target, h.run, storedThrough).target.value;
    TargetIsLast(target, h.run, storedThrough);
    SucceededStores(h, targets, before, after, names, dated, i);
    RunKeepsDates(h, targets, before, after, i + 1, |targets|, target.symbol);
  }

  lemma TargetIsLast(target: Target, run: Run, storedThrough: Option<int>)
    requires WindowFor(target, run, storedThrough).target.Some?
    ensures var last := WindowFor(target, run, storedThrough).target.value;
            && IsCompleted(target.calendar, run.start, run.end, run.cutoff, last)
            && forall d :: IsCompleted(target.calendar, run.start, run.end, run.cutoff, d) ==> d <= last
  {
    var completed := Completed(target.calendar, run.start, run.end, run.cutoff);
    CompletedSpec(target.calendar, run.start, run.end, run.cutoff);
    assert completed[|completed| - 1] in completed;
  }

  lemma SucceededStores(h: History, targets: seq<Target>, before: Table, after: Table, names: Naming,
                        dated: Key -> int, i: nat)
    requires GoodPlan(targets) && SourcesDistinct(targets, names) && AnswersPlan(h.run, targets, names, dated)
    requires Happened(h, targets, before, after) && i < |targets| && h.outcomes[i].Succeeded?
    requires TableMeans(before, PlanMeaning(targets, names, dated)) && Whole(before, targets, h.run.start)
    ensures forall d :: IsCompleted(targets[i].calendar, h.run.start, h.run.end, h.run.cutoff, d) ==>
              d in StoredDates(h.tables[i + 1], targets[i].symbol)
  {
    var target, ask, meaning := targets[i], Router(h.run, Tickers(targets)), PlanMeaning(targets, names, dated);
    var storedThrough := h.coverage(target.symbol);
    RouterFillsPlan(h.run, targets, names, dated);
    CoverageIsStored(before, h.run, h.coverage);
    PlanKeepsWhole(h.tables, h.outcomes, h.coverage, targets, h.run, ask, meaning, i);
    assert SeriesRan(h.tables, i, target, h.run, storedThrough, ask, h.outcomes[i]);
    FetchSeriesKeeps(h.tables[i], target, h.run, storedThrough, ask, target.symbol, meaning);
  }

  // ------------------------------------------------------------------
  // Running again
  // ------------------------------------------------------------------

  /** The same request, with what is covered skipped; the providers may be any. */
  ghost predicate Again(h: History, again: History) {
    && again.run.start == h.run.start && again.run.end == h.run.end && again.run.cutoff == h.run.cutoff
    && again.run.skipCovered
  }

  /** A stored, visible session is seen by the coverage of its symbol: its rows are in one table only. */
  lemma VisibleCoverage(t: Table, targets: seq<Target>, names: Naming, dated: Key -> int, i: nat, cutoff: int, d: int,
                        newest: Option<int>)
    requires GoodPlan(targets) && i < |targets| && TableMeans(t, PlanMeaning(targets, names, dated))
             && AllHeldBy(t, cutoff)
    requires d in StoredDates(t, targets[i].symbol) && IsSymbolCoverage(t, cutoff, targets[i].symbol, newest)
    ensures newest.Some? && d <= newest.value
  {
    var symbol := targets[i].symbol;
    var k :| k in t && t[k].bar.canonicalSymbol == symbol && t[k].bar.interval == EOD && t[k].bar.marketDate == d;
    OwnTable(t, targets, names, dated, i, k);
    assert VisibleRow(t[k], TableFor(targets[i]), symbol, cutoff);
    var market, stock :|
      IsNewestVisible(t, MarketData, symbol, cutoff, market) && IsNewestVisible(t, StockPrice, symbol, cutoff, stock)
      && newest == if stock.Some? then stock else market;
    if stock.Some? {
      var q :| q in t && VisibleRow(t[q], StockPrice, symbol, cutoff) && t[q].bar.marketDate == stock.value;
      OwnTable(t, targets, names, dated, i, q);
    }
  }

  lemma OwnTable(t: Table, targets: seq<Target>, names: Naming, dated: Key -> int, i: nat, k: Key)
    requires GoodPlan(targets) && i < |targets| && TableMeans(t, PlanMeaning(targets, names, dated))
    requires k in t && t[k].bar.canonicalSymbol == targets[i].symbol
    ensures t[k].table == TableFor(targets[i])
  {
    assert Owner(targets, names, k.group) == Some(targets[i].symbol);
    var m :| 0 <= m < |targets| && Feeds(targets[m], names, k.group) && targets[m].symbol == targets[i].symbol;
    assert m == i;
  }

  lemma SeriesAgain(h: History, again: History, targets: seq<Target>, before: Table, middle: Table, after: Table,
                    names: Naming, dated: Key -> int, i: nat)
    requires GoodPlan(targets) && SourcesDistinct(targets, names) && AnswersPlan(h.run, targets, names, dated)
    requires Happened(h, targets, before, middle) && Happened(again, targets, middle, after) && Again(h, again)
    requires TableMeans(before, PlanMeaning(targets, names, dated)) && Whole(before, targets, h.run.start)
    requires TableMeans(middle, PlanMeaning(targets, names, dated)) && AllHeldBy(middle, h.run.cutoff)
    requires i < |targets| && (h.outcomes[i].Succeeded? || h.outcomes[i].Covered?)
    ensures again.outcomes[i].Covered? && again.tables[i + 1] == again.tables[i]
  {
    var target, storedThrough := targets[i], again.coverage(targets[i].symbol);
    var newest := ReachedAtEnd(h, targets, before, middle, names, dated, i);
    assert IsSymbolCoverage(middle, again.run.cutoff, target.symbol, storedThrough);
    VisibleCoverage(middle, targets, names, dated, i, h.run.cutoff, newest, storedThrough);
    WindowCovered(target, again.run, storedThrough);
    assert SeriesRan(again.tables, i, target, again.run, storedThrough, Router(again.run, Tickers(targets)),
                     again.outcomes[i]);
    assert SeriesRan(h.tables, i, target, h.run, h.coverage(target.symbol), Router(h.run, Tickers(targets)),
                     h.outcomes[i]);
  }

  lemma SkippedAgain(h: History, again: History, targets: seq<Target>, before: Table, middle: Table, after: Table,
                     i: nat)
    requires Happened(h, targets, before, middle) && Happened(again, targets, middle, after) && Again(h, again)
    requires i < |targets| && h.outcomes[i].Skipped?
    ensures again.tables[i + 1] == again.tables[i]
  {
    var target := targets[i];
    assert SeriesRan(h.tables, i, target, h.run, h.coverage(target.symbol), Router(h.run, Tickers(targets)),
                     h.outcomes[i]);
    assert SeriesRan(again.tables, i, target, again.run, again.coverage(target.symbol),
                     Router(again.run, Tickers(targets)),
                     again.outcomes[i]);
  }

  lemma {:induction false} SameThroughout(tables: seq<Table>, n: nat)
    requires n < |tables| && forall i :: 0 <= i < n ==> tables[i + 1] == tables[i]
    ensures tables[n] == tables[0]
  {
    if n == 0 {
    } else {
      SameThroughout(tables, n - 1);
    }
  }

  /** After any past of operational runs, asking again for what the last one asked for reports as covered
      every series that succeeded or was covered in it, whatever the providers would now answer; and if
      none failed, nothing in the store changes. */
  lemma RerunIsCovered(stored: seq<Table>, runs: seq<History>, targets: seq<Target>, start: int, names: Naming,
                       dated: Key -> int, again: History, after: Table)
    requires GoodPlan(targets) && SourcesDistinct(targets, names) && Past(stored, runs, targets, start, names, dated)
    requires runs != [] && Operational(runs)
    requires Again(runs[|runs| - 1], again) && Happened(again, targets, stored[|runs|], after)
    ensures var last := runs[|runs| - 1];
            && (forall i :: 0 <= i < |targets| && (last.outcomes[i].Succeeded? || last.outcomes[i].Covered?) ==>
                  again.outcomes[i].Covered? && again.tables[i + 1] == again.tables[i])
            && ((forall i :: 0 <= i < |targets| ==> !last.outcomes[i].Failed?) ==> after == stored[|runs|])
  {
    var n := |runs| - 1;
    var last := runs[n];
    PastIsWhole(stored, runs, targets, start, names, dated, n);
    PastIsWhole(stored, runs, targets, start, names, dated, n + 1);
    PastHeld(stored, runs, targets, start, names, dated, n + 1, last.run.cutoff);
    assert Happened(last, targets, stored[n], stored[n + 1]) && AnswersPlan(last.run, targets, names, dated);
    forall i | 0 <= i < |targets| && (last.outcomes[i].Succeeded? || last.outcomes[i].Covered?)
      ensures again.outcomes[i].Covered? && again.tables[i + 1] == again.tables[i]
    {
      SeriesAgain(last, again, targets, stored[n], stored[n + 1], after, names, dated, i);
    }
    if forall i :: 0 <= i < |targets| ==> !last.outcomes[i].Failed? {
      forall i | 0 <= i < |targets|
        ensures again.tables[i + 1] == again.tables[i]
      {
        if last.outcomes[i].Skipped? {
          SkippedAgain(last, again, targets, stored[n], stored[n + 1], after, i);
        }
      }
      SameThroughout(again.tables, |targets|);
    }
  }
}
