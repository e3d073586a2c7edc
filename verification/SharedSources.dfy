/** Why the catalog must refuse one provider symbol for two series of a table (data/config.py): rows of
    the second series are taken for rows of the first, and ingestion leaves a hole. */
module SharedSources {
  import opened Arithmetic
  import opened BarStore
  import opened Ingestion
  import opened IngestionRuns
  import opened Wrappers

  // ------------------------------------------------------------------
  // The catalog check
  // ------------------------------------------------------------------

  /** One listed source of an indicator, in catalog order. */
  datatype Listing = Listing(indicator: string, provider: string, symbol: string, role: string)

  type Folding = string -> string

  predicate SameInstrument(a: Listing, b: Listing, fold: Folding) {
    a.provider == b.provider && fold(a.symbol) == fold(b.symbol)
  }

  /** Two indicators never share an instrument, and one lists it once in a role. */
  ghost predicate NoneShared(listings: seq<Listing>, fold: Folding) {
    forall i, j :: 0 <= i < j < |listings| && SameInstrument(listings[i], listings[j], fold) ==>
      listings[i].indicator == listings[j].indicator && listings[i].role != listings[j].role
  }

  /** The maps the check keeps stand for the listings it has seen. */
  ghost predicate Remembered(seen: seq<Listing>, fold: Folding, first: map<(string, string), string>,
                             roles: set<(string, string, string)>)
  {
    && NoneShared(seen, fold)
    && (forall l :: l in seen ==>
          (l.provider, fold(l.symbol)) in first && first[(l.provider, fold(l.symbol))] == l.indicator)
    && (forall k :: k in first ==> exists i :: 0 <= i < |seen| && k == (seen[i].provider, fold(seen[i].symbol)))
    && (forall r :: r in roles <==>
          exists i :: 0 <= i < |seen| && r == (seen[i].provider, fold(seen[i].symbol), seen[i].role))
  }

  lemma RememberOne(seen: seq<Listing>, l: Listing, fold: Folding, first: map<(string, string), string>,
                    roles: set<(string, string, string)>)
    requires Remembered(seen, fold, first, roles)
    ensures var key := (l.provider, fold(l.symbol));
            if (key in first && first[key] != l.indicator) || (l.provider, fold(l.symbol), l.role) in roles then
              !NoneShared(seen + [l], fold)
            else
              Remembered(seen + [l], fold, first[key := l.indicator], roles + {(l.provider, fold(l.symbol), l.role)})
  {
    var all, key := seen + [l], (l.provider, fold(l.symbol));
    assert forall i :: 0 <= i < |seen| ==> all[i] == seen[i];
    assert all[|seen|] == l;
    if key in first && first[key] != l.indicator {
      var i :| 0 <= i < |seen| && key == (seen[i].provider, fold(seen[i].symbol));
      assert seen[i] in seen && SameInstrument(all[i], all[|seen|], fold);
    } else if (l.provider, fold(l.symbol), l.role) in roles {
      var i :| 0 <= i < |seen|
          && (l.provider, fold(l.symbol), l.role) == (seen[i].provider, fold(seen[i].symbol), seen[i].role);
      assert SameInstrument(all[i], all[|seen|], fold);
    }
  }

  /** The aliasing check of the indicator catalog. */
  method RejectSharedSymbols(listings: seq<Listing>, fold: Folding) returns (ok: bool)
    ensures ok <==> NoneShared(listings, fold)
  {
    var first: map<(string, string), string>, roles: set<(string, string, string)> := map[], {};
    for n := 0 to |listings|
      invariant Remembered(listings[..n], fold, first, roles)
    {
      var l := listings[n];
      var key, role := (l.provider, fold(l.symbol)), (l.provider, fold(l.symbol), l.role);
      RememberOne(listings[..n], l, fold, first, roles);
      assert listings[..n + 1] == listings[..n] + [l];
      if (key in first && first[key] != l.indicator) || role in roles {
        SharedEarly(listings, fold, n + 1);
        return false;
      }
      roles := roles + {role};
      first := first[key := l.indicator];
    }
    assert listings[..|listings|] == listings;
    return true;
  }

  lemma SharedEarly(listings: seq<Listing>, fold: Folding, n: nat)
    requires n <= |listings| && !NoneShared(listings[..n], fold)
    ensures !NoneShared(listings, fold)
  {
    var i, j :| 0 <= i < j < n && SameInstrument(listings[..n][i], listings[..n][j], fold)
                && !(listings[..n][i].indicator == listings[..n][j].indicator
                     && listings[..n][i].role != listings[..n][j].role);
    assert SameInstrument(listings[i], listings[j], fold);
  }

  /** Every source of the plan is listed, in the catalog of its table, under its series. */
  ghost predicate DrawnFrom(targets: seq<Target>, catalogs: TableName -> seq<Listing>) {
    forall i, source :: 0 <= i < |targets| && source in targets[i].sources ==>
      exists role :: Listing(targets[i].symbol, source.0, source.1, role) in catalogs(TableFor(targets[i]))
  }

  /** A plan drawn from catalogs that pass lists no source for two series of a table. */
  lemma CheckedCatalogIsDistinct(targets: seq<Target>, catalogs: TableName -> seq<Listing>, fold: Folding)
    requires GoodPlan(targets) && DrawnFrom(targets, catalogs) && forall table :: NoneShared(catalogs(table), fold)
    ensures CatalogDistinct(targets)
  {
    forall i, j, source |
      && 0 <= i < |targets| && 0 <= j < |targets| && TableFor(targets[i]) == TableFor(targets[j])
      && source in targets[i].sources && source in targets[j].sources
      ensures i == j
    {
      var listings := catalogs(TableFor(targets[i]));
      var r :| Listing(targets[i].symbol, source.0, source.1, r) in listings;
      var q :| Listing(targets[j].symbol, source.0, source.1, q) in listings;
      var a :| 0 <= a < |listings| && listings[a] == Listing(targets[i].symbol, source.0, source.1, r);
      var b :| 0 <= b < |listings| && listings[b] == Listing(targets[j].symbol, source.0, source.1, q);
      assert SameInstrument(listings[a], listings[b], fold) && SameInstrument(listings[b], listings[a], fold);
      assert targets[i].symbol == targets[j].symbol;
    }
  }

  /** No two series of one table list the same registry key and provider symbol. */
  ghost predicate CatalogDistinct(targets: seq<Target>) {
    forall i, j, source ::
      && 0 <= i < |targets| && 0 <= j < |targets| && TableFor(targets[i]) == TableFor(targets[j])
      && source in targets[i].sources && source in targets[j].sources
      ==> i == j
  }

  /** With providers that go by different names, the catalog's check is enough. */
  lemma CatalogCheckIsEnough(targets: seq<Target>, names: Naming)
    requires CatalogDistinct(targets) && forall a, b :: names(a) == names(b) ==> a == b
    ensures SourcesDistinct(targets, names)
  {
    forall i, j, g |
      0 <= i < |targets| && 0 <= j < |targets| && Feeds(targets[i], names, g) && Feeds(targets[j], names, g)
      ensures i == j
    {
      var s :| s in targets[i].sources && names(s.0) == g.provider && s.1 == g.symbol;
      var u :| u in targets[j].sources && names(u.0) == g.provider && u.1 == g.symbol;
      assert s == u;
    }
  }

  // ------------------------------------------------------------------
  // A run in which the providers answer for one series only
  // ------------------------------------------------------------------

  /** The row both series would store for a day: its hash is of content that names neither. */
  function DailyBar(symbol: string, g: Group, d: int): Bar {
    Bar(symbol, g.symbol, g.provider, g.interval, d, d, d, d, d, ProviderSlaEstimate, Official, None, 1.0,
        Some("content"), {})
  }

  function DailyBars(symbol: string, g: Group, days: seq<int>): seq<Bar> {
    seq(|days|, k requires 0 <= k < |days| => DailyBar(symbol, g, days[k]))
  }

  function DailyKey(g: Group, d: int): Key {
    Key(g, d, Some("content"))
  }

  function Serving(target: Target, g: Group, name: string): FetchRequest -> Reply {
    (request: FetchRequest) =>
      if name == g.provider && request.canonicalSymbol == target.symbol && request.providerSymbol == g.symbol then
        Rows(DailyBars(target.symbol, g, Sessions(target.calendar, request.start, request.end)))
      else ProviderError("unavailable")
  }

  function Registry(targets: seq<Target>): set<string> {
    set i, k | 0 <= i < |targets| && 0 <= k < |targets[i].sources| :: targets[i].sources[k].0
  }

  function OneServed(targets: seq<Target>, names: Naming, n: nat, g: Group, start: int, end: int, cutoff: int): Run
    requires n < |targets|
  {
    Run(map key | key in Registry(targets) :: Provider(names(key), Serving(targets[n], g, names(key))),
        start, end, cutoff, false, false)
  }

  function ByInstant(): Key -> int {
    (k: Key) => k.timestamp
  }

  lemma OneServedAnswers(targets: seq<Target>, names: Naming, n: nat, g: Group, start: int, end: int, cutoff: int)
    requires n < |targets| && g.interval == EOD
    ensures AnswersPlan(OneServed(targets, names, n, g, start, end, cutoff), targets, names, ByInstant())
  {}

  // -------- routing --------

  lemma {:induction false} RouteServes(run: Run, candidates: seq<Candidate>, required: set<int>, i: nat, p: nat)
    requires required != {} && i <= p < |candidates|
    requires forall k :: 0 <= k < |candidates| ==>
      candidates[k].registryKey in run.providers
      && !Judge(run, run.providers[candidates[k].registryKey], candidates[k].request, required, 1.0).Raise?
    requires Judge(run, run.providers[candidates[p].registryKey], candidates[p].request, required, 1.0).Accept?
    ensures Route(run, candidates, required, 1.0, i).Served?
    decreases p - i
  {
    if Judge(run, run.providers[candidates[i].registryKey], candidates[i].request, required, 1.0).Reject? {
      RouteServes(run, candidates, required, i + 1, p);
    }
  }

  lemma {:induction false} RouteFails(run: Run, candidates: seq<Candidate>, required: set<int>, i: nat)
    requires required != {} && i <= |candidates|
    requires forall k :: 0 <= k < |candidates| ==>
      candidates[k].registryKey in run.providers
      && Judge(run, run.providers[candidates[k].registryKey], candidates[k].request, required, 1.0).Reject?
    ensures Route(run, candidates, required, 1.0, i).Unserved?
    decreases |candidates| - i
  {
    if i < |candidates| {
      RouteFails(run, candidates, required, i + 1);
    }
  }

  /** A full answer is accepted. */
  lemma FullAnswerAccepted(run: Run, provider: Provider, request: FetchRequest, target: Target, g: Group,
                           required: set<int>)
    requires provider == Provider(g.provider, Serving(target, g, g.provider)) && required != {}
    requires request.canonicalSymbol == target.symbol && request.providerSymbol == g.symbol
    requires !run.operational && request.end <= run.cutoff
    requires forall d :: d in required ==> d in Sessions(target.calendar, request.start, request.end)
    ensures Judge(run, provider, request, required, 1.0).Accept?
  {
    var rows := DailyBars(target.symbol, g, Sessions(target.calendar, request.start, request.end));
    AllPresent(run, target, g, request, rows, required);
    WholeShare(|required|);
  }

  lemma AllPresent(run: Run, target: Target, g: Group, request: FetchRequest, rows: seq<Bar>, required: set<int>)
    requires rows == DailyBars(target.symbol, g, Sessions(target.calendar, request.start, request.end))
    requires !run.operational && request.end <= run.cutoff && required != {}
    requires forall d :: d in required ==> d in Sessions(target.calendar, request.start, request.end)
    ensures rows != [] && Present(run, rows, required) == required
  {
    var days := Sessions(target.calendar, request.start, request.end);
    forall d | d in required
      ensures d in Present(run, rows, required)
    {
      var k :| 0 <= k < |days| && days[k] == d;
      assert rows[k] == DailyBar(target.symbol, g, d);
    }
    var d :| d in required;
    assert days != [];
  }

  lemma WholeShare(n: nat)
    requires n > 0
    ensures n as real / n as real == 1.0
  {}

  // -------- what is stored --------

  /** One row for each of the days, all of the one series. */
  ghost predicate DayRows(entries: seq<Incoming>, target: Target, g: Group, days: set<int>) {
    && (forall i :: 0 <= i < |entries| ==>
          entries[i] == Incoming(TableFor(target), DailyBar(target.symbol, g, entries[i].bar.marketDate))
          && entries[i].bar.marketDate in days)
    && (forall d :: d in days ==> exists i :: 0 <= i < |entries| && entries[i].bar.marketDate == d)
  }

  /** Rows new to the store are the series' own; rows already there stay whose they were. */
  ghost predicate StoredOver(before: Table, after: Table, target: Target, g: Group, days: set<int>) {
    && (forall k :: k in before ==> k in after && after[k].bar == before[k].bar)
    && (forall k :: k in after && k !in before ==>
          k == DailyKey(g, after[k].bar.marketDate) && after[k].bar.marketDate in days
          && after[k].bar.canonicalSymbol == target.symbol && after[k].bar.interval == EOD)
    && (forall d :: d in days ==> DailyKey(g, d) in after)
  }

  ghost predicate OwnDays(entries: seq<Incoming>, target: Target, g: Group) {
    forall i :: 0 <= i < |entries| ==>
      entries[i] == Incoming(TableFor(target), DailyBar(target.symbol, g, entries[i].bar.marketDate))
  }

  ghost function DaysOf(entries: seq<Incoming>): set<int> {
    set i | 0 <= i < |entries| :: entries[i].bar.marketDate
  }

  lemma {:induction false} UpsertStoresOver(t: Table, entries: seq<Incoming>, target: Target, g: Group)
    requires OwnDays(entries, target, g) && g.table == TableFor(target) && g.interval == EOD
    ensures StoredOver(t, UpsertAll(t, entries), target, g, DaysOf(entries))
  {
    if entries == [] {
    } else {
      var init, e := entries[..|entries| - 1], entries[|entries| - 1];
      assert forall i :: 0 <= i < |init| ==> init[i] == entries[i];
      UpsertStoresOver(t, init, target, g);
      assert entries == init + [e];
      DaysOfMore(init, e);
      StoreOneOver(t, UpsertAll(t, init), e, target, g, DaysOf(init));
    }
  }

  lemma DaysOfMore(init: seq<Incoming>, e: Incoming)
    ensures DaysOf(init + [e]) == DaysOf(init) + {e.bar.marketDate}
  {
    var all := init + [e];
    assert forall i :: 0 <= i < |init| ==> all[i] == init[i];
    assert all[|init|] == e;
  }

  lemma StoreOneOver(before: Table, t: Table, e: Incoming, target: Target, g: Group, days: set<int>)
    requires StoredOver(before, t, target, g, days) && g.table == TableFor(target) && g.interval == EOD
    requires e == Incoming(TableFor(target), DailyBar(target.symbol, g, e.bar.marketDate))
    ensures StoredOver(before, UpsertOne(t, e), target, g, days + {e.bar.marketDate})
  {
    assert KeyOf(e.table, e.bar) == DailyKey(g, e.bar.marketDate);
  }

  // -------- one run --------

  /** The served series gets every completed session; nobody else gets anything. */
  lemma ServedAsk(targets: seq<Target>, names: Naming, n: nat, g: Group, run: Run, w: Window)
    requires n < |targets| && Feeds(targets[n], names, g)
    requires run == OneServed(targets, names, n, g, run.start, run.end, run.cutoff) && run.end <= run.cutoff
    requires w == WindowFor(targets[n], run, None) && w.target.Some?
    ensures Ask(targets[n], Tickers(targets), run, w).Answered?
    ensures DayRows(Ask(targets[n], Tickers(targets), run, w).entries, targets[n], g, Dates(w.required))
  {
    ServedWindow(targets[n], run, w);
    var p := ServedRoute(targets, names, n, g, run, w);
    ServedRows(targets, names, n, g, run, w);
    var rows := Route(run, CandidatesFor(targets[n], w), Dates(w.required), 1.0, 0).rows;
    RoutedRows(targets, n, g, run, w, rows);
  }

  lemma RoutedRows(targets: seq<Target>, n: nat, g: Group, run: Run, w: Window, rows: seq<Bar>)
    requires n < |targets| && w.target.Some? && w.requestStart.Some? && w.target.value in Dates(w.required)
    requires var r := Route(run, CandidatesFor(targets[n], w), Dates(w.required), 1.0, 0); r.Served? && r.rows == rows
    requires forall b :: b in rows ==>
              b == DailyBar(targets[n].symbol, g, b.marketDate) && b.marketDate in Dates(w.required)
    requires forall d :: d in Dates(w.required) ==> exists b :: b in rows && b.marketDate == d
    ensures Ask(targets[n], Tickers(targets), run, w).Answered?
    ensures DayRows(Ask(targets[n], Tickers(targets), run, w).entries, targets[n], g, Dates(w.required))
  {
    AskedFrom(targets[n], Tickers(targets), run, w, rows);
    ResolvedDays(targets, n, g, rows, Dates(w.required));
  }

  lemma ResolvedDays(targets: seq<Target>, n: nat, g: Group, rows: seq<Bar>, days: set<int>)
    requires n < |targets|
    requires forall b :: b in rows ==> b == DailyBar(targets[n].symbol, g, b.marketDate) && b.marketDate in days
    requires forall d :: d in days ==> exists b :: b in rows && b.marketDate == d
    ensures DayRows(Resolve(rows, StocksFor(targets[n], Tickers(targets))), targets[n], g, days)
  {
    var entries := Resolve(rows, StocksFor(targets[n], Tickers(targets)));
    forall i | 0 <= i < |entries|
      ensures entries[i] == Incoming(TableFor(targets[n]), DailyBar(targets[n].symbol, g, entries[i].bar.marketDate))
              && entries[i].bar.marketDate in days
    {
      assert rows[i] in rows;
    }
    forall d | d in days
      ensures exists i :: 0 <= i < |entries| && entries[i].bar.marketDate == d
    {
      var b :| b in rows && b.marketDate == d;
      var i :| 0 <= i < |rows| && rows[i] == b;
      assert entries[i].bar.marketDate == d;
    }
  }

  lemma ServedWindow(target: Target, run: Run, w: Window)
    requires w == WindowFor(target, run, None) && w.target.Some?
    ensures w.requestStart == Some(run.start) && run.start <= w.target.value <= run.end
    ensures w.target.value in Dates(w.required)
    ensures forall d :: d in Dates(w.required) <==> IsCompleted(target.calendar, run.start, run.end, run.cutoff, d)
    ensures forall d :: d in Dates(w.required) ==> d in Sessions(target.calendar, run.start, w.target.value)
  {
    CompletedSpec(target.calendar, run.start, run.end, run.cutoff);
    WindowAsks(Completed(target.calendar, run.start, run.end, run.cutoff), run.start, None);
  }

  lemma ServedRoute(targets: seq<Target>, names: Naming, n: nat, g: Group, run: Run, w: Window) returns (p: nat)
    requires n < |targets| && Feeds(targets[n], names, g)
    requires run == OneServed(targets, names, n, g, run.start, run.end, run.cutoff) && run.end <= run.cutoff
    requires w == WindowFor(targets[n], run, None) && w.target.Some?
    ensures w.requestStart.Some? && Dates(w.required) != {}
    ensures Route(run, CandidatesFor(targets[n], w), Dates(w.required), 1.0, 0).Served?
  {
    var target := targets[n];
    ServedWindow(target, run, w);
    var source :| source in target.sources && names(source.0) == g.provider && source.1 == g.symbol;
    p :| 0 <= p < |target.sources| && target.sources[p] == source;
    var candidates, required := CandidatesFor(target, w), Dates(w.required);
    forall k | 0 <= k < |candidates|
      ensures candidates[k].registryKey in run.providers
      ensures !Judge(run, run.providers[candidates[k].registryKey], candidates[k].request, required, 1.0).Raise?
    {
      NeverRaises(targets, names, n, g, run, k, candidates[k], required);
    }
    FullAnswerAccepted(run, run.providers[candidates[p].registryKey], candidates[p].request, target, g, required);
    RouteServes(run, candidates, required, 0, p);
  }

  lemma NeverRaises(targets: seq<Target>, names: Naming, n: nat, g: Group, run: Run, k: nat, c: Candidate,
                    required: set<int>)
    requires n < |targets| && run == OneServed(targets, names, n, g, run.start, run.end, run.cutoff)
    requires k < |targets[n].sources| && c.registryKey == targets[n].sources[k].0 && required != {}
    ensures c.registryKey in run.providers
    ensures !Judge(run, run.providers[c.registryKey], c.request, required, 1.0).Raise?
  {
    assert c.registryKey in Registry(targets);
  }

  lemma ServedRows(targets: seq<Target>, names: Naming, n: nat, g: Group, run: Run, w: Window)
    requires n < |targets| && run == OneServed(targets, names, n, g, run.start, run.end, run.cutoff)
    requires w.target.Some? && w.requestStart.Some? && Dates(w.required) != {}
    requires Route(run, CandidatesFor(targets[n], w), Dates(w.required), 1.0, 0).Served?
    ensures var rows := Route(run, CandidatesFor(targets[n], w), Dates(w.required), 1.0, 0).rows;
            && (forall b :: b in rows ==>
                  b == DailyBar(targets[n].symbol, g, b.marketDate) && b.marketDate in Dates(w.required))
            && (forall d :: d in Dates(w.required) ==> exists b :: b in rows && b.marketDate == d)
  {
    var candidates, required := CandidatesFor(targets[n], w), Dates(w.required);
    ServedWasAccepted(run, candidates, required, 1.0, 0);
    var c := candidates[Route(run, candidates, required, 1.0, 0).index];
    AcceptedSeriesIsComplete(run, run.providers[c.registryKey], c.request, required);
  }

  lemma AskedFrom(target: Target, stocks: set<string>, run: Run, w: Window, rows: seq<Bar>)
    requires w.target.Some? && w.requestStart.Some? && Dates(w.required) != {}
    requires var r := Route(run, CandidatesFor(target, w), Dates(w.required), 1.0, 0); r.Served? && r.rows == rows
    requires forall b :: b in rows ==> b.rawHash.Some?
    requires exists d :: d in Dates(w.required) && exists b :: b in rows && b.marketDate == d
    ensures Ask(target, stocks, run, w).Answered?
    ensures Ask(target, stocks, run, w).entries == Resolve(rows, StocksFor(target, stocks))
  {}

  /** No other series is answered. */
  lemma OthersUnanswered(targets: seq<Target>, names: Naming, n: nat, m: nat, g: Group, run: Run, w: Window)
    requires n < |targets| && m < |targets| && targets[m].symbol != targets[n].symbol
    requires run == OneServed(targets, names, n, g, run.start, run.end, run.cutoff)
    ensures Ask(targets[m], Tickers(targets), run, w).NoAnswer?
  {
    if w.target.Some? && w.requestStart.Some? && Dates(w.required) != {} {
      var candidates, required := CandidatesFor(targets[m], w), Dates(w.required);
      forall k | 0 <= k < |candidates|
        ensures candidates[k].registryKey in run.providers
        ensures Judge(run, run.providers[candidates[k].registryKey], candidates[k].request, required, 1.0).Reject?
      {
        assert candidates[k].registryKey == targets[m].sources[k].0 && targets[m].sources[k].0 in Registry(targets);
      }
      RouteFails(run, candidates, required, 0);
    }
  }

  /** The one run, as an entry of a history. */
  ghost function OneServedHistory(targets: seq<Target>, n: nat, run: Run, before: Table, after: Table): History
    requires n < |targets|
  {
    var tables := seq(|targets| + 1, k => if k <= n then before else after);
    History(run, (symbol: string) => None, tables,
            seq(|targets|, k requires 0 <= k < |targets| =>
              FetchSeries(if k <= n then before else after, targets[k], run, None, Router(run, Tickers(targets))).1))
  }

  lemma ServedRun(targets: seq<Target>, names: Naming, n: nat, g: Group, start: int, end: int, cutoff: int,
                  before: Table)
    returns (h: History, after: Table, days: set<int>)
    requires GoodPlan(targets) && n < |targets| && Feeds(targets[n], names, g) && end <= cutoff
    requires exists d :: IsCompleted(targets[n].calendar, start, end, cutoff, d)
    ensures h.run == OneServed(targets, names, n, g, start, end, cutoff) && Happened(h, targets, before, after)
    ensures forall d :: d in days <==> IsCompleted(targets[n].calendar, start, end, cutoff, d)
    ensures StoredOver(before, after, targets[n], g, days)
  {
    var run := OneServed(targets, names, n, g, start, end, cutoff);
    after, days := ServedSeries(targets, names, n, g, run, before);
    h := OneServedHistory(targets, n, run, before, after);
    OneServedHappened(targets, names, n, g, run, before, after, h);
  }

  lemma ServedSeries(targets: seq<Target>, names: Naming, n: nat, g: Group, run: Run, before: Table)
    returns (after: Table, days: set<int>)
    requires n < |targets| && Feeds(targets[n], names, g) && run.end <= run.cutoff
    requires run == OneServed(targets, names, n, g, run.start, run.end, run.cutoff)
    requires exists d :: IsCompleted(targets[n].calendar, run.start, run.end, run.cutoff, d)
    ensures after == FetchSeries(before, targets[n], run, None, Router(run, Tickers(targets))).0
    ensures forall d :: d in days <==> IsCompleted(targets[n].calendar, run.start, run.end, run.cutoff, d)
    ensures StoredOver(before, after, targets[n], g, days)
  {
    CompletedSpec(targets[n].calendar, run.start, run.end, run.cutoff);
    var w := WindowFor(targets[n], run, None);
    ServedWindow(targets[n], run, w);
    ServedAsk(targets, names, n, g, run, w);
    var entries := Ask(targets[n], Tickers(targets), run, w).entries;
    after, days := UpsertAll(before, entries), Dates(w.required);
    UpsertStoresOver(before, entries, targets[n], g);
    DayRowsDays(entries, targets[n], g, days);
    ServedFetch(targets, n, run, w, before, entries);
  }

  lemma ServedFetch(targets: seq<Target>, n: nat, run: Run, w: Window, before: Table, entries: seq<Incoming>)
    requires n < |targets| && targets[n].sources != [] && w == WindowFor(targets[n], run, None) && w.target.Some?
    requires var answer := Ask(targets[n], Tickers(targets), run, w); answer.Answered? && answer.entries == entries
    ensures FetchSeries(before, targets[n], run, None, Router(run, Tickers(targets))).0 == UpsertAll(before, entries)
  {}

  lemma DayRowsDays(entries: seq<Incoming>, target: Target, g: Group, days: set<int>)
    requires DayRows(entries, target, g, days)
    ensures DaysOf(entries) == days && OwnDays(entries, target, g)
  {
    forall d | d in days
      ensures d in DaysOf(entries)
    {
      var i :| 0 <= i < |entries| && entries[i].bar.marketDate == d;
    }
  }

  lemma OneServedHappened(targets: seq<Target>, names: Naming, n: nat, g: Group, run: Run, before: Table,
                          after: Table, h: History)
    requires GoodPlan(targets) && n < |targets|
    requires run == OneServed(targets, names, n, g, run.start, run.end, run.cutoff)
    requires after == FetchSeries(before, targets[n], run, None, Router(run, Tickers(targets))).0
    requires h == OneServedHistory(targets, n, run, before, after)
    ensures Happened(h, targets, before, after)
  {
    forall m | 0 <= m < |targets|
      ensures SeriesRan(h.tables, m, targets[m], run, None, Router(run, Tickers(targets)), h.outcomes[m])
    {
      if m != n {
        OthersUnfetched(targets, names, n, m, g, run, if m <= n then before else after);
      }
    }
  }

  lemma OthersUnfetched(targets: seq<Target>, names: Naming, n: nat, m: nat, g: Group, run: Run, t: Table)
    requires n < |targets| && m < |targets| && targets[m].symbol != targets[n].symbol
    requires run == OneServed(targets, names, n, g, run.start, run.end, run.cutoff)
    ensures FetchSeries(t, targets[m], run, None, Router(run, Tickers(targets))).0 == t
  {
    OthersUnanswered(targets, names, n, m, g, run, WindowFor(targets[m], run, None));
  }

  // ------------------------------------------------------------------
  // The hole
  // ------------------------------------------------------------------

  /** The first run stores a day under one series; the second stores a later day under the other, for
      which the first day was reused and is missing. */
  lemma FirstDayMissing(first: Table, second: Table, a: Target, b: Target, g: Group, start: int, d1: int, d2: int,
                        early: set<int>, late: set<int>)
    requires StoredOver(map[], first, a, g, early) && StoredOver(first, second, b, g, late)
    requires a.symbol != b.symbol && d1 in early && (forall d :: d in early ==> d <= d1) && d2 in late
    requires start <= d1 < d2 && b.calendar.isSession(d1)
    ensures !NoGap(StoredDates(second, b.symbol), b.calendar, start)
  {
    var k1, k2 := DailyKey(g, d1), DailyKey(g, d2);
    assert k2 in second && k2 !in first;
    assert second[k2].bar.marketDate == d2 && second[k2].bar.canonicalSymbol == b.symbol;
    assert d2 in StoredDates(second, b.symbol);
    assert k1 in first && d1 !in StoredDates(second, b.symbol);
  }

  /** Whatever else the plan holds: if two of its series share a source and both trade on some day
      after which the second trades again, two runs leave a hole in the second. */
  lemma SharedSourceLeavesGap(targets: seq<Target>, names: Naming, i: nat, j: nat, g: Group, start: int, d1: int,
                              d2: int)
    returns (stored: seq<Table>, runs: seq<History>)
    requires GoodPlan(targets) && i < |targets| && j < |targets| && i != j
    requires Feeds(targets[i], names, g) && Feeds(targets[j], names, g)
    requires start <= d1 < d2 && targets[i].calendar.isSession(d1)
    requires targets[j].calendar.isSession(d1) && targets[j].calendar.isSession(d2)
    ensures Past(stored, runs, targets, start, names, ByInstant())
    ensures !NoGap(StoredDates(stored[|runs|], targets[j].symbol), targets[j].calendar, start)
  {
    var cutoff1 := Max(targets[i].calendar.availableAt(d1), d1);
    var cutoff2 := Max(targets[j].calendar.availableAt(d2), d2);
    assert IsCompleted(targets[i].calendar, start, d1, cutoff1, d1);
    assert IsCompleted(targets[j].calendar, start, d2, cutoff2, d2);
    var h1, first, early := ServedRun(targets, names, i, g, start, d1, cutoff1, map[]);
    var h2, second, late := ServedRun(targets, names, j, g, start, d2, cutoff2, first);
    OneServedAnswers(targets, names, i, g, start, d1, cutoff1);
    OneServedAnswers(targets, names, j, g, start, d2, cutoff2);
    stored, runs := [map[], first, second], [h1, h2];
    TwoRuns(targets, names, start, first, second, h1, h2);
    FirstDayMissing(first, second, targets[i], targets[j], g, start, d1, d2, early, late);
  }

  lemma TwoRuns(targets: seq<Target>, names: Naming, start: int, first: Table, second: Table, h1: History, h2: History)
    requires Happened(h1, targets, map[], first) && Happened(h2, targets, first, second)
    requires h1.run.start == start && h2.run.start == start
    requires AnswersPlan(h1.run, targets, names, ByInstant()) && AnswersPlan(h2.run, targets, names, ByInstant())
    ensures Past([map[], first, second], [h1, h2], targets, start, names, ByInstant())
  {}

  /** Over a plan whose series trade on two common days, ingestion never leaves a hole exactly when no
      two series of one table share a source. */
  lemma GapFreeExactlyWhenDistinct(targets: seq<Target>, names: Naming, start: int, d1: int, d2: int)
    requires GoodPlan(targets) && start <= d1 < d2
    requires forall i :: 0 <= i < |targets| ==> targets[i].calendar.isSession(d1) && targets[i].calendar.isSession(d2)
    ensures (forall stored, runs, dated ::
               Past(stored, runs, targets, start, names, dated) ==> Whole(stored[|runs|], targets, start))
       <==> SourcesDistinct(targets, names)
  {
    if SourcesDistinct(targets, names) {
      forall stored, runs, dated | Past(stored, runs, targets, start, names, dated)
        ensures Whole(stored[|runs|], targets, start)
      {
        RunsLeaveNoGap(stored, runs, targets, start, names, dated);
      }
    } else {
      var i, j, g :| 0 <= i < |targets| && 0 <= j < |targets|
                     && Feeds(targets[i], names, g) && Feeds(targets[j], names, g) && i != j;
      var stored, runs := SharedSourceLeavesGap(targets, names, i, j, g, start, d1, d2);
      assert Past(stored, runs, targets, start, names, ByInstant()) && !Whole(stored[|runs|], targets, start);
    }
  }
}
