/** How one series of a run ends (data/fetch.py), told by its window and by the rows its sources return. */
module SeriesOutcomes {
  import opened BarStore
  import opened Ingestion
  import opened IngestionRuns
  import opened ProviderRouting
  import opened Wrappers

  /** What a source is asked for: its own symbol, from the day after what is stored, or the start date, to
      the last completed session. */
  ghost predicate AsksFor(request: FetchRequest, target: Target, source: (string, string), w: Window) {
    && w.requestStart.Some? && w.target.Some?
    && request.canonicalSymbol == target.symbol && request.providerSymbol == source.1
    && request.start == w.requestStart.value && request.end == w.target.value
  }

  ghost predicate Answers(run: Run, target: Target, w: Window, n: nat) {
    && n < |target.sources| && target.sources[n].0 in run.providers && w.requestStart.Some? && w.target.Some?
    && Usable(run, run.providers[target.sources[n].0], RequestTo(target, w, n), Dates(w.required))
  }

  ghost predicate Breaks(run: Run, target: Target, w: Window, n: nat) {
    && n < |target.sources| && w.requestStart.Some? && w.target.Some?
    && (target.sources[n].0 in run.providers ==> Mixed(run.providers[target.sources[n].0], RequestTo(target, w, n)))
  }

  ghost function RequestTo(target: Target, w: Window, n: nat): (request: FetchRequest)
    requires n < |target.sources| && w.requestStart.Some? && w.target.Some?
    ensures AsksFor(request, target, target.sources[n], w)
  {
    FetchRequest(target.symbol, target.sources[n].1, w.requestStart.value, w.target.value)
  }

  /** The rows in time for a required session, every one of them with a content hash. */
  ghost predicate AllHashed(run: Run, target: Target, w: Window, n: nat) {
    && Answers(run, target, w, n)
    && var rows := run.providers[target.sources[n].0].fetch(RequestTo(target, w, n)).rows;
    && forall b :: b in rows && InTime(run, b) && b.marketDate in Dates(w.required) ==> b.rawHash.Some?
  }

  /** The first source that answers has its rows hashed, and none before it breaks the run. */
  ghost predicate Supplied(run: Run, target: Target, w: Window) {
    exists n: nat :: SuppliedBy(run, target, w, n)
  }

  ghost predicate SuppliedBy(run: Run, target: Target, w: Window, n: nat) {
    && AllHashed(run, target, w, n)
    && forall m: nat :: m < n ==> !Breaks(run, target, w, m) && !Answers(run, target, w, m)
  }

  lemma SourcePassed(run: Run, target: Target, w: Window, n: nat)
    requires n < |target.sources| && w.requestStart.Some? && w.target.Some? && Dates(w.required) != {}
    ensures var c, required := CandidatesFor(target, w)[n], Dates(w.required);
            && (Taken(run, c, required, 1.0) <==> Answers(run, target, w, n))
            && (Halts(run, c) <==> Breaks(run, target, w, n))
            && (PassedOver(run, c, required, 1.0) <==> !Answers(run, target, w, n) && !Breaks(run, target, w, n))
            && !(Answers(run, target, w, n) && Breaks(run, target, w, n))
  {
    var c, required := CandidatesFor(target, w)[n], Dates(w.required);
    OneVerdict(run, c, required, 1.0);
    if c.registryKey in run.providers {
      FullyCovered(run, run.providers[c.registryKey], c.request, required);
    }
  }

  /** The providers together answer exactly when the series is supplied. */
  lemma AnsweredExactly(run: Run, target: Target, stocks: set<string>, w: Window)
    requires w.requestStart.Some? && w.target.Some? && Dates(w.required) != {}
    ensures Ask(target, stocks, run, w).Answered? <==> Supplied(run, target, w)
  {
    var candidates, required := CandidatesFor(target, w), Dates(w.required);
    var n := FirstDecides(run, candidates, required, 1.0, 0);
    forall m | 0 <= m < n
      ensures !Breaks(run, target, w, m) && !Answers(run, target, w, m)
    {
      SourcePassed(run, target, w, m);
    }
    if n < |candidates| {
      SourcePassed(run, target, w, n);
      if Answers(run, target, w, n) {
        HashesDecide(run, target, stocks, w, n);
        OnlySupplier(run, target, w, n);
      } else {
        NoSupplier(run, target, w, n);
      }
    } else {
      NoSupplier(run, target, w, n);
    }
  }

  lemma HashesDecide(run: Run, target: Target, stocks: set<string>, w: Window, n: nat)
    requires w.requestStart.Some? && w.target.Some? && Dates(w.required) != {} && Answers(run, target, w, n)
    requires DecidedBy(run, CandidatesFor(target, w), Dates(w.required), 1.0, n,
                       Route(run, CandidatesFor(target, w), Dates(w.required), 1.0, 0))
    requires !Breaks(run, target, w, n)
    ensures Ask(target, stocks, run, w).Answered? <==> AllHashed(run, target, w, n)
  {
    var required, provider := Dates(w.required), run.providers[target.sources[n].0];
    var all := provider.fetch(RequestTo(target, w, n)).rows;
    var rows := Selected(run, all, required);
    forall b
      ensures b in rows <==> b in all && InTime(run, b) && b.marketDate in required
    {
      assert Visible(run, b) <==> InTime(run, b);
    }
    var d :| d in required;
    assert Meets(run, all, d);
    var b :| b in all && b.marketDate == d && InTime(run, b);
    assert b in rows;
  }

  lemma OnlySupplier(run: Run, target: Target, w: Window, n: nat)
    requires Answers(run, target, w, n)
    requires forall m: nat :: m < n ==> !Breaks(run, target, w, m) && !Answers(run, target, w, m)
    ensures Supplied(run, target, w) <==> AllHashed(run, target, w, n)
  {
    if AllHashed(run, target, w, n) {
      assert SuppliedBy(run, target, w, n);
    }
    forall k: nat | SuppliedBy(run, target, w, k)
      ensures k == n
    {}
  }

  lemma NoSupplier(run: Run, target: Target, w: Window, n: nat)
    requires n < |target.sources| ==> Breaks(run, target, w, n) && !Answers(run, target, w, n)
    requires n <= |target.sources|
    requires forall m: nat :: m < n ==> !Answers(run, target, w, m)
    ensures !Supplied(run, target, w)
  {
    forall k: nat
      ensures !SuppliedBy(run, target, w, k)
    {}
  }

  /** How a series of a run ends, and what it leaves in the store: failed without a source, skipped without
      a completed session, covered when what is stored reaches the last one, and otherwise succeeded
      exactly when it is supplied. */
  lemma EndsExactly(t: Table, target: Target, run: Run, storedThrough: Option<int>, stocks: set<string>)
    ensures var (after, outcome) := FetchSeries(t, target, run, storedThrough, Router(run, stocks));
            var w := WindowFor(target, run, storedThrough);
            && (outcome.Skipped? <==> target.sources != [] && NothingCompleted(target, run))
            && (outcome.Covered? <==> target.sources != [] && !NothingCompleted(target, run)
                                      && storedThrough.Some? && AllBy(target, run, storedThrough.value))
            && (outcome.Succeeded? <==> target.sources != [] && !NothingCompleted(target, run)
                                        && !(storedThrough.Some? && AllBy(target, run, storedThrough.value))
                                        && Supplied(run, target, w))
            && (!outcome.Succeeded? ==> after == t)
  {
    var w := WindowFor(target, run, storedThrough);
    WindowExactly(target, run, storedThrough);
    WindowStartsSomewhere(target, run, storedThrough);
    if w.target.Some? && !w.IsCovered() {
      AnsweredExactly(run, target, stocks, w);
    }
  }

  lemma WindowExactly(target: Target, run: Run, storedThrough: Option<int>)
    ensures var w := WindowFor(target, run, storedThrough);
            && (w.target.None? <==> NothingCompleted(target, run))
            && (w.IsCovered() <==> !NothingCompleted(target, run)
                                   && storedThrough.Some? && AllBy(target, run, storedThrough.value))
  {
    var completed := Completed(target.calendar, run.start, run.end, run.cutoff);
    CompletedSpec(target.calendar, run.start, run.end, run.cutoff);
    if completed != [] {
      assert completed[|completed| - 1] in completed;
    }
  }

  ghost predicate NothingCompleted(target: Target, run: Run) {
    forall d :: !IsCompleted(target.calendar, run.start, run.end, run.cutoff, d)
  }

  ghost predicate AllBy(target: Target, run: Run, newest: int) {
    forall d :: IsCompleted(target.calendar, run.start, run.end, run.cutoff, d) ==> d <= newest
  }
}
