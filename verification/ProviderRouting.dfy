/** Which provider's answer is taken (data/provider_router.py), in the columns of the rows it returned. */
module ProviderRouting {
  import opened Arithmetic
  import opened BarStore
  import opened Ingestion
  import opened Wrappers

  /** Rows, all under the provider's own name and for the series asked for. */
  ghost predicate OneSource(provider: Provider, request: FetchRequest) {
    match provider.fetch(request)
    case ProviderError(_) => false
    case Rows(rows) =>
      && |rows| > 0
      && forall b :: b in rows ==> b.provider == provider.name && b.canonicalSymbol == request.canonicalSymbol
  }

  /** Rows of another provider or another series among them: the run is not to go on. */
  ghost predicate Mixed(provider: Provider, request: FetchRequest) {
    match provider.fetch(request)
    case ProviderError(_) => false
    case Rows(rows) =>
      exists b :: b in rows && (b.provider != provider.name || b.canonicalSymbol != request.canonicalSymbol)
  }

  ghost predicate Trusted(b: Bar) {
    b.quality == Official || b.quality == EodConfirmed || b.quality == FreeUnverified
  }

  /** Known by the cutoff: available, and in an operational run observed and retrieved as well. */
  ghost predicate InTime(run: Run, b: Bar) {
    b.available <= run.cutoff && (run.operational ==> b.firstObserved <= run.cutoff && b.retrieved <= run.cutoff)
  }

  ghost predicate Meets(run: Run, rows: seq<Bar>, d: int) {
    exists b :: b in rows && b.marketDate == d && InTime(run, b)
  }

  ghost function DatesMet(run: Run, rows: seq<Bar>, required: set<int>): set<int> {
    set d | d in required && Meets(run, rows, d)
  }

  /** Enough required dates, in rows of trusted quality from one source. */
  ghost predicate Covers(run: Run, provider: Provider, request: FetchRequest, required: set<int>, coverage: real) {
    && OneSource(provider, request)
    && var rows := provider.fetch(request).rows;
    && (forall b :: b in rows ==> Trusted(b))
    && coverage * |required| as real <= |DatesMet(run, rows, required)| as real
  }

  /** The same at full coverage: a row in time for every required date. */
  ghost predicate Usable(run: Run, provider: Provider, request: FetchRequest, required: set<int>) {
    && OneSource(provider, request)
    && var rows := provider.fetch(request).rows;
    && (forall b :: b in rows ==> Trusted(b))
    && (forall d :: d in required ==> Meets(run, rows, d))
  }

  // ------------------------------------------------------------------
  // One candidate
  // ------------------------------------------------------------------

  lemma SameDates(run: Run, rows: seq<Bar>, required: set<int>)
    ensures Present(run, rows, required) == DatesMet(run, rows, required)
  {
    forall d | d in required && Meets(run, rows, d)
      ensures d in Present(run, rows, required)
    {
      var b :| b in rows && b.marketDate == d && InTime(run, b);
      assert Visible(run, b);
    }
    forall d | d in Present(run, rows, required)
      ensures Meets(run, rows, d)
    {
      var b :| b in rows && Visible(run, b) && b.marketDate in required && b.marketDate == d;
      assert InTime(run, b);
    }
  }

  lemma BelowCoverage(met: nat, required: nat, coverage: real)
    requires required > 0
    ensures met as real / required as real < coverage <==> met as real < coverage * required as real
  {
    var share, n := met as real / required as real, required as real;
    assert share * n == met as real;
    assert (coverage - share) * n == coverage * n - met as real;
    SignOfProduct(coverage - share, n);
  }

  /** An answer is taken exactly when it is of one source, of trusted quality throughout, and has enough
      required dates in time; it ends the run exactly when its rows are mixed. */
  lemma AcceptedExactly(run: Run, provider: Provider, request: FetchRequest, required: set<int>, coverage: real)
    requires required != {}
    ensures var verdict := Judge(run, provider, request, required, coverage);
            && (verdict.Accept? <==> Covers(run, provider, request, required, coverage))
            && (verdict.Raise? <==> Mixed(provider, request))
  {
    if provider.fetch(request).Rows? {
      var rows := provider.fetch(request).rows;
      SameDates(run, rows, required);
      BelowCoverage(|DatesMet(run, rows, required)|, |required|, coverage);
      AllTrusted(rows);
      if rows != [] {
        assert rows[0] in rows;
      }
    }
  }

  lemma AllTrusted(rows: seq<Bar>)
    ensures Unacceptable(rows).None? <==> forall b :: b in rows ==> Trusted(b)
  {}

  /** At full coverage: exactly when every required date has a row in time. */
  lemma FullyCovered(run: Run, provider: Provider, request: FetchRequest, required: set<int>)
    ensures Covers(run, provider, request, required, 1.0) <==> Usable(run, provider, request, required)
  {
    if OneSource(provider, request) {
      var rows := provider.fetch(request).rows;
      var met := DatesMet(run, rows, required);
      assert met <= required;
      SubsetSize(met, required);
      if |met| >= |required| {
        SubsetOfSize(met, required);
        assert forall d :: d in required ==> d in met;
      }
      if forall d :: d in required ==> Meets(run, rows, d) {
        assert met == required;
      }
    }
  }

  ghost predicate ShareMet(run: Run, provider: Provider, request: FetchRequest, required: set<int>, share: real) {
    && OneSource(provider, request)
    && share * |required| as real == |DatesMet(run, provider.fetch(request).rows, required)| as real
  }

  /** Why an answer is turned down, and how well an answer did. */
  lemma NotedExactly(run: Run, provider: Provider, request: FetchRequest, required: set<int>, coverage: real)
    requires required != {} && !Mixed(provider, request)
    ensures var verdict := Judge(run, provider, request, required, coverage);
            && !verdict.Raise?
            && (verdict.note.freshness == Missing <==> !OneSource(provider, request))
            && (verdict.note.freshness == QualityRejected
                <==> OneSource(provider, request) && exists b :: b in provider.fetch(request).rows && !Trusted(b))
            && (verdict.note.freshness == UpToDate <==> verdict.Accept?)
            && (verdict.note.coverage.Some? ==> ShareMet(run, provider, request, required, verdict.note.coverage.value))
  {
    if provider.fetch(request).Rows? {
      var rows := provider.fetch(request).rows;
      SameDates(run, rows, required);
      assert forall b :: b in rows ==> (AcceptableQuality(b.quality) <==> Trusted(b));
      CancelQuotient(|DatesMet(run, rows, required)| as real, |required| as real);
    }
  }

  /** The quality reported is that of the last row in time, or of the last row when none is. */
  ghost predicate LastQuality(run: Run, rows: seq<Bar>, quality: Quality) {
    exists n :: 0 <= n < |rows| && rows[n].quality == quality
                && (forall m :: n < m < |rows| ==> !InTime(run, rows[m]))
                && (InTime(run, rows[n]) || (n == |rows| - 1 && forall m :: 0 <= m < n ==> !InTime(run, rows[m])))
  }

  lemma {:induction false} LastVisibleIs(run: Run, rows: seq<Bar>, otherwise: Quality) returns (n: int)
    ensures -1 <= n < |rows| && (forall m :: n < m < |rows| ==> !InTime(run, rows[m]))
    ensures if n < 0 then LastVisible(run, rows, otherwise) == otherwise
            else InTime(run, rows[n]) && LastVisible(run, rows, otherwise) == rows[n].quality
  {
    n := |rows| - 1;
    if rows != [] {
      assert Visible(run, rows[n]) <==> InTime(run, rows[n]);
      if !InTime(run, rows[n]) {
        n := LastVisibleIs(run, rows[..n], otherwise);
      }
    }
  }

  lemma SeriesQualityIsLast(run: Run, rows: seq<Bar>)
    requires rows != []
    ensures LastQuality(run, rows, SeriesQuality(run, rows))
  {
    var n := LastVisibleIs(run, rows, rows[|rows| - 1].quality);
    var at := if n < 0 then |rows| - 1 else n;
    assert rows[at].quality == SeriesQuality(run, rows);
  }

  lemma {:induction false} UnacceptableIsFirst(rows: seq<Bar>) returns (n: nat)
    ensures n <= |rows| && forall m :: 0 <= m < n ==> Trusted(rows[m])
    ensures if n == |rows| then Unacceptable(rows).None?
            else !Trusted(rows[n]) && Unacceptable(rows) == Some(rows[n].quality)
  {
    n := 0;
    if rows != [] && Trusted(rows[0]) {
      n := UnacceptableIsFirst(rows[1..]);
      assert forall m :: 0 <= m < n ==> rows[1..][m] == rows[m + 1];
      n := n + 1;
    }
  }

  /** A refused quality is the first untrusted one; otherwise the reported quality is the latest. */
  lemma QualityNotedExactly(run: Run, provider: Provider, request: FetchRequest, required: set<int>, coverage: real)
    requires required != {} && OneSource(provider, request)
    ensures var note, rows := Judge(run, provider, request, required, coverage).note, provider.fetch(request).rows;
            && note.quality.Some?
            && ((forall b :: b in rows ==> Trusted(b)) ==> LastQuality(run, rows, note.quality.value))
            && (forall n :: 0 <= n < |rows| && !Trusted(rows[n]) && (forall m :: 0 <= m < n ==> Trusted(rows[m])) ==>
                  note.quality.value == rows[n].quality)
  {
    var rows := provider.fetch(request).rows;
    var first := UnacceptableIsFirst(rows);
    if first == |rows| {
      SeriesQualityIsLast(run, rows);
    } else {
      assert rows[first] in rows;
    }
  }

  /** `places` lists, in order, the rows in time for a required date. */
  ghost predicate ListsInTime(run: Run, rows: seq<Bar>, required: set<int>, places: seq<nat>) {
    && (forall k :: 0 <= k < |places| ==>
          places[k] < |rows| && InTime(run, rows[places[k]]) && rows[places[k]].marketDate in required)
    && (forall j, k :: 0 <= j < k < |places| ==> places[j] < places[k])
    && (forall n :: 0 <= n < |rows| && InTime(run, rows[n]) && rows[n].marketDate in required ==> n in places)
  }

  ghost predicate Picks(picked: seq<Bar>, rows: seq<Bar>, places: seq<nat>) {
    && |picked| == |places|
    && forall k :: 0 <= k < |places| ==> places[k] < |rows| && picked[k] == rows[places[k]]
  }

  /** What is taken is every such row, unaltered and in the provider's order. */
  lemma {:induction false} SelectedInOrder(run: Run, rows: seq<Bar>, required: set<int>) returns (places: seq<nat>)
    ensures ListsInTime(run, rows, required, places) && Picks(Selected(run, rows, required), rows, places)
  {
    if rows == [] {
      places := [];
    } else {
      places := SelectedInOrder(run, rows[..|rows| - 1], required);
      places := NextPlace(run, rows, required, places, Selected(run, rows[..|rows| - 1], required),
                          Selected(run, rows, required));
    }
  }

  lemma NextPlace(run: Run, rows: seq<Bar>, required: set<int>, before: seq<nat>, picked: seq<Bar>, more: seq<Bar>)
    returns (places: seq<nat>)
    requires rows != [] && ListsInTime(run, rows[..|rows| - 1], required, before)
    requires Picks(picked, rows[..|rows| - 1], before)
    requires var last := rows[|rows| - 1];
             more == picked + if Visible(run, last) && last.marketDate in required then [last] else []
    ensures ListsInTime(run, rows, required, places) && Picks(more, rows, places)
  {
    var init, last := rows[..|rows| - 1], |rows| - 1;
    assert forall n :: 0 <= n < last ==> init[n] == rows[n];
    assert Visible(run, rows[last]) <==> InTime(run, rows[last]);
    if InTime(run, rows[last]) && rows[last].marketDate in required {
      places := OneMorePlace(run, rows, required, before);
    } else {
      places := before;
      NoMorePlace(run, rows, required, before);
    }
  }

  lemma NoMorePlace(run: Run, rows: seq<Bar>, required: set<int>, places: seq<nat>)
    requires rows != [] && ListsInTime(run, rows[..|rows| - 1], required, places)
    requires !(InTime(run, rows[|rows| - 1]) && rows[|rows| - 1].marketDate in required)
    ensures ListsInTime(run, rows, required, places)
  {
    var init := rows[..|rows| - 1];
    forall n | 0 <= n < |rows| && InTime(run, rows[n]) && rows[n].marketDate in required
      ensures n in places
    {
      assert init[n] == rows[n];
    }
  }

  lemma OneMorePlace(run: Run, rows: seq<Bar>, required: set<int>, before: seq<nat>) returns (places: seq<nat>)
    requires rows != [] && ListsInTime(run, rows[..|rows| - 1], required, before)
    requires InTime(run, rows[|rows| - 1]) && rows[|rows| - 1].marketDate in required
    ensures places == before + [|rows| - 1] && ListsInTime(run, rows, required, places)
  {
    var init, last := rows[..|rows| - 1], |rows| - 1;
    places := before + [last];
    forall n | 0 <= n < |rows| && InTime(run, rows[n]) && rows[n].marketDate in required
      ensures n in places
    {
      if n < last {
        assert init[n] == rows[n];
        assert n in before;
      } else {
        assert places[|before|] == n;
      }
    }
  }

  // ------------------------------------------------------------------
  // The candidates in turn
  // ------------------------------------------------------------------

  /** The candidate's provider is registered and its answer neither used nor mixed. */
  ghost predicate PassedOver(run: Run, c: Candidate, required: set<int>, coverage: real) {
    && c.registryKey in run.providers && !Mixed(run.providers[c.registryKey], c.request)
    && !Covers(run, run.providers[c.registryKey], c.request, required, coverage)
  }

  ghost predicate Taken(run: Run, c: Candidate, required: set<int>, coverage: real) {
    c.registryKey in run.providers && Covers(run, run.providers[c.registryKey], c.request, required, coverage)
  }

  ghost predicate Halts(run: Run, c: Candidate) {
    c.registryKey !in run.providers || Mixed(run.providers[c.registryKey], c.request)
  }

  /** What the deciding candidate, if any, makes of the series. */
  ghost predicate DecidedBy(run: Run, candidates: seq<Candidate>, required: set<int>, coverage: real, n: nat,
                            r: Routing)
  {
    if n >= |candidates| then r.Unserved?
    else if Halts(run, candidates[n]) then r.Raised?
    else
      var c := candidates[n];
      && Taken(run, c, required, coverage)
      && r == Served(n, run.providers[c.registryKey].name,
                     Selected(run, run.providers[c.registryKey].fetch(c.request).rows, required))
  }

  lemma OneVerdict(run: Run, c: Candidate, required: set<int>, coverage: real)
    requires required != {}
    ensures Taken(run, c, required, coverage) ==> !Halts(run, c)
    ensures PassedOver(run, c, required, coverage) <==> !Taken(run, c, required, coverage) && !Halts(run, c)
  {
    if c.registryKey in run.providers {
      AcceptedExactly(run, run.providers[c.registryKey], c.request, required, coverage);
    }
  }

  /** The first candidate that is not passed over decides the series: the run halts on it or its answer
      is taken; without one nothing is served. */
  lemma {:induction false} FirstDecides(run: Run, candidates: seq<Candidate>, required: set<int>, coverage: real,
                                        i: nat)
    returns (n: nat)
    requires required != {} && i <= |candidates|
    ensures i <= n <= |candidates|
    ensures forall j :: i <= j < n ==> PassedOver(run, candidates[j], required, coverage)
    ensures DecidedBy(run, candidates, required, coverage, n, Route(run, candidates, required, coverage, i))
    decreases |candidates| - i
  {
    n := i;
    if i < |candidates| {
      OneVerdict(run, candidates[i], required, coverage);
      if PassedOver(run, candidates[i], required, coverage) {
        n := FirstDecides(run, candidates, required, coverage, i + 1);
        PassesOn(run, candidates, required, coverage, i);
      } else {
        DecidesHere(run, candidates, required, coverage, i);
      }
    }
  }

  lemma PassesOn(run: Run, candidates: seq<Candidate>, required: set<int>, coverage: real, i: nat)
    requires required != {} && i < |candidates| && PassedOver(run, candidates[i], required, coverage)
    ensures Route(run, candidates, required, coverage, i) == Route(run, candidates, required, coverage, i + 1)
  {
    var c := candidates[i];
    AcceptedExactly(run, run.providers[c.registryKey], c.request, required, coverage);
  }

  lemma DecidesHere(run: Run, candidates: seq<Candidate>, required: set<int>, coverage: real, i: nat)
    requires required != {} && i < |candidates| && !PassedOver(run, candidates[i], required, coverage)
    ensures DecidedBy(run, candidates, required, coverage, i, Route(run, candidates, required, coverage, i))
  {
    var c := candidates[i];
    if c.registryKey in run.providers {
      AcceptedExactly(run, run.providers[c.registryKey], c.request, required, coverage);
    }
  }
}
