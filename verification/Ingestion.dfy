/** Incremental end-of-day ingestion: which sessions to ask for (data/fetch.py), which provider's
    answer to take (data/provider_router.py), and what a run of both leaves in storage. */
module Ingestion {
  import opened Arithmetic
  import opened BarStore
  import opened Wrappers

  const EOD := "eod"

  // ------------------------------------------------------------------
  // The fetch window
  // ------------------------------------------------------------------

  /** An exchange calendar and the conservative instant each session's bar is available. */
  datatype Calendar = Calendar(isSession: int -> bool, availableAt: int -> int)

  ghost predicate Monotone(cal: Calendar) {
    forall d, e :: d <= e ==> cal.availableAt(d) <= cal.availableAt(e)
  }

  function Sessions(cal: Calendar, start: int, end: int): (r: seq<int>)
    ensures forall d :: d in r <==> start <= d <= end && cal.isSession(d)
    ensures Ascending(r)
    decreases end - start + 1
  {
    if end < start then []
    else
      var earlier := Sessions(cal, start, end - 1);
      assert forall i :: 0 <= i < |earlier| ==> earlier[i] in earlier;
      earlier + if cal.isSession(end) then [end] else []
  }

  ghost predicate IsCompleted(cal: Calendar, start: int, end: int, cutoff: int, d: int) {
    start <= d <= end && cal.isSession(d) && cal.availableAt(d) <= cutoff
  }

  ghost predicate Ascending(s: seq<int>) {
    forall i, j :: 0 <= i < j < |s| ==> s[i] < s[j]
  }

  /** The sessions of `all` available by the cutoff, in order. */
  function Available(cal: Calendar, all: seq<int>, cutoff: int): (r: seq<int>)
    ensures forall d :: d in r <==> d in all && cal.availableAt(d) <= cutoff
  {
    if all == [] then []
    else
      var last := all[|all| - 1];
      Available(cal, all[..|all| - 1], cutoff) + if cal.availableAt(last) <= cutoff then [last] else []
  }

  lemma {:induction false} AvailableAscends(cal: Calendar, all: seq<int>, cutoff: int)
    requires Ascending(all)
    ensures Ascending(Available(cal, all, cutoff))
  {
    if all == [] {
    } else {
      var init, last := all[..|all| - 1], all[|all| - 1];
      AvailableAscends(cal, init, cutoff);
      var earlier := Available(cal, init, cutoff);
      forall i | 0 <= i < |earlier|
        ensures earlier[i] < last
      {
        assert earlier[i] in init;
      }
    }
  }

  function Completed(cal: Calendar, start: int, end: int, cutoff: int): seq<int> {
    Available(cal, Sessions(cal, start, end), cutoff)
  }

  lemma CompletedSpec(cal: Calendar, start: int, end: int, cutoff: int)
    ensures Ascending(Completed(cal, start, end, cutoff))
    ensures forall d :: d in Completed(cal, start, end, cutoff) <==> IsCompleted(cal, start, end, cutoff, d)
  {
    AvailableAscends(cal, Sessions(cal, start, end), cutoff);
  }

  method CompletedSessions(cal: Calendar, start: int, end: int, cutoff: int) returns (completed: seq<int>)
    ensures completed == Completed(cal, start, end, cutoff)
  {
    completed := [];
    var sessions := Sessions(cal, start, end);
    for k := 0 to |sessions|
      invariant completed == Available(cal, sessions[..k], cutoff)
    {
      assert sessions[..k + 1][..k] == sessions[..k];
      if cal.availableAt(sessions[k]) <= cutoff {
        completed := completed + [sessions[k]];
      }
    }
    assert sessions[..|sessions|] == sessions;
  }

  datatype Window = Window(target: Option<int>, requestStart: Option<int>, required: seq<int>,
                           storedThrough: Option<int>) {
    predicate IsCovered() {
      target.Some? && storedThrough.Some? && storedThrough.value >= target.value
    }
  }

  function From(sessions: seq<int>, first: int): (r: seq<int>)
    ensures forall d :: d in r <==> d in sessions && d >= first
  {
    if sessions == [] then []
    else
      var last := sessions[|sessions| - 1];
      From(sessions[..|sessions| - 1], first) + if last >= first then [last] else []
  }

  function EodFetchWindow(completed: seq<int>, start: int, storedThrough: Option<int>): Window {
    if completed == [] then Window(None, None, [], storedThrough)
    else
      var target := completed[|completed| - 1];
      if storedThrough.Some? && storedThrough.value >= target then Window(Some(target), None, [], storedThrough)
      else
        var requestStart := if storedThrough.Some? then Max(start, storedThrough.value + 1) else start;
        Window(Some(target), Some(requestStart), From(completed, requestStart), storedThrough)
  }

  /** A window that is neither empty nor covered asks from the day after what is stored, or from the
      start date, to the last completed session, for every completed session in between: the request
      is well formed, its target is required, and no completed session that is not stored is missed. */
  lemma WindowAsks(completed: seq<int>, start: int, storedThrough: Option<int>)
    requires Ascending(completed) && (forall d :: d in completed ==> start <= d)
    ensures var w := EodFetchWindow(completed, start, storedThrough);
            w.target.Some? && !w.IsCovered() ==> AsksAll(w, completed, start, storedThrough)
  {
    if completed != [] {
      assert completed[|completed| - 1] in completed;
    }
  }

  ghost predicate AsksAll(w: Window, completed: seq<int>, start: int, storedThrough: Option<int>) {
    && w.target.Some? && w.requestStart.Some? && w.target.value in completed && w.target.value in w.required
    && (forall d :: d in completed ==> d <= w.target.value)
    && w.requestStart.value <= w.target.value
    && w.requestStart.value
       == (if storedThrough.Some? && storedThrough.value >= start then storedThrough.value + 1 else start)
    && (forall d :: d in w.required <==> d in completed && w.requestStart.value <= d)
    && (forall d :: d in completed && d !in w.required ==> storedThrough.Some? && d <= storedThrough.value)
  }

  // ------------------------------------------------------------------
  // The provider router
  // ------------------------------------------------------------------

  datatype FetchRequest = FetchRequest(canonicalSymbol: string, providerSymbol: string, start: int, end: int)
  datatype Reply = Rows(rows: seq<Bar>) | ProviderError(reason: string)
  datatype Provider = Provider(name: string, fetch: FetchRequest -> Reply)
  datatype Candidate = Candidate(registryKey: string, request: FetchRequest)
  datatype Freshness = Missing | QualityRejected | Stale | UpToDate

  /** Why a candidate was taken or turned down; the quality is absent while it is missing. */
  datatype Note = Note(reason: string, quality: Option<Quality>, freshness: Freshness, coverage: Option<real>)

  datatype Attempt = Attempt(registryKey: string, provider: string, accepted: bool, note: Note)
  datatype Role = Primary | Fallback | NoRole
  datatype Selection = Selection(
    rows: seq<Bar>, registryKey: Option<string>, provider: Option<string>, role: Role, attempts: seq<Attempt>)

  /** What one run is given from outside. */
  datatype Run = Run(providers: map<string, Provider>, start: int, end: int, cutoff: int, operational: bool,
                     skipCovered: bool)

  predicate Visible(run: Run, bar: Bar) {
    bar.available <= run.cutoff
    && (!run.operational || (bar.firstObserved <= run.cutoff && bar.retrieved <= run.cutoff))
  }

  predicate AcceptableQuality(q: Quality) {
    q == Official || q == EodConfirmed || q == FreeUnverified
  }

  /** The visible rows of required sessions, in the provider's order. */
  function Selected(run: Run, rows: seq<Bar>, required: set<int>): (r: seq<Bar>)
    ensures forall b :: b in r <==> b in rows && Visible(run, b) && b.marketDate in required
  {
    if rows == [] then []
    else
      var last := rows[|rows| - 1];
      Selected(run, rows[..|rows| - 1], required)
      + if Visible(run, last) && last.marketDate in required then [last] else []
  }

  datatype Verdict = Raise(error: string) | Reject(note: Note) | Accept(rows: seq<Bar>, note: Note)

  function Present(run: Run, rows: seq<Bar>, required: set<int>): set<int> {
    set b | b in rows && Visible(run, b) && b.marketDate in required :: b.marketDate
  }

  /** The first quality that is not accepted. */
  function Unacceptable(rows: seq<Bar>): (r: Option<Quality>)
    ensures r.None? <==> forall b :: b in rows ==> AcceptableQuality(b.quality)
  {
    if rows == [] then None
    else if !AcceptableQuality(rows[0].quality) then Some(rows[0].quality)
    else Unacceptable(rows[1..])
  }

  /** The quality of the last visible row, or of the last row when none is visible. */
  function SeriesQuality(run: Run, rows: seq<Bar>): Quality
    requires rows != []
  {
    LastVisible(run, rows, rows[|rows| - 1].quality)
  }

  function LastVisible(run: Run, rows: seq<Bar>, otherwise: Quality): Quality {
    if rows == [] then otherwise
    else if Visible(run, rows[|rows| - 1]) then rows[|rows| - 1].quality
    else LastVisible(run, rows[..|rows| - 1], otherwise)
  }

  /** The gates one candidate's answer passes through. */
  function Judge(run: Run, provider: Provider, request: FetchRequest, required: set<int>,
                 minimumCoverage: real): Verdict
    requires required != {}
  {
    match provider.fetch(request)
    case ProviderError(reason) => Reject(Note(reason, None, Missing, None))
    case Rows(rows) =>
      if rows == [] then Reject(Note("provider returned an empty series", None, Missing, None))
      else if exists b :: b in rows && b.provider != provider.name then
        Raise("provider returned rows with mixed provenance")
      else if exists b :: b in rows && b.canonicalSymbol != request.canonicalSymbol then
        Raise("provider returned a different canonical series")
      else if Unacceptable(rows).Some? then
        Reject(Note("quality is not accepted", Unacceptable(rows), QualityRejected, None))
      else
        var quality := Some(SeriesQuality(run, rows));
        var coverage := |Present(run, rows, required)| as real / |required| as real;
        if coverage < minimumCoverage then
          Reject(Note("provider does not cover the complete required window", quality, Stale, Some(coverage)))
        else
          Accept(Selected(run, rows, required),
                 Note("complete provider series selected", quality, UpToDate, Some(coverage)))
  }

  /** How the candidates from `i` on are settled. */
  datatype Routing = Raised | Unserved | Served(index: nat, provider: string, rows: seq<Bar>)

  function Route(run: Run, candidates: seq<Candidate>, required: set<int>, minimumCoverage: real, i: nat): (r: Routing)
    requires required != {} && i <= |candidates|
    ensures r.Served? ==> i <= r.index < |candidates|
    decreases |candidates| - i
  {
    if i == |candidates| then Unserved
    else if candidates[i].registryKey !in run.providers then Raised
    else match Judge(run, run.providers[candidates[i].registryKey], candidates[i].request, required, minimumCoverage)
      case Raise(_) => Raised
      case Reject(_) => Route(run, candidates, required, minimumCoverage, i + 1)
      case Accept(rows, _) => Served(i, run.providers[candidates[i].registryKey].name, rows)
  }

  /** The attempt recorded for a candidate is the verdict on its own answer. */
  ghost predicate Noted(run: Run, c: Candidate, required: set<int>, minimumCoverage: real, a: Attempt)
    requires required != {}
  {
    && c.registryKey in run.providers
    && a.registryKey == c.registryKey && a.provider == run.providers[c.registryKey].name
    && match Judge(run, run.providers[c.registryKey], c.request, required, minimumCoverage)
       case Raise(_) => false
       case Reject(note) => !a.accepted && a.note == note
       case Accept(_, note) => a.accepted && a.note == note
  }

  /** The loop over the candidates: the first to pass every gate is taken, whole, and every
      decision up to it is recorded with its reason, quality, freshness and coverage. */
  method FetchEodSeries(run: Run, candidates: seq<Candidate>, required: set<int>, minimumCoverage: real)
    returns (r: Result<Selection>)
    ensures r.Err? <==> !(0.0 < minimumCoverage <= 1.0) || required == {}
                        || Route(run, candidates, required, minimumCoverage, 0).Raised?
    ensures r.Ok? ==> Settled(run, candidates, r.value, Route(run, candidates, required, minimumCoverage, 0))
    ensures r.Ok? ==> forall i :: 0 <= i < |r.value.attempts| ==>
                        Noted(run, candidates[i], required, minimumCoverage, r.value.attempts[i])
    ensures r.Ok? ==> forall i :: 0 <= i < |r.value.attempts| - 1 ==> !r.value.attempts[i].accepted
  {
    if !(0.0 < minimumCoverage <= 1.0) { return Err("minimum_coverage must be in (0, 1]"); }
    if required == {} { return Err("required_dates must not be empty"); }
    var attempts: seq<Attempt> := [];
    for index := 0 to |candidates|
      invariant |attempts| == index
      invariant forall i :: 0 <= i < index ==>
                  !attempts[i].accepted && Noted(run, candidates[i], required, minimumCoverage, attempts[i])
      invariant Route(run, candidates, required, minimumCoverage, 0)
             == Route(run, candidates, required, minimumCoverage, index)
    {
      var candidate := candidates[index];
      if candidate.registryKey !in run.providers { return Err("unknown provider registry key"); }
      var provider := run.providers[candidate.registryKey];
      var verdict := Judge(run, provider, candidate.request, required, minimumCoverage);
      match verdict {
        case Raise(error) =>
          return Err(error);
        case Reject(note) =>
          attempts := attempts + [Attempt(candidate.registryKey, provider.name, false, note)];
        case Accept(rows, note) =>
          attempts := attempts + [Attempt(candidate.registryKey, provider.name, true, note)];
          return Ok(Selection(rows, Some(candidate.registryKey), Some(provider.name),
                              if index == 0 then Primary else Fallback, attempts));
      }
    }
    return Ok(Selection([], None, None, NoRole, attempts));
  }

  ghost predicate Settled(run: Run, candidates: seq<Candidate>, s: Selection, r: Routing) {
    match r
    case Raised => false
    case Unserved => s == Selection([], None, None, NoRole, s.attempts) && |s.attempts| == |candidates|
                     && forall i :: 0 <= i < |s.attempts| ==> !s.attempts[i].accepted
    case Served(n, provider, rows) =>
      && n < |candidates| && |s.attempts| == n + 1 && s.attempts[n].accepted
      && s == Selection(rows, Some(candidates[n].registryKey), Some(provider),
                        if n == 0 then Primary else Fallback, s.attempts)
  }

  /** A candidate whose own answer is turned down without an error. */
  predicate TurnedDown(run: Run, c: Candidate, required: set<int>, minimumCoverage: real)
    requires required != {}
  {
    c.registryKey in run.providers
    && Judge(run, run.providers[c.registryKey], c.request, required, minimumCoverage).Reject?
  }

  /** The candidate served passed every gate, and no earlier one did. */
  lemma {:induction false} ServedWasAccepted(run: Run, candidates: seq<Candidate>, required: set<int>,
                                             minimumCoverage: real, i: nat)
    requires required != {} && i <= |candidates| && Route(run, candidates, required, minimumCoverage, i).Served?
    ensures var r := Route(run, candidates, required, minimumCoverage, i);
            && candidates[r.index].registryKey in run.providers
            && r.provider == run.providers[candidates[r.index].registryKey].name
            && var verdict := Judge(run, run.providers[candidates[r.index].registryKey], candidates[r.index].request,
                                    required, minimumCoverage);
               verdict.Accept? && verdict.rows == r.rows
    ensures forall j :: i <= j < Route(run, candidates, required, minimumCoverage, i).index ==>
              TurnedDown(run, candidates[j], required, minimumCoverage)
    decreases |candidates| - i
  {
    if Judge(run, run.providers[candidates[i].registryKey], candidates[i].request, required, minimumCoverage).Reject? {
      ServedWasAccepted(run, candidates, required, minimumCoverage, i + 1);
    }
  }

  lemma SubsetOfSize(a: set<int>, b: set<int>)
    requires a <= b && |a| >= |b|
    ensures a == b
  {
    assert b == a + (b - a);
  }

  lemma FullCoverage(a: nat, b: nat)
    requires b > 0 && a as real / b as real >= 1.0
    ensures a >= b
  {}

  /** At full coverage an accepted series has a row for every required session, only such rows,
      and all from the one provider and series asked. */
  lemma AcceptedSeriesIsComplete(run: Run, provider: Provider, request: FetchRequest, required: set<int>)
    requires required != {} && Judge(run, provider, request, required, 1.0).Accept?
    ensures var rows := Judge(run, provider, request, required, 1.0).rows;
            && (forall d :: d in required ==> exists b :: b in rows && b.marketDate == d)
            && (forall b :: b in rows ==>
                  && b.marketDate in required && Visible(run, b)
                  && b.provider == provider.name && b.canonicalSymbol == request.canonicalSymbol
                  && b in provider.fetch(request).rows)
  {
    var all := provider.fetch(request).rows;
    var present := Present(run, all, required);
    FullCoverage(|present|, |required|);
    SubsetOfSize(present, required);
    forall d | d in required
      ensures exists b :: b in Selected(run, all, required) && b.marketDate == d
    {
      assert d in present;
      var b :| b in all && Visible(run, b) && b.marketDate in required && b.marketDate == d;
      assert b in Selected(run, all, required);
    }
  }
}
