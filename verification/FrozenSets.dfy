/** What finalising a feature set fixes: its counts, its latest instants, its cells and its lineage,
    in every later state.  Finalising reads the database, so rows still staged in the session are
    the one way around it. */
module FrozenSets {
  import opened BarRepository
  import opened BarStore
  import opened FeatureStore
  import opened PointInTime
  import opened Sequences
  import opened Wrappers

  // ------------------------------------------------------------------
  // No later call touches a finalised set
  // ------------------------------------------------------------------

  ghost predicate Finalised(s: Store, id: string) {
    id in s.sets && s.sets[id].status != Building
  }

  ghost predicate CellsUntouched(before: seq<Cell>, after: seq<Cell>, id: string) {
    && |before| <= |after|
    && (forall i :: 0 <= i < |before| ==>
          after[i].featureSet == before[i].featureSet && (before[i].featureSet == id ==> after[i] == before[i]))
    && (forall i :: |before| <= i < |after| ==> after[i].featureSet != id)
  }

  ghost predicate InputsUntouched(before: seq<Input>, after: seq<Input>, cells: seq<Cell>, id: string) {
    && before <= after
    && (forall k :: |before| <= k < |after| ==> !InSet(cells, after[k], id))
  }

  /** The set's row, its cells and its lineage are the same rows in both states. */
  ghost predicate Untouched(s: Store, t: Store, id: string) {
    && id in s.sets && id in t.sets && t.sets[id] == s.sets[id]
    && CellsUntouched(s.cells, t.cells, id) && InputsUntouched(s.inputs, t.inputs, t.cells, id)
  }

  lemma StepLeavesCells(s: Store, c: Call, t: Store, id: string)
    requires Effect(s, c, t) && (t == s || Allowed(s, c)) && Finalised(s, id)
    ensures CellsUntouched(s.cells, t.cells, id)
  {
    if t != s {
      match c
      case CallCell(a, _) => BuildingOnly(s, a);
      case CallInput(a, _) => AllowedInput(s, a);
      case _ => FeatureFrame(s, c, t);
    }
  }

  lemma StepLeavesInputs(s: Store, c: Call, t: Store, id: string)
    requires Effect(s, c, t) && (t == s || Allowed(s, c)) && Finalised(s, id)
    ensures InputsUntouched(s.inputs, t.inputs, t.cells, id)
  {
    if t != s {
      match c
      case CallCell(a, _) => assert t.inputs == s.inputs;
      case CallInput(a, _) => AllowedInput(s, a);
      case _ => FeatureFrame(s, c, t);
    }
  }

  lemma BuildingOnly(s: Store, a: CellArgs)
    requires CellError(s, a).None?
    ensures a.featureSet in s.sets && s.sets[a.featureSet].status == Building
  {}

  lemma StepLeavesFinalised(s: Store, c: Call, t: Store, id: string)
    requires t == Step(s, c) && Finalised(s, id)
    ensures Untouched(s, t, id)
  {
    StepEffect(s, c, t);
    StepGrowsSets(s, c, t);
    assert SetAged(s.sets[id], t.sets[id]);
    StepLeavesCells(s, c, t, id);
    StepLeavesInputs(s, c, t, id);
  }

  lemma UntouchedTransitively(s: Store, t: Store, u: Store, id: string)
    requires Untouched(s, t, id) && Untouched(t, u, id)
    ensures Untouched(s, u, id)
  {}

  lemma RunLast(calls: seq<Call>, c: Call)
    ensures Run(calls + [c]) == Step(Run(calls), c)
  {}

  lemma ExtendUntouched(s: Store, calls: seq<Call>, c: Call, id: string)
    requires Finalised(s, id) && Untouched(s, Run(calls), id)
    ensures Untouched(s, Run(calls + [c]), id)
  {
    RunLast(calls, c);
    StepLeavesFinalised(Run(calls), c, Run(calls + [c]), id);
    UntouchedTransitively(s, Run(calls), Run(calls + [c]), id);
  }

  lemma UntouchedSame(s: Store, id: string)
    requires id in s.sets
    ensures Untouched(s, s, id)
  {}

  /** A finalised set never changes again: not its row, not a cell, not a line of lineage, and
      nothing is added to it. */
  lemma {:induction false} FrozenForever(calls: seq<Call>, more: seq<Call>, id: string)
    ensures Finalised(Run(calls), id) ==> Untouched(Run(calls), Run(calls + more), id)
    decreases |more|
  {
    if Finalised(Run(calls), id) {
      if more == [] {
        assert calls + more == calls;
        UntouchedSame(Run(calls), id);
      } else {
        var init, last := more[..|more| - 1], more[|more| - 1];
        FrozenForever(calls, init, id);
        SplitLast(calls, more);
        ExtendUntouched(Run(calls), calls + init, last, id);
      }
    }
  }

  // ------------------------------------------------------------------
  // What the finalised row says
  // ------------------------------------------------------------------

  /** The counts and instants of a set's row are those of its cells and lineage, staged ones included. */
  ghost predicate CountsHold(f: FeatureSet, id: string, cells: seq<Cell>) {
    && f.required == CountCells(cells, id, |cells|) && f.missing == CountMissing(cells, id, |cells|)
    && f.missingRatio == if f.required > 0 then f.missing as real / f.required as real else 0.0
  }

  ghost predicate InstantsHold(f: FeatureSet, id: string, cells: seq<Cell>, inputs: seq<Input>) {
    && f.maxAvailable == Latest(cells, inputs, id, AvailableAt, |inputs|)
    && f.maxObserved == Latest(cells, inputs, id, ObservedAt, |inputs|)
    && f.maxRetrieved == Latest(cells, inputs, id, RetrievedAt, |inputs|)
    && !After(f.maxAvailable, f.cutoff) && !After(f.maxObserved, f.cutoff) && !After(f.maxRetrieved, f.cutoff)
  }

  lemma {:induction false} CountsAgree(before: seq<Cell>, after: seq<Cell>, id: string, n: nat)
    requires CellsUntouched(before, after, id) && n <= |before|
    ensures CountCells(after, id, n) == CountCells(before, id, n)
    ensures CountMissing(after, id, n) == CountMissing(before, id, n)
  {
    if n == 0 {
    } else {
      CountsAgree(before, after, id, n - 1);
    }
  }

  /** The cells of a set between two positions: none exactly when the count does not move. */
  lemma {:induction false} CountBetween(cells: seq<Cell>, id: string, m: nat, n: nat)
    requires m <= n <= |cells|
    ensures CountCells(cells, id, m) <= CountCells(cells, id, n)
    ensures CountMissing(cells, id, m) <= CountMissing(cells, id, n)
    ensures CountCells(cells, id, m) == CountCells(cells, id, n)
       <==> forall i :: m <= i < n ==> cells[i].featureSet != id
    ensures CountCells(cells, id, m) == CountCells(cells, id, n) ==>
              CountMissing(cells, id, m) == CountMissing(cells, id, n)
    decreases n
  {
    if m == n {
    } else {
      CountBetween(cells, id, m, n - 1);
    }
  }

  lemma {:induction false} MissingWithinCells(cells: seq<Cell>, id: string, n: nat)
    requires n <= |cells|
    ensures CountMissing(cells, id, n) <= CountCells(cells, id, n)
  {
    if n == 0 {
    } else {
      MissingWithinCells(cells, id, n - 1);
    }
  }

  /** `max(...)` is within a bound exactly when every instant it ranges over is. */
  lemma {:induction false} LatestWithin(cells: seq<Cell>, inputs: seq<Input>, id: string, which: Instant,
                                        cutoff: int, n: nat)
    requires n <= |inputs|
    ensures !After(Latest(cells, inputs, id, which, n), cutoff)
       <==> forall k :: 0 <= k < n && InSet(cells, inputs[k], id) ==> Reading(inputs[k], which) <= cutoff
  {
    if n == 0 {
    } else {
      LatestWithin(cells, inputs, id, which, cutoff, n - 1);
    }
  }

  lemma {:induction false} LatestAgrees(cells: seq<Cell>, after: seq<Cell>, inputs: seq<Input>, later: seq<Input>,
                                        id: string, which: Instant, n: nat)
    requires CellsUntouched(cells, after, id) && inputs <= later && n <= |inputs|
    requires forall k :: 0 <= k < |inputs| ==> inputs[k].cell < |cells|
    ensures Latest(after, later, id, which, n) == Latest(cells, inputs, id, which, n)
  {
    if n == 0 {
    } else {
      LatestAgrees(cells, after, inputs, later, id, which, n - 1);
      assert InSet(after, later[n - 1], id) == InSet(cells, inputs[n - 1], id);
    }
  }

  lemma {:induction false} LatestSkips(cells: seq<Cell>, inputs: seq<Input>, id: string, which: Instant, m: nat, n: nat)
    requires m <= n <= |inputs|
    requires forall k :: m <= k < n ==> !InSet(cells, inputs[k], id)
    ensures Latest(cells, inputs, id, which, n) == Latest(cells, inputs, id, which, m)
    decreases n
  {
    if m == n {
    } else {
      LatestSkips(cells, inputs, id, which, m, n - 1);
    }
  }

  // ------------------------------------------------------------------
  // One finalise call
  // ------------------------------------------------------------------

  ghost predicate NoStagedCells(s: Store, id: string) {
    forall i :: s.flushedCells <= i < |s.cells| ==> s.cells[i].featureSet != id
  }

  ghost predicate NoStagedInputs(s: Store, id: string) {
    forall k :: s.flushedInputs <= k < |s.inputs| ==> !InSet(s.cells, s.inputs[k], id)
  }

  /** Every line of a set's lineage was observed and retrieved by the set's cutoff. */
  ghost predicate LineageSeen(s: Store, id: string, from: nat)
    requires id in s.sets
  {
    forall k :: from <= k < |s.inputs| && InSet(s.cells, s.inputs[k], id) ==>
      s.inputs[k].observed <= s.sets[id].cutoff && s.inputs[k].retrieved <= s.sets[id].cutoff
  }

  lemma AllowedFinal(s: Store, a: FinalArgs)
    requires a.featureSet in s.sets && FinalError(s, a).None?
    ensures CountCells(s.cells, a.featureSet, s.flushedCells) == s.sets[a.featureSet].required
    ensures !After(LatestStored(s, a.featureSet, AvailableAt), s.sets[a.featureSet].cutoff)
    ensures !After(LatestStored(s, a.featureSet, ObservedAt), s.sets[a.featureSet].cutoff)
    ensures !After(LatestStored(s, a.featureSet, RetrievedAt), s.sets[a.featureSet].cutoff)
  {}

  /** The frozen row counts every cell of its set exactly when none of them was staged. */
  lemma {:induction false} FinaliseCounts(s: Store, a: FinalArgs, t: Store)
    requires SetFrozen(s, a, t) && FinalError(s, a).None?
    ensures a.featureSet in t.sets
    ensures CountsHold(t.sets[a.featureSet], a.featureSet, t.cells) <==> NoStagedCells(s, a.featureSet)
  {
    AllowedFinal(s, a);
    CountBetween(s.cells, a.featureSet, s.flushedCells, |s.cells|);
  }

  /** Whatever the flag, a finalised set's lineage was all seen in time exactly when its staged
      lineage was. */
  lemma {:induction false} FinaliseSeenInTime(s: Store, a: FinalArgs, t: Store)
    requires SetFrozen(s, a, t) && FinalError(s, a).None?
    ensures a.featureSet in t.sets
    ensures LineageSeen(t, a.featureSet, 0) <==> LineageSeen(s, a.featureSet, s.flushedInputs)
  {
    AllowedFinal(s, a);
    var id, cutoff := a.featureSet, s.sets[a.featureSet].cutoff;
    LatestWithin(s.cells, s.inputs, id, ObservedAt, cutoff, s.flushedInputs);
    LatestWithin(s.cells, s.inputs, id, RetrievedAt, cutoff, s.flushedInputs);
    FrozenKeepsIdentity(s, a);
    assert Identity(t.sets[id]).cutoff == cutoff;
    SeenInParts(s, id, cutoff);
    SeenSame(s, t, id);
  }

  lemma SeenSame(s: Store, t: Store, id: string)
    requires id in s.sets && id in t.sets && t.sets[id].cutoff == s.sets[id].cutoff
    requires t.inputs == s.inputs && t.cells == s.cells
    ensures LineageSeen(t, id, 0) <==> LineageSeen(s, id, 0)
  {}

  lemma SeenInParts(s: Store, id: string, cutoff: int)
    requires id in s.sets && cutoff == s.sets[id].cutoff
    requires forall k :: 0 <= k < s.flushedInputs && InSet(s.cells, s.inputs[k], id) ==>
              Reading(s.inputs[k], ObservedAt) <= cutoff
    requires forall k :: 0 <= k < s.flushedInputs && InSet(s.cells, s.inputs[k], id) ==>
              Reading(s.inputs[k], RetrievedAt) <= cutoff
    ensures LineageSeen(s, id, 0) <==> LineageSeen(s, id, s.flushedInputs)
  {}

  lemma {:induction false} FinaliseInstants(s: Store, a: FinalArgs, t: Store)
    requires SetFrozen(s, a, t) && FinalError(s, a).None? && NoStagedInputs(s, a.featureSet)
    ensures a.featureSet in t.sets
    ensures InstantsHold(t.sets[a.featureSet], a.featureSet, t.cells, t.inputs)
  {
    AllowedFinal(s, a);
    LatestSkips(s.cells, s.inputs, a.featureSet, AvailableAt, s.flushedInputs, |s.inputs|);
    LatestSkips(s.cells, s.inputs, a.featureSet, ObservedAt, s.flushedInputs, |s.inputs|);
    LatestSkips(s.cells, s.inputs, a.featureSet, RetrievedAt, s.flushedInputs, |s.inputs|);
  }

  // ------------------------------------------------------------------
  // Runs that flush before finalising
  // ------------------------------------------------------------------

  /** The finalised row agrees with the set's cells and lineage. */
  ghost predicate Exact(s: Store, id: string)
    requires id in s.sets
  {
    CountsHold(s.sets[id], id, s.cells) && InstantsHold(s.sets[id], id, s.cells, s.inputs)
  }

  ghost predicate AllExact(s: Store) {
    forall id :: Finalised(s, id) ==> Exact(s, id)
  }

  ghost predicate NothingStaged(s: Store, c: Call) {
    c.CallFinal? ==> NoStagedCells(s, c.final.featureSet) && NoStagedInputs(s, c.final.featureSet)
  }

  ghost predicate FlushesFirst(calls: seq<Call>) {
    calls == [] || (FlushesFirst(calls[..|calls| - 1]) && NothingStaged(Run(calls[..|calls| - 1]), calls[|calls| - 1]))
  }

  lemma ExactLater(s: Store, t: Store, id: string)
    requires Untouched(s, t, id) && Exact(s, id)
    requires forall k :: 0 <= k < |s.inputs| ==> s.inputs[k].cell < |s.cells|
    ensures Exact(t, id)
  {
    CountsAgree(s.cells, t.cells, id, |s.cells|);
    CountBetween(t.cells, id, |s.cells|, |t.cells|);
    LatestLater(s, t, id, AvailableAt);
    LatestLater(s, t, id, ObservedAt);
    LatestLater(s, t, id, RetrievedAt);
  }

  lemma LatestLater(s: Store, t: Store, id: string, which: Instant)
    requires Untouched(s, t, id)
    requires forall k :: 0 <= k < |s.inputs| ==> s.inputs[k].cell < |s.cells|
    ensures Latest(t.cells, t.inputs, id, which, |t.inputs|) == Latest(s.cells, s.inputs, id, which, |s.inputs|)
  {
    LatestAgrees(s.cells, t.cells, s.inputs, t.inputs, id, which, |s.inputs|);
    LatestSkips(t.cells, t.inputs, id, which, |s.inputs|, |t.inputs|);
  }

  lemma NewlyFinalised(s: Store, c: Call, t: Store, id: string)
    requires Effect(s, c, t) && (t == s || Allowed(s, c)) && NothingStaged(s, c)
    requires !Finalised(s, id) && Finalised(t, id)
    ensures Exact(t, id)
  {
    match c
    case CallFinal(a) =>
      FinaliseCounts(s, a, t);
      FinaliseInstants(s, a, t);
    case CallSet(_, _) =>
    case _ => FeatureFrame(s, c, t);
  }

  lemma StepKeepsExact(s: Store, c: Call, t: Store)
    requires t == Step(s, c) && NothingStaged(s, c) && AllExact(s)
    requires InputsSound(s.inputs, s.cells, s.flushedCells, s.rows)
    ensures AllExact(t)
  {
    forall id | Finalised(t, id)
      ensures Exact(t, id)
    {
      StepKeepsOneExact(s, c, t, id);
    }
  }

  lemma StepKeepsOneExact(s: Store, c: Call, t: Store, id: string)
    requires t == Step(s, c) && NothingStaged(s, c) && AllExact(s) && Finalised(t, id)
    requires InputsSound(s.inputs, s.cells, s.flushedCells, s.rows)
    ensures Exact(t, id)
  {
    if Finalised(s, id) {
      StepLeavesFinalised(s, c, t, id);
      CellsExist(s);
      ExactLater(s, t, id);
    } else {
      StepEffect(s, c, t);
      NewlyFinalised(s, c, t, id);
    }
  }

  lemma CellsExist(s: Store)
    requires InputsSound(s.inputs, s.cells, s.flushedCells, s.rows)
    ensures forall k :: 0 <= k < |s.inputs| ==> s.inputs[k].cell < |s.cells|
  {}

  /** In every run that flushes a set before finalising it, each finalised set holds exactly the
      required number of cells, and its missing count, missing ratio and latest instants are those
      of its cells and lineage, none later than its cutoff. */
  lemma {:induction false} FinalisedSetsAreExact(calls: seq<Call>)
    requires FlushesFirst(calls)
    ensures AllExact(Run(calls))
  {
    if calls == [] {
    } else {
      var init := calls[..|calls| - 1];
      FinalisedSetsAreExact(init);
      RunsAreSound(init);
      StepKeepsExact(Run(init), calls[|calls| - 1], Run(calls));
    }
  }

  /** So liveness holds behind every prediction of such a run, replays included: the flags can be
      dropped, because the table itself refuses a set whose stored lineage was seen late. */
  lemma {:induction false} ReplaysAreLiveToo(calls: seq<Call>, id: string)
    requires FlushesFirst(calls) && id in Run(calls).predictions
    ensures Run(calls).predictions[id].featureSet in Run(calls).sets
    ensures LineageSeen(Run(calls), Run(calls).predictions[id].featureSet, 0)
  {
    FinalisedSetsAreExact(calls);
    RunsAreSound(calls);
    var s := Run(calls);
    var p := s.predictions[id];
    assert PredictionSound(p, s);
    assert Finalised(s, p.featureSet);
    ExactIsInTime(s, p.featureSet);
  }

  lemma ExactIsInTime(s: Store, id: string)
    requires id in s.sets && Exact(s, id)
    ensures LineageSeen(s, id, 0)
  {
    LatestWithin(s.cells, s.inputs, id, ObservedAt, s.sets[id].cutoff, |s.inputs|);
    LatestWithin(s.cells, s.inputs, id, RetrievedAt, s.sets[id].cutoff, |s.inputs|);
    forall k | 0 <= k < |s.inputs| && InSet(s.cells, s.inputs[k], id)
      ensures s.inputs[k].observed <= s.sets[id].cutoff && s.inputs[k].retrieved <= s.sets[id].cutoff
    {
      assert Reading(s.inputs[k], ObservedAt) <= s.sets[id].cutoff
             && Reading(s.inputs[k], RetrievedAt) <= s.sets[id].cutoff;
    }
  }

  // ------------------------------------------------------------------
  // Staged lineage slips past
  // ------------------------------------------------------------------

  const LATE_ROW := Row(StockPrice,
                        Bar("X", "X", "p", "1d", 1, 10, 20, 500, 500, FirstObserved, Official, None, 1.0, None, {}),
                        500)
  const REPLAY_SET := SetArgs("run", "X", 10, 100, "v", Morning, 1, 5, 1, "key", 0)
  const REPLAY_CELL := CellArgs("set", 2, 90, Train, Feature, "return_1d", Some(1.0), false, None, None)
  const REPLAY_INPUT := InputArgs(0, "close", StockPrice, 0, false)
  const REPLAY_FINAL := FinalArgs("set", Ready, Some("hash"), 600, true)

  lemma ReplayBuilds(r: Store, s: Store)
    requires r == Step(EMPTY, CallRun("run", DailyRun(10, Some(100)))) && s == Step(r, CallBars([LATE_ROW]))
    ensures s == EMPTY.(runs := map["run" := DailyRun(10, Some(100))], rows := [LATE_ROW])
  {}

  lemma ReplayCreates(s: Store, t: Store)
    requires s == EMPTY.(runs := map["run" := DailyRun(10, Some(100))], rows := [LATE_ROW])
    requires t == CreateFeatureSet(s, "set", REPLAY_SET).0
    ensures t == s.(sets := map["set" := NewSet(REPLAY_SET)], setByKey := map["key" := "set"])
  {}

  lemma ReplayAddsCell(s: Store, t: Store)
    requires s.sets == map["set" := NewSet(REPLAY_SET)] && s.cells == [] && s.inputs == []
    requires t == AddFeatureValue(s, REPLAY_CELL, true).0
    ensures t == s.(cells := [NewCell(REPLAY_CELL)], flushedCells := 1)
  {
    assert !Blank("return_1d") by { assert 'r' in "return_1d"; }
  }

  lemma ReplayAddsInput(s: Store, t: Store)
    requires s.rows == [LATE_ROW] && s.sets == map["set" := NewSet(REPLAY_SET)]
    requires s.cells == [NewCell(REPLAY_CELL)] && s.flushedCells == 1 && s.inputs == [] && s.flushedInputs == 0
    requires t == AddFeatureInput(s, REPLAY_INPUT, false).0
    ensures t == s.(cells := [Lifted(NewCell(REPLAY_CELL), 20)], inputs := [NewInput(s.rows, REPLAY_INPUT)])
  {}

  lemma ReplayFinalises(s: Store, t: Store)
    requires s.sets == map["set" := NewSet(REPLAY_SET)] && s.cells == [Lifted(NewCell(REPLAY_CELL), 20)]
    requires s.flushedCells == 1 && s.flushedInputs == 0
    requires t == FinalizeFeatureSet(s, REPLAY_FINAL).0
    ensures "set" in t.sets && t.sets["set"].status == Ready && t.sets["set"].cutoff == 100
    ensures t.inputs == s.inputs && t.cells == s.cells
  {
    assert CountCells(s.cells, "set", 1) == 1;
  }

  lemma ExtendRun(calls: seq<Call>, c: Call, s: Store, t: Store)
    requires s == Run(calls) && t == Step(s, c)
    ensures t == Run(calls + [c])
  {}

  lemma ReplayToBars() returns (calls: seq<Call>, s: Store)
    ensures |calls| == 2
    ensures s == Run(calls) && s == EMPTY.(runs := map["run" := DailyRun(10, Some(100))], rows := [LATE_ROW])
  {
    var r := Step(EMPTY, CallRun("run", DailyRun(10, Some(100))));
    s := Step(r, CallBars([LATE_ROW]));
    ReplayBuilds(r, s);
    ExtendRun([], CallRun("run", DailyRun(10, Some(100))), EMPTY, r);
    calls := [] + [CallRun("run", DailyRun(10, Some(100)))];
    ExtendRun(calls, CallBars([LATE_ROW]), r, s);
    calls := calls + [CallBars([LATE_ROW])];
  }

  lemma ReplayToSet() returns (calls: seq<Call>, t: Store)
    ensures |calls| == 3
    ensures t == Run(calls) && t.rows == [LATE_ROW] && t.sets == map["set" := NewSet(REPLAY_SET)]
    ensures t.cells == [] && t.inputs == []
  {
    var before, s := ReplayToBars();
    t := Step(s, CallSet("set", REPLAY_SET));
    ReplayCreates(s, t);
    ExtendRun(before, CallSet("set", REPLAY_SET), s, t);
    calls := before + [CallSet("set", REPLAY_SET)];
  }

  lemma ReplayToCell() returns (calls: seq<Call>, t: Store)
    ensures |calls| == 4
    ensures t == Run(calls) && t.rows == [LATE_ROW] && t.sets == map["set" := NewSet(REPLAY_SET)]
    ensures t.cells == [NewCell(REPLAY_CELL)] && t.flushedCells == 1 && t.inputs == []
  {
    var before, s := ReplayToSet();
    t := Step(s, CallCell(REPLAY_CELL, true));
    ReplayAddsCell(s, t);
    ExtendRun(before, CallCell(REPLAY_CELL, true), s, t);
    calls := before + [CallCell(REPLAY_CELL, true)];
  }

  lemma ReplayToInput() returns (calls: seq<Call>, t: Store)
    ensures |calls| == 5
    ensures t == Run(calls) && t.sets == map["set" := NewSet(REPLAY_SET)]
            && t.cells == [Lifted(NewCell(REPLAY_CELL), 20)]
    ensures t.flushedCells == 1 && t.flushedInputs == 0 && |t.inputs| == 1 && t.inputs[0].cell == 0
            && t.inputs[0].observed == 500
  {
    var before, s := ReplayToCell();
    t := Step(s, CallInput(REPLAY_INPUT, false));
    ReplayAddsInput(s, t);
    ExtendRun(before, CallInput(REPLAY_INPUT, false), s, t);
    calls := before + [CallInput(REPLAY_INPUT, false)];
  }

  /** Reading before flushing leaves a hole; `FinaliseSeenInTime` says exactly when, this shows it
      happens: a replay stages its lineage and finalises, with the default flag, and the set is
      READY on a row first seen long after its cutoff. */
  lemma StagedLineageSlips() returns (calls: seq<Call>)
    ensures |calls| == 6 && calls[5].CallFinal? && calls[5].final.observedByCutoff
    ensures "set" in Run(calls).sets && Run(calls).sets["set"].status == Ready
    ensures !LineageSeen(Run(calls), "set", 0)
  {
    var before, s := ReplayToInput();
    var t := Step(s, CallFinal(REPLAY_FINAL));
    ReplayFinalises(s, t);
    ExtendRun(before, CallFinal(REPLAY_FINAL), s, t);
    calls := before + [CallFinal(REPLAY_FINAL)];
    assert InSet(t.cells, t.inputs[0], "set");
  }
}
