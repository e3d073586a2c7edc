/** When each call on the prediction tables succeeds, what it stores and what a repeat is answered
    (database/repository.py, class PredictionPipelineRepository), in the columns of the tables. */
module Acceptance {
  import opened Arithmetic
  import opened BarStore
  import opened FeatureStore
  import opened Wrappers

  /** A row is stored under the idempotency key. */
  ghost predicate Known<T>(byKey: map<string, string>, rows: map<string, T>, key: string) {
    key in byKey && byKey[key] in rows
  }

  /** `t` is `s` with everything staged written out. */
  ghost predicate Written(s: Store, t: Store) {
    && t.cells == s.cells && t.inputs == s.inputs
    && t.flushedCells == |s.cells| && t.flushedInputs == |s.inputs|
  }

  // ------------------------------------------------------------------
  // Feature sets
  // ------------------------------------------------------------------

  ghost predicate SetWelcome(s: Store, a: SetArgs) {
    && a.run in s.runs && s.runs[a.run].predictionDate == a.predictionDate
    && (s.runs[a.run].cutoff == None || s.runs[a.run].cutoff == Some(a.cutoff))
    && a.trainingStart <= a.trainingEnd < a.predictionDate && 0 <= a.required
    && (forall q :: q in s.sets ==>
          || s.sets[q].run != a.run || s.sets[q].ticker != a.ticker
          || s.sets[q].version != a.version || s.sets[q].kind != a.kind)
  }

  /** Everything still missing, nothing seen, nothing frozen. */
  ghost predicate NewlyBuilding(f: FeatureSet, a: SetArgs) {
    && f.run == a.run && f.ticker == a.ticker && f.predictionDate == a.predictionDate && f.cutoff == a.cutoff
    && f.version == a.version && f.kind == a.kind
    && f.trainingStart == a.trainingStart && f.trainingEnd == a.trainingEnd
    && f.status == Building && f.required == f.missing == a.required
    && f.missingRatio == (if a.required == 0 then 0.0 else 1.0)
    && f.maxAvailable == f.maxObserved == f.maxRetrieved == None && f.manifest == None
    && f.createdAt == a.now && f.finalizedAt == None
  }

  lemma SetAccepted(s: Store, id: string, a: SetArgs)
    requires !Known(s.setByKey, s.sets, a.key) && id !in s.sets
    ensures var (t, r) := CreateFeatureSet(s, id, a);
            && (r == Ok(id) <==> SetWelcome(s, a)) && (r.Err? <==> !SetWelcome(s, a))
            && (r.Err? ==> t == s)
            && (r.Ok? ==>
                  && id in t.sets && NewlyBuilding(t.sets[id], a) && t.sets == s.sets[id := t.sets[id]]
                  && t.setByKey == s.setByKey[a.key := id] && Written(s, t)
                  && t.rows == s.rows && t.runs == s.runs && t.models == s.models
                  && t.predictionSets == s.predictionSets && t.predictions == s.predictions)
  {}

  lemma SetAnsweredAgain(s: Store, id: string, a: SetArgs)
    requires Known(s.setByKey, s.sets, a.key)
    ensures var (t, r) := CreateFeatureSet(s, id, a);
            var e := s.sets[s.setByKey[a.key]];
            && t == s
            && (r == Ok(s.setByKey[a.key])
                <==> && e.run == a.run && e.ticker == a.ticker && e.predictionDate == a.predictionDate
                     && e.version == a.version && e.kind == a.kind)
            && (r.Ok? ==> r == Ok(s.setByKey[a.key]))
  {}

  // ------------------------------------------------------------------
  // Cells and lineage
  // ------------------------------------------------------------------

  ghost predicate CellWelcome(s: Store, a: CellArgs) {
    && a.featureSet in s.sets && s.sets[a.featureSet].status == Building
    && (exists i :: 0 <= i < |a.name| && a.name[i] !in {' ', '\t', '\n', '\r'})
    && (a.missing <==> a.value == None)
    && a.sampleCutoff <= s.sets[a.featureSet].cutoff
    && (a.role == Score ==> a.sampleDate == s.sets[a.featureSet].predictionDate && a.kind == Feature)
    && (a.role == Train ==>
          s.sets[a.featureSet].trainingStart <= a.sampleDate <= s.sets[a.featureSet].trainingEnd)
    && (a.available.Some? ==> a.available.value <= a.sampleCutoff)
  }

  ghost predicate SameCell(c: Cell, a: CellArgs) {
    && c.featureSet == a.featureSet && c.sampleDate == a.sampleDate && c.role == a.role && c.kind == a.kind
    && c.name == a.name
  }

  lemma NameNotBlank(name: string)
    ensures Blank(name) <==> !exists i :: 0 <= i < |name| && name[i] !in {' ', '\t', '\n', '\r'}
  {
    if !Blank(name) {
      var c :| c in name && c !in " \t\n\r";
      BlankCharacter(c);
      var i :| 0 <= i < |name| && name[i] == c;
    }
    if i :| 0 <= i < |name| && name[i] !in {' ', '\t', '\n', '\r'} {
      BlankCharacter(name[i]);
      assert name[i] in name;
    }
  }

  lemma BlankCharacter(c: char)
    ensures c in " \t\n\r" <==> c in {' ', '\t', '\n', '\r'}
  {
    var blanks := " \t\n\r";
    assert blanks[0] == ' ' && blanks[1] == '\t' && blanks[2] == '\n' && blanks[3] == '\r';
  }

  lemma CellChecks(s: Store, a: CellArgs)
    ensures CellError(s, a).None? <==> CellWelcome(s, a)
  {
    NameNotBlank(a.name);
  }

  lemma NoSuchCell(s: Store, a: CellArgs)
    requires forall c :: c in s.cells ==> !SameCell(c, a)
    ensures FindCell(s.cells, a.featureSet, KeyOfCell(NewCell(a))).None?
  {
    var found := FindCell(s.cells, a.featureSet, KeyOfCell(NewCell(a)));
    if found.Some? {
      assert SameCell(s.cells[found.value], a);
    }
  }

  /** A cell not there yet. */
  lemma CellAccepted(s: Store, a: CellArgs, flush: bool)
    requires forall c :: c in s.cells ==> !SameCell(c, a)
    ensures var (t, r) := AddFeatureValue(s, a, flush);
            && (r == Ok(|s.cells| as nat) <==> CellWelcome(s, a)) && (r.Err? <==> !CellWelcome(s, a))
            && (r.Err? ==> t == s)
            && (r.Ok? ==>
                  && t.cells == s.cells + [Cell(a.featureSet, a.sampleDate, a.sampleCutoff, a.role, a.kind, a.name,
                                                a.value, a.missing, a.available, a.quality)]
                  && t.inputs == s.inputs
                  && t.flushedCells == (if flush then |t.cells| else s.flushedCells)
                  && t.flushedInputs == (if flush then |t.inputs| else s.flushedInputs)
                  && t == s.(cells := t.cells, flushedCells := t.flushedCells, flushedInputs := t.flushedInputs))
  {
    CellChecks(s, a);
    NoSuchCell(s, a);
  }

  /** A cell stored or staged before is answered with itself, unless it would change. */
  lemma CellAnsweredAgain(s: Store, a: CellArgs, flush: bool, i: nat)
    requires i < |s.cells| && SameCell(s.cells[i], a)
    requires forall j :: 0 <= j < |s.cells| && SameCell(s.cells[j], a) ==> j == i
    ensures var (t, r) := AddFeatureValue(s, a, flush);
            && t == s && (r.Ok? ==> r == Ok(i))
            && (r.Ok? <==> && CellWelcome(s, a) && s.cells[i].value == a.value && s.cells[i].missing == a.missing
                           && s.cells[i].quality == a.quality)
  {
    CellChecks(s, a);
    var found := FindCell(s.cells, a.featureSet, KeyOfCell(NewCell(a)));
    assert found.Some? ==> SameCell(s.cells[found.value], a);
  }

  ghost predicate InputWelcome(s: Store, a: InputArgs) {
    && a.cell < s.flushedCells && s.cells[a.cell].featureSet in s.sets
    && var c, f := s.cells[a.cell], s.sets[s.cells[a.cell].featureSet];
    && f.status == Building && !c.missing && a.row < |s.rows| && s.rows[a.row].table == a.table
    && var b := s.rows[a.row].bar;
    && b.available <= c.sampleCutoff
    && (a.observedByCutoff ==> b.firstObserved <= f.cutoff && b.retrieved <= f.cutoff)
    && (a.observedByCutoff && (f.kind == WalkForward || c.role == Score) ==>
          b.firstObserved <= c.sampleCutoff && b.retrieved <= c.sampleCutoff)
  }

  ghost predicate SameInput(i: Input, a: InputArgs) {
    i.cell == a.cell && i.inputRole == a.inputRole && i.table == a.table && i.row == a.row
  }

  lemma NoSuchInput(s: Store, a: InputArgs)
    requires forall i :: i in s.inputs ==> !SameInput(i, a)
    ensures FindInput(s.inputs, InputKey(a.cell, a.inputRole, a.table, a.row)).None?
  {
    var found := FindInput(s.inputs, InputKey(a.cell, a.inputRole, a.table, a.row));
    if found.Some? {
      assert SameInput(s.inputs[found.value], a);
    }
  }

  lemma InputChecks(s: Store, a: InputArgs)
    ensures InputError(s, a).None? <==> InputWelcome(s, a)
  {}

  /** Lineage not there yet: the raw row's instants are copied and the cell's availability becomes the
      later of its own and the raw row's. */
  lemma InputAccepted(s: Store, a: InputArgs, flush: bool)
    requires forall i :: i in s.inputs ==> !SameInput(i, a)
    ensures var (t, r) := AddFeatureInput(s, a, flush);
            && (r == Ok(|s.inputs| as nat) <==> InputWelcome(s, a)) && (r.Err? <==> !InputWelcome(s, a))
            && (r.Err? ==> t == s)
            && (r.Ok? ==> LineageAdded(s, a, flush, t))
  {
    InputChecks(s, a);
    NoSuchInput(s, a);
    if InputWelcome(s, a) {
      AppendedInput(s, a, flush);
    }
  }

  ghost predicate LineageAdded(s: Store, a: InputArgs, flush: bool, t: Store) {
    && a.cell < |s.cells| == |t.cells| && a.row < |s.rows|
    && var b := s.rows[a.row].bar;
    && t.inputs == s.inputs + [Input(a.cell, a.inputRole, a.table, a.row, b.available, b.firstObserved, b.retrieved)]
    && var before, after := s.cells[a.cell], t.cells[a.cell];
    && after.available.Some? && b.available <= after.available.value
    && (before.available.Some? ==> before.available.value <= after.available.value)
    && (after.available == Some(b.available) || after.available == before.available)
    && after == before.(available := after.available) && t.cells == s.cells[a.cell := after]
    && t.flushedCells == (if flush then |t.cells| else s.flushedCells)
    && t.flushedInputs == (if flush then |t.inputs| else s.flushedInputs)
    && t == s.(cells := t.cells, inputs := t.inputs, flushedCells := t.flushedCells, flushedInputs := t.flushedInputs)
  }

  lemma AppendedInput(s: Store, a: InputArgs, flush: bool)
    requires a.cell < |s.cells| && a.row < |s.rows|
    ensures LineageAdded(s, a, flush, AppendInput(s, a, flush))
  {}

  lemma InputAnsweredAgain(s: Store, a: InputArgs, flush: bool, i: nat)
    requires i < |s.inputs| && SameInput(s.inputs[i], a)
    requires forall j :: 0 <= j < |s.inputs| && SameInput(s.inputs[j], a) ==> j == i
    ensures var (t, r) := AddFeatureInput(s, a, flush);
            t == s && (r.Ok? <==> InputWelcome(s, a)) && (r.Ok? ==> r == Ok(i))
  {
    InputChecks(s, a);
    var found := FindInput(s.inputs, InputKey(a.cell, a.inputRole, a.table, a.row));
    assert found.Some? ==> SameInput(s.inputs[found.value], a);
  }

  // ------------------------------------------------------------------
  // Finalising
  // ------------------------------------------------------------------

  /** The first `n` cells that belong to a set. */
  ghost function CellsOf(cells: seq<Cell>, id: string, n: nat): set<nat>
    requires n <= |cells|
  {
    set i: nat | i < n && cells[i].featureSet == id
  }

  ghost function MissingOf(cells: seq<Cell>, id: string, n: nat): set<nat>
    requires n <= |cells|
  {
    set i: nat | i < n && cells[i].featureSet == id && cells[i].missing
  }

  /** The running count is the number of cells of the set. */
  lemma {:induction false} CountIsSize(cells: seq<Cell>, id: string, n: nat)
    requires n <= |cells|
    ensures CountCells(cells, id, n) == |CellsOf(cells, id, n)|
  {
    if n == 0 {
      assert CellsOf(cells, id, n) == {};
    } else {
      CountIsSize(cells, id, n - 1);
      assert CellsOf(cells, id, n) == CellsOf(cells, id, n - 1) + if cells[n - 1].featureSet == id then {n - 1} else {};
    }
  }

  /** The running count of missing cells is their number. */
  lemma {:induction false} MissingIsSize(cells: seq<Cell>, id: string, n: nat)
    requires n <= |cells|
    ensures CountMissing(cells, id, n) == |MissingOf(cells, id, n)|
  {
    if n == 0 {
      assert MissingOf(cells, id, n) == {};
    } else {
      MissingIsSize(cells, id, n - 1);
      var last := if cells[n - 1].featureSet == id && cells[n - 1].missing then {n - 1} else {};
      assert MissingOf(cells, id, n) == MissingOf(cells, id, n - 1) + last;
    }
  }

  lemma MissingWithin(cells: seq<Cell>, id: string, n: nat)
    requires n <= |cells|
    ensures CellsOf(cells, id, n) == {} ==> MissingOf(cells, id, n) == {}
  {
    assert MissingOf(cells, id, n) <= CellsOf(cells, id, n);
  }

  /** The first `n` lines of lineage that lead to a cell of a set. */
  ghost function LineageOf(cells: seq<Cell>, inputs: seq<Input>, id: string, n: nat): set<nat>
    requires n <= |inputs|
  {
    set k: nat | k < n && inputs[k].cell < |cells| && cells[inputs[k].cell].featureSet == id
  }

  /** The latest of the instants of some lines of lineage, absent when there are none. */
  ghost predicate IsLatestOf(latest: Option<int>, lines: set<nat>, at: nat -> int) {
    match latest
    case None => lines == {}
    case Some(instant) => (exists k :: k in lines && at(k) == instant) && forall k :: k in lines ==> at(k) <= instant
  }

  ghost function InstantOf(inputs: seq<Input>, which: Instant): nat -> int {
    (k: nat) =>
      if k >= |inputs| then 0
      else match which
        case AvailableAt => inputs[k].available
        case ObservedAt => inputs[k].observed
        case RetrievedAt => inputs[k].retrieved
  }

  /** The running maximum is the latest instant of the set's lineage. */
  lemma {:induction false} LatestIsMaximum(cells: seq<Cell>, inputs: seq<Input>, id: string, which: Instant, n: nat)
    requires n <= |inputs|
    ensures IsLatestOf(Latest(cells, inputs, id, which, n), LineageOf(cells, inputs, id, n), InstantOf(inputs, which))
  {
    var lines, at := LineageOf(cells, inputs, id, n), InstantOf(inputs, which);
    if n == 0 {
      assert lines == {};
    } else {
      LatestIsMaximum(cells, inputs, id, which, n - 1);
      var before, earlier := LineageOf(cells, inputs, id, n - 1), Latest(cells, inputs, id, which, n - 1);
      assert lines == before + if InSet(cells, inputs[n - 1], id) then {n - 1} else {};
      LatestOfMore(earlier, before, at, n - 1);
    }
  }

  lemma LatestOfMore(earlier: Option<int>, lines: set<nat>, at: nat -> int, k: nat)
    requires IsLatestOf(earlier, lines, at)
    ensures IsLatestOf(Lift(earlier, at(k)), lines + {k}, at)
  {
    assert k in lines + {k};
    if earlier.Some? {
      var j :| j in lines && at(j) == earlier.value;
      assert j in lines + {k};
    }
  }

  ghost predicate FinalWelcome(s: Store, a: FinalArgs)
    requires a.featureSet in s.sets
  {
    var f := s.sets[a.featureSet];
    && f.status == Building && a.status != Building
    && |CellsOf(s.cells, a.featureSet, s.flushedCells)| == f.required
    && (a.status == Ready ==> a.manifest.Some?)
    && f.createdAt <= a.now
    && (forall k :: 0 <= k < s.flushedInputs && s.inputs[k].cell < |s.cells|
                    && s.cells[s.inputs[k].cell].featureSet == a.featureSet ==>
          s.inputs[k].available <= f.cutoff && s.inputs[k].observed <= f.cutoff && s.inputs[k].retrieved <= f.cutoff)
  }

  /** Counts and instants are those of what was stored before the call. */
  ghost predicate FrozenAs(s: Store, a: FinalArgs, f: FeatureSet)
    requires a.featureSet in s.sets
  {
    var lines := LineageOf(s.cells, s.inputs, a.featureSet, s.flushedInputs);
    var before := s.sets[a.featureSet];
    && f.status == a.status && f.manifest == a.manifest && f.finalizedAt == Some(a.now)
    && f.missing == |MissingOf(s.cells, a.featureSet, s.flushedCells)|
    && f.missingRatio * before.required as real == f.missing as real && (before.required == 0 ==> f.missingRatio == 0.0)
    && IsLatestOf(f.maxAvailable, lines, InstantOf(s.inputs, AvailableAt))
    && IsLatestOf(f.maxObserved, lines, InstantOf(s.inputs, ObservedAt))
    && IsLatestOf(f.maxRetrieved, lines, InstantOf(s.inputs, RetrievedAt))
    && f == before.(status := f.status, missing := f.missing, missingRatio := f.missingRatio,
                    maxAvailable := f.maxAvailable, maxObserved := f.maxObserved, maxRetrieved := f.maxRetrieved,
                    manifest := f.manifest, finalizedAt := f.finalizedAt)
  }

  lemma LineageWithin(s: Store, id: string, which: Instant, cutoff: int)
    ensures !After(LatestStored(s, id, which), cutoff)
       <==> forall k :: 0 <= k < s.flushedInputs && s.inputs[k].cell < |s.cells|
                        && s.cells[s.inputs[k].cell].featureSet == id ==>
              InstantOf(s.inputs, which)(k) <= cutoff
  {
    LatestIsMaximum(s.cells, s.inputs, id, which, s.flushedInputs);
    assert forall k :: k in LineageOf(s.cells, s.inputs, id, s.flushedInputs) <==>
        0 <= k < s.flushedInputs && s.inputs[k].cell < |s.cells| && s.cells[s.inputs[k].cell].featureSet == id;
  }

  lemma FinalChecks(s: Store, a: FinalArgs)
    requires a.featureSet in s.sets && s.sets[a.featureSet].status == Building && a.status != Building
    ensures FinalError(s, a).None? <==> FinalWelcome(s, a)
  {
    CountIsSize(s.cells, a.featureSet, s.flushedCells);
    LineageWithin(s, a.featureSet, AvailableAt, s.sets[a.featureSet].cutoff);
    LineageWithin(s, a.featureSet, ObservedAt, s.sets[a.featureSet].cutoff);
    LineageWithin(s, a.featureSet, RetrievedAt, s.sets[a.featureSet].cutoff);
  }

  lemma FrozenColumns(s: Store, a: FinalArgs)
    requires a.featureSet in s.sets && FinalWelcome(s, a)
    ensures FrozenAs(s, a, Frozen(s, a))
  {
    CountIsSize(s.cells, a.featureSet, s.flushedCells);
    MissingIsSize(s.cells, a.featureSet, s.flushedCells);
    var f := s.sets[a.featureSet];
    if f.required > 0 {
      CancelQuotient(CountMissing(s.cells, a.featureSet, s.flushedCells) as real, f.required as real);
    } else {
      MissingWithin(s.cells, a.featureSet, s.flushedCells);
    }
    LatestIsMaximum(s.cells, s.inputs, a.featureSet, AvailableAt, s.flushedInputs);
    LatestIsMaximum(s.cells, s.inputs, a.featureSet, ObservedAt, s.flushedInputs);
    LatestIsMaximum(s.cells, s.inputs, a.featureSet, RetrievedAt, s.flushedInputs);
  }

  /** A set still building is frozen exactly when the stored cells are as many as required and no stored
      lineage is after its cutoff in any way, whatever the flag. */
  lemma FinalAccepted(s: Store, a: FinalArgs)
    requires a.featureSet in s.sets && s.sets[a.featureSet].status == Building
    ensures var (t, r) := FinalizeFeatureSet(s, a);
            && (r == Ok(a.featureSet) <==> FinalWelcome(s, a)) && (r.Err? <==> !FinalWelcome(s, a))
            && (r.Err? ==> t == s)
            && (r.Ok? ==>
                  && a.featureSet in t.sets && FrozenAs(s, a, t.sets[a.featureSet])
                  && t.sets == s.sets[a.featureSet := t.sets[a.featureSet]] && Written(s, t)
                  && t == s.(sets := t.sets, flushedCells := t.flushedCells, flushedInputs := t.flushedInputs))
  {
    if a.status != Building {
      FinalChecks(s, a);
      if FinalWelcome(s, a) {
        FrozenColumns(s, a);
      }
    }
  }

  /** A set that is frozen or unknown never changes: the same status again is answered with the set. */
  lemma FinalAnsweredAgain(s: Store, a: FinalArgs)
    requires a.featureSet !in s.sets || s.sets[a.featureSet].status != Building
    ensures var (t, r) := FinalizeFeatureSet(s, a);
            && t == s && (r.Ok? ==> r == Ok(a.featureSet))
            && (r.Ok? <==> a.featureSet in s.sets && s.sets[a.featureSet].status == a.status)
  {}

  // ------------------------------------------------------------------
  // Models
  // ------------------------------------------------------------------

  ghost predicate ModelWelcome(s: Store, a: ModelArgs) {
    && a.featureSet in s.sets
    && var f := s.sets[a.featureSet];
    && f.status == Ready && f.run == a.run && f.ticker == a.ticker && f.version == a.featureVersion
    && f.trainingStart == a.trainingStart && f.trainingEnd == a.trainingEnd && f.cutoff == a.cutoff
    && 1 <= a.trainingRows
    && (forall q :: q in s.models ==>
          || s.models[q].run != a.run || s.models[q].ticker != a.ticker
          || s.models[q].task != a.task || s.models[q].algorithm != a.algorithm)
  }

  lemma ModelAccepted(s: Store, id: string, a: ModelArgs)
    requires !Known(s.modelByKey, s.models, a.key) && id !in s.models
    ensures var (t, r) := CreateModelRun(s, id, a);
            && (r == Ok(id) <==> ModelWelcome(s, a)) && (r.Err? <==> !ModelWelcome(s, a))
            && (r.Err? ==> t == s)
            && (r.Ok? ==>
                  && t.models == s.models[id := ModelRun(a.run, a.ticker, a.featureSet, a.task, a.algorithm, a.version,
                                                         Running, a.startedAt)]
                  && t.modelByKey == s.modelByKey[a.key := id] && Written(s, t)
                  && t == s.(models := t.models, modelByKey := t.modelByKey, flushedCells := t.flushedCells,
                             flushedInputs := t.flushedInputs))
  {}

  lemma ModelAnsweredAgain(s: Store, id: string, a: ModelArgs)
    requires Known(s.modelByKey, s.models, a.key)
    ensures var (t, r) := CreateModelRun(s, id, a);
            var e := s.models[s.modelByKey[a.key]];
            && t == s && (r.Ok? ==> r == Ok(s.modelByKey[a.key]))
            && (r.Ok? <==> && e.run == a.run && e.ticker == a.ticker && e.featureSet == a.featureSet
                           && e.task == a.task && e.algorithm == a.algorithm)
  {}

  /** A fit is finished once, from RUNNING; the same end again is answered with the run. */
  lemma FinishAccepted(s: Store, id: string, status: ModelStatus, hasIntercept: bool, error: string, now: int)
    ensures var (t, r) := FinishModelRun(s, id, status, hasIntercept, error, now);
            && (r.Ok? ==> r == Ok(id)) && (r.Err? ==> t == s)
            && (r.Ok? <==>
                  && id in s.models && status != Running
                  && (s.models[id].status == status
                      || (&& s.models[id].status == Running && s.models[id].startedAt <= now
                          && (status == ModelSuccess ==> hasIntercept) && (status == ModelFailed ==> error != ""))))
            && (r.Ok? && s.models[id].status != Running ==> t == s)
            && (r.Ok? && s.models[id].status == Running ==>
                  && t.models == s.models[id := s.models[id].(status := status)] && Written(s, t)
                  && t == s.(models := t.models, flushedCells := t.flushedCells, flushedInputs := t.flushedInputs))
  {}

  // ------------------------------------------------------------------
  // Prediction sets
  // ------------------------------------------------------------------

  ghost predicate PredictionSetWelcome(s: Store, a: PredictionSetArgs) {
    && a.run in s.runs && s.runs[a.run].predictionDate == a.predictionDate
    && (s.runs[a.run].cutoff == None || s.runs[a.run].cutoff == Some(a.cutoff))
    && a.trainingStart <= a.trainingEnd < a.predictionDate
    && (forall q :: q in s.predictionSets ==> s.predictionSets[q].run != a.run)
  }

  lemma PredictionSetAccepted(s: Store, id: string, a: PredictionSetArgs)
    requires !Known(s.predictionSetByKey, s.predictionSets, a.key) && id !in s.predictionSets
    ensures var (t, r) := CreatePredictionSet(s, id, a);
            && (r == Ok(id) <==> PredictionSetWelcome(s, a)) && (r.Err? <==> !PredictionSetWelcome(s, a))
            && (r.Err? ==> t == s)
            && (r.Ok? ==>
                  && t.predictionSets
                     == s.predictionSets[id := PredictionSet(a.run, a.predictionDate, a.cutoff, Building,
                                                             a.featureVersion, a.modelVersion, a.generatedAt)]
                  && t.predictionSetByKey == s.predictionSetByKey[a.key := id] && Written(s, t)
                  && t == s.(predictionSets := t.predictionSets, predictionSetByKey := t.predictionSetByKey,
                             flushedCells := t.flushedCells, flushedInputs := t.flushedInputs))
  {}

  lemma PredictionSetAnsweredAgain(s: Store, id: string, a: PredictionSetArgs)
    requires Known(s.predictionSetByKey, s.predictionSets, a.key)
    ensures var (t, r) := CreatePredictionSet(s, id, a);
            && t == s && (r.Ok? ==> r == Ok(s.predictionSetByKey[a.key]))
            && (r.Ok? <==> s.predictionSets[s.predictionSetByKey[a.key]].predictionDate == a.predictionDate)
  {}

  // ------------------------------------------------------------------
  // Predictions
  // ------------------------------------------------------------------

  /** A model named is one that succeeded at the task, for the prediction's ticker, set and version. */
  ghost predicate NamesFit(s: Store, id: Option<string>, task: Task, p: Prediction, version: string) {
    id.Some? ==>
      && id.value in s.models
      && var m := s.models[id.value];
      && m.status == ModelSuccess && m.task == task && m.ticker == p.ticker && m.featureSet == p.featureSet
      && m.version == version
  }

  /** A reference row named is a stock price known by the cutoff, at the prediction's own price. */
  ghost predicate NamesPrice(s: Store, p: Prediction, cutoff: int, observedByCutoff: bool) {
    p.referenceRow.Some? ==>
      && p.referenceRow.value < |s.rows| && s.rows[p.referenceRow.value].table == StockPrice
      && var b := s.rows[p.referenceRow.value].bar;
      && b.available <= cutoff && (observedByCutoff ==> b.firstObserved <= cutoff && b.retrieved <= cutoff)
      && p.referencePrice == Some(b.close)
  }

  /** The row agrees with the two sets it names, and its decision with its outcome. */
  ghost predicate FitsSets(p: Prediction, g: PredictionSet, f: FeatureSet) {
    && g.status == Building && f.ticker == p.ticker && f.predictionDate == g.predictionDate
    && f.version == g.featureVersion && f.cutoff <= g.cutoff
    && (p.status == Success ==>
          && f.status == Ready && (p.signal == Buy || p.signal == NoBuy)
          && p.regression.Some? && p.classification.Some? && p.predictedReturn.Some? && p.probabilityUp.Some?)
    && (p.status != Success ==>
          && (f.status == Ready || f.status == InsufficientData || f.status == FailedSet) && p.signal == NoSignal)
  }

  ghost predicate Vouched(s: Store, a: PredictionArgs) {
    var p := a.row;
    && p.predictionSet in s.predictionSets && p.featureSet in s.sets
    && FitsSets(p, s.predictionSets[p.predictionSet], s.sets[p.featureSet])
    && NamesFit(s, p.regression, Regression, p, s.predictionSets[p.predictionSet].modelVersion)
    && NamesFit(s, p.classification, Classification, p, s.predictionSets[p.predictionSet].modelVersion)
    && NamesPrice(s, p, s.predictionSets[p.predictionSet].cutoff, a.observedByCutoff)
  }

  ghost predicate PredictionWelcome(s: Store, a: PredictionArgs) {
    && Vouched(s, a)
    && (a.row.probabilityUp.Some? ==> 0.0 <= a.row.probabilityUp.value <= 1.0)
    && (a.row.referencePrice.Some? ==> 0.0 < a.row.referencePrice.value)
    && (forall q :: q in s.predictions ==>
          s.predictions[q].predictionSet != a.row.predictionSet || s.predictions[q].ticker != a.row.ticker)
  }

  /** A prediction under a new key is stored, as given, exactly when everything it names fits it, its
      probability is one, its price is positive, and its set has none for the ticker. */
  lemma PredictionAccepted(s: Store, id: string, a: PredictionArgs)
    requires !Known(s.predictionByKey, s.predictions, a.key) && id !in s.predictions
    ensures var (t, r) := AddPrediction(s, id, a);
            && (r == Ok(id) <==> PredictionWelcome(s, a)) && (r.Err? <==> !PredictionWelcome(s, a))
            && (r.Err? ==> t == s)
            && (r.Ok? ==>
                  && t.predictions == s.predictions[id := a.row]
                  && t.predictionByKey == s.predictionByKey[a.key := id] && Written(s, t)
                  && t == s.(predictions := t.predictions, predictionByKey := t.predictionByKey,
                             flushedCells := t.flushedCells, flushedInputs := t.flushedInputs))
  {
    PredictionChecks(s, a);
  }

  lemma PredictionChecks(s: Store, a: PredictionArgs)
    ensures PredictionError(s, a).None? <==> Vouched(s, a)
  {
    if PredictionError(s, a).None? {
      Checked(s, a);
    }
    if Vouched(s, a) {
      NothingRefused(s, a);
    }
  }

  lemma Checked(s: Store, a: PredictionArgs)
    requires PredictionError(s, a).None?
    ensures Vouched(s, a)
  {
    var p := a.row;
    var g := s.predictionSets[p.predictionSet];
    assert FitsSets(p, g, s.sets[p.featureSet]);
    FitChecks(s, p.regression, Regression, p, g.modelVersion);
    FitChecks(s, p.classification, Classification, p, g.modelVersion);
    PriceChecks(s, p, g.cutoff, a.observedByCutoff);
  }

  lemma NothingRefused(s: Store, a: PredictionArgs)
    requires Vouched(s, a)
    ensures PredictionError(s, a).None?
  {
    var p := a.row;
    var g := s.predictionSets[p.predictionSet];
    FitChecks(s, p.regression, Regression, p, g.modelVersion);
    FitChecks(s, p.classification, Classification, p, g.modelVersion);
    PriceChecks(s, p, g.cutoff, a.observedByCutoff);
  }

  lemma FitChecks(s: Store, id: Option<string>, task: Task, p: Prediction, version: string)
    ensures ModelFits(s.models, id, task, p, version) <==> NamesFit(s, id, task, p, version)
  {}

  lemma PriceChecks(s: Store, p: Prediction, cutoff: int, observedByCutoff: bool)
    ensures ReferenceError(s, p, cutoff, observedByCutoff).None? <==> NamesPrice(s, p, cutoff, observedByCutoff)
  {}

  lemma PredictionAnsweredAgain(s: Store, id: string, a: PredictionArgs)
    requires Known(s.predictionByKey, s.predictions, a.key)
    ensures var (t, r) := AddPrediction(s, id, a);
            var e := s.predictions[s.predictionByKey[a.key]];
            && t == s && (r.Ok? ==> r == Ok(s.predictionByKey[a.key]))
            && (r.Ok? <==> e.predictionSet == a.row.predictionSet && e.ticker == a.row.ticker)
  {}

  // ------------------------------------------------------------------
  // Publishing
  // ------------------------------------------------------------------

  /** Some prediction of the set is for the ticker. */
  ghost predicate Covers(s: Store, id: string, ticker: string) {
    exists p :: p in s.predictions && s.predictions[p].predictionSet == id && s.predictions[p].ticker == ticker
  }

  lemma CoveredTickers(s: Store, id: string, ticker: string)
    ensures ticker in TickersOf(s.predictions, id) <==> Covers(s, id, ticker)
  {}

  ghost predicate PublishWelcome(s: Store, id: string, status: SetStatus, expected: Option<set<string>>, now: int) {
    && id in s.predictionSets && s.predictionSets[id].status == Building && status != Building
    && s.predictionSets[id].generatedAt <= now
    && (expected.Some? ==> forall ticker :: ticker in expected.value <==> Covers(s, id, ticker))
    && (status == Ready ==> exists ticker :: Covers(s, id, ticker))
  }

  /** A set still building is published exactly when its predictions are for the tickers expected, one at
      least when READY. */
  lemma PublishAccepted(s: Store, id: string, status: SetStatus, expected: Option<set<string>>, now: int)
    requires id in s.predictionSets && s.predictionSets[id].status == Building
    ensures var (t, r) := FinalizePredictionSet(s, id, status, expected, now);
            && (r == Ok(id) <==> PublishWelcome(s, id, status, expected, now))
            && (r.Err? <==> !PublishWelcome(s, id, status, expected, now)) && (r.Err? ==> t == s)
            && (r.Ok? ==>
                  && t.predictionSets == s.predictionSets[id := s.predictionSets[id].(status := status)]
                  && Written(s, t)
                  && t == s.(predictionSets := t.predictionSets, flushedCells := t.flushedCells,
                             flushedInputs := t.flushedInputs))
  {
    PublishChecks(s, id, status, expected, now);
  }

  lemma PublishChecks(s: Store, id: string, status: SetStatus, expected: Option<set<string>>, now: int)
    requires id in s.predictionSets && s.predictionSets[id].status == Building
    ensures PublishWelcome(s, id, status, expected, now)
       <==> && status != Building && s.predictionSets[id].generatedAt <= now
            && (expected.Some? ==> TickersOf(s.predictions, id) == expected.value)
            && (status == Ready ==> TickersOf(s.predictions, id) != {})
  {
    var tickers := TickersOf(s.predictions, id);
    forall ticker
      ensures ticker in tickers <==> Covers(s, id, ticker)
    {
      CoveredTickers(s, id, ticker);
    }
    SameMembers(tickers, expected, iset ticker | Covers(s, id, ticker));
  }

  lemma SameMembers(tickers: set<string>, expected: Option<set<string>>, covered: iset<string>)
    requires forall ticker :: ticker in tickers <==> ticker in covered
    ensures expected.Some? ==>
              (tickers == expected.value <==> forall ticker :: ticker in expected.value <==> ticker in covered)
    ensures tickers != {} <==> exists ticker :: ticker in covered
  {
    if tickers != {} {
      var ticker :| ticker in tickers;
    }
  }

  lemma PublishAnsweredAgain(s: Store, id: string, status: SetStatus, expected: Option<set<string>>, now: int)
    requires id !in s.predictionSets || s.predictionSets[id].status != Building
    ensures var (t, r) := FinalizePredictionSet(s, id, status, expected, now);
            && t == s && (r.Ok? ==> r == Ok(id))
            && (r.Ok? <==> id in s.predictionSets && s.predictionSets[id].status == status)
  {}
}
