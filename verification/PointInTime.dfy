/** The point-in-time promise over every sequence of pipeline calls: nothing behind a prediction
    came from after its cutoff, and a set that was finalised never changes again. */
module PointInTime {
  import opened BarRepository
  import opened BarStore
  import opened FeatureStore
  import opened Wrappers

  // ------------------------------------------------------------------
  // What each call can change
  // ------------------------------------------------------------------

  /** The flushed marks only move forward. */
  predicate MarksAdvance(s: Store, t: Store) {
    s.flushedCells <= t.flushedCells && s.flushedInputs <= t.flushedInputs
  }

  ghost predicate SetAdded(s: Store, id: string, a: SetArgs, t: Store) {
    && id !in s.sets
    && t == Flush(s.(sets := s.sets[id := NewSet(a)], setByKey := s.setByKey[a.key := id]))
  }

  predicate CellAdded(s: Store, a: CellArgs, t: Store) {
    && t.cells == s.cells + [NewCell(a)] && MarksAdvance(s, t)
    && t == s.(cells := t.cells, flushedCells := t.flushedCells, flushedInputs := t.flushedInputs)
  }

  predicate InputAdded(s: Store, a: InputArgs, t: Store) {
    && a.cell < |s.cells| && a.row < |s.rows|
    && t.cells == s.cells[a.cell := Lifted(s.cells[a.cell], s.rows[a.row].bar.available)]
    && t.inputs == s.inputs + [NewInput(s.rows, a)] && MarksAdvance(s, t)
    && t == s.(cells := t.cells, inputs := t.inputs, flushedCells := t.flushedCells, flushedInputs := t.flushedInputs)
  }

  ghost predicate SetFrozen(s: Store, a: FinalArgs, t: Store) {
    && a.featureSet in s.sets && s.sets[a.featureSet].status == Building && a.status != Building
    && t == Flush(s.(sets := s.sets[a.featureSet := Frozen(s, a)]))
  }

  ghost predicate ModelAdded(s: Store, id: string, a: ModelArgs, t: Store) {
    && id !in s.models && a.featureSet in s.sets && s.sets[a.featureSet].status == Ready
    && t == Flush(s.(models := s.models[id := NewModel(a)], modelByKey := s.modelByKey[a.key := id]))
  }

  ghost predicate ModelMoved(s: Store, id: string, status: ModelStatus, t: Store) {
    && id in s.models && s.models[id].status == Running
    && t == Flush(s.(models := s.models[id := s.models[id].(status := status)]))
  }

  ghost predicate PredictionSetAdded(s: Store, id: string, a: PredictionSetArgs, t: Store) {
    && id !in s.predictionSets
    && t == Flush(s.(predictionSets := s.predictionSets[id := NewPredictionSet(a)],
                     predictionSetByKey := s.predictionSetByKey[a.key := id]))
  }

  ghost predicate PredictionAdded(s: Store, id: string, a: PredictionArgs, t: Store) {
    && id !in s.predictions
    && t == Flush(s.(predictions := s.predictions[id := a.row], predictionByKey := s.predictionByKey[a.key := id]))
  }

  ghost predicate PredictionSetMoved(s: Store, id: string, status: SetStatus, t: Store) {
    && id in s.predictionSets && s.predictionSets[id].status == Building
    && t == Flush(s.(predictionSets := s.predictionSets[id := s.predictionSets[id].(status := status)]))
  }

  /** Runs, raw rows and flushed marks: the changes that touch no pipeline row. */
  ghost predicate Around(s: Store, t: Store) {
    && Evolves(s.rows, t.rows) && MarksAdvance(s, t)
    && t == s.(rows := t.rows, runs := t.runs, flushedCells := t.flushedCells, flushedInputs := t.flushedInputs)
  }

  /** A call either changes nothing or makes exactly the one change it is for. */
  ghost predicate Effect(s: Store, c: Call, t: Store) {
    t == s ||
    match c
    case CallRun(_, _) => Around(s, t) && t.rows == s.rows
    case CallBars(_) => Around(s, t)
    case CallFlush => Around(s, t) && t.rows == s.rows
    case CallSet(id, a) => SetAdded(s, id, a, t)
    case CallCell(a, flush) => CellAdded(s, a, t)
    case CallInput(a, flush) => InputAdded(s, a, t)
    case CallFinal(a) => SetFrozen(s, a, t)
    case CallModel(id, a) => ModelAdded(s, id, a, t)
    case CallFinish(id, status, hasIntercept, error, now) => ModelMoved(s, id, status, t)
    case CallPredictionSet(id, a) => PredictionSetAdded(s, id, a, t)
    case CallPrediction(id, a) => PredictionAdded(s, id, a, t)
    case CallPublish(id, status, expected, now) => PredictionSetMoved(s, id, status, t)
  }

  /** The checks behind a change to cells, lineage, sets and predictions. */
  predicate Allowed(s: Store, c: Call) {
    match c
    case CallCell(a, _) => CellError(s, a).None? && FindCell(s.cells, a.featureSet, KeyOfCell(NewCell(a))).None?
    case CallInput(a, _) =>
      InputError(s, a).None? && FindInput(s.inputs, InputKey(a.cell, a.inputRole, a.table, a.row)).None?
    case CallFinal(a) => a.featureSet in s.sets && FinalError(s, a).None?
    case CallModel(_, a) => a.featureSet in s.sets && s.sets[a.featureSet].status == Ready
    case CallPrediction(_, a) => PredictionError(s, a).None?
    case _ => true
  }

  lemma SetEffect(s: Store, id: string, a: SetArgs, t: Store)
    requires t == CreateFeatureSet(s, id, a).0
    ensures t == s || SetAdded(s, id, a, t)
  {}

  lemma CellEffect(s: Store, a: CellArgs, flush: bool, t: Store)
    requires t == AddFeatureValue(s, a, flush).0
    ensures t == s || (CellAdded(s, a, t) && Allowed(s, CallCell(a, flush)))
  {}

  lemma InputEffect(s: Store, a: InputArgs, flush: bool, t: Store)
    requires t == AddFeatureInput(s, a, flush).0
    ensures t == s || (InputAdded(s, a, t) && Allowed(s, CallInput(a, flush)))
  {}

  lemma FinalEffect(s: Store, a: FinalArgs, t: Store)
    requires t == FinalizeFeatureSet(s, a).0
    ensures t == s || (SetFrozen(s, a, t) && Allowed(s, CallFinal(a)))
  {}

  lemma ModelEffect(s: Store, id: string, a: ModelArgs, t: Store)
    requires t == CreateModelRun(s, id, a).0
    ensures t == s || ModelAdded(s, id, a, t)
  {}

  lemma ModelAllowed(s: Store, id: string, a: ModelArgs, t: Store)
    requires t == CreateModelRun(s, id, a).0
    ensures t == s || (a.featureSet in s.sets && s.sets[a.featureSet].status == Ready)
  {}

  lemma FinishEffect(s: Store, id: string, status: ModelStatus, hasIntercept: bool, error: string, now: int, t: Store)
    requires t == FinishModelRun(s, id, status, hasIntercept, error, now).0
    ensures t == s || ModelMoved(s, id, status, t)
  {}

  lemma PredictionSetEffect(s: Store, id: string, a: PredictionSetArgs, t: Store)
    requires t == CreatePredictionSet(s, id, a).0
    ensures t == s || PredictionSetAdded(s, id, a, t)
  {}

  lemma PredictionEffect(s: Store, id: string, a: PredictionArgs, t: Store)
    requires t == AddPrediction(s, id, a).0
    ensures t == s || PredictionAdded(s, id, a, t)
  {}

  lemma PredictionAllowed(s: Store, id: string, a: PredictionArgs, t: Store)
    requires t == AddPrediction(s, id, a).0
    ensures t == s || PredictionError(s, a).None?
  {}

  lemma PublishEffect(s: Store, id: string, status: SetStatus, expected: Option<set<string>>, now: int, t: Store)
    requires t == FinalizePredictionSet(s, id, status, expected, now).0
    ensures t == s || PredictionSetMoved(s, id, status, t)
  {}

  lemma FeatureStepEffect(s: Store, c: Call, t: Store)
    requires c.CallSet? || c.CallCell? || c.CallInput? || c.CallFinal?
    requires t == Step(s, c)
    ensures Effect(s, c, t) && (t == s || Allowed(s, c))
  {
    match c
    case CallSet(id, a) => SetEffect(s, id, a, t);
    case CallCell(a, flush) => CellEffect(s, a, flush, t);
    case CallInput(a, flush) => InputEffect(s, a, flush, t);
    case CallFinal(a) => FinalEffect(s, a, t);
    case _ =>
  }

  lemma PredictionStepEffect(s: Store, c: Call, t: Store)
    requires c.CallModel? || c.CallFinish? || c.CallPredictionSet? || c.CallPrediction? || c.CallPublish?
    requires t == Step(s, c)
    ensures Effect(s, c, t) && (t == s || Allowed(s, c))
  {
    match c
    case CallModel(id, a) => ModelEffect(s, id, a, t); ModelAllowed(s, id, a, t);
    case CallFinish(id, status, hasIntercept, error, now) => FinishEffect(s, id, status, hasIntercept, error, now, t);
    case CallPredictionSet(id, a) => PredictionSetEffect(s, id, a, t);
    case CallPrediction(id, a) => PredictionEffect(s, id, a, t); PredictionAllowed(s, id, a, t);
    case CallPublish(id, status, expected, now) => PublishEffect(s, id, status, expected, now, t);
    case _ =>
  }

  lemma StepEffect(s: Store, c: Call, t: Store)
    requires t == Step(s, c)
    ensures Effect(s, c, t) && (t == s || Allowed(s, c))
  {
    if c.CallSet? || c.CallCell? || c.CallInput? || c.CallFinal? {
      FeatureStepEffect(s, c, t);
    } else if c.CallRun? || c.CallBars? || c.CallFlush? {
    } else {
      PredictionStepEffect(s, c, t);
    }
  }

  // What a call is not for, it leaves alone.

  lemma FeatureFrame(s: Store, c: Call, t: Store)
    requires Effect(s, c, t)
    ensures MarksAdvance(s, t)
    ensures c.CallBars? || t.rows == s.rows
    ensures c.CallCell? || c.CallInput? || t.cells == s.cells
    ensures c.CallInput? || t.inputs == s.inputs
    ensures c.CallSet? || c.CallFinal? || t.sets == s.sets
  {}

  lemma PredictionFrame(s: Store, c: Call, t: Store)
    requires Effect(s, c, t)
    ensures c.CallModel? || c.CallFinish? || t.models == s.models
    ensures c.CallPredictionSet? || c.CallPublish? || t.predictionSets == s.predictionSets
    ensures c.CallPrediction? || t.predictions == s.predictions
  {}

  // ------------------------------------------------------------------
  // The store only ever grows
  // ------------------------------------------------------------------

  /** A cell may only have its availability raised by new lineage. */
  predicate CellAged(before: Cell, after: Cell) {
    after == before.(available := after.available) && !AvailableAfter(before, after)
  }

  predicate AvailableAfter(c: Cell, d: Cell) {
    c.available.Some? && (d.available.None? || c.available.value > d.available.value)
  }

  ghost predicate CellsGrow(before: seq<Cell>, after: seq<Cell>) {
    && |before| <= |after|
    && forall i :: 0 <= i < |before| ==> CellAged(before[i], after[i])
  }

  /** What a set was created with. */
  function Identity(f: FeatureSet): FeatureSet {
    f.(status := Building, missing := 0, missingRatio := 0.0, maxAvailable := None, maxObserved := None,
       maxRetrieved := None, manifest := None, finalizedAt := None)
  }

  predicate SetAged(before: FeatureSet, after: FeatureSet) {
    after == before || (before.status == Building && after.status != Building && Identity(after) == Identity(before))
  }

  ghost predicate SetsGrow(before: map<string, FeatureSet>, after: map<string, FeatureSet>) {
    forall id :: id in before ==> id in after && SetAged(before[id], after[id])
  }

  ghost predicate ModelsGrow(before: map<string, ModelRun>, after: map<string, ModelRun>) {
    forall id :: id in before ==>
      id in after && after[id] == before[id].(status := after[id].status)
      && (before[id].status != Running ==> after[id] == before[id])
  }

  ghost predicate PredictionSetsGrow(before: map<string, PredictionSet>, after: map<string, PredictionSet>) {
    forall id :: id in before ==>
      id in after && after[id] == before[id].(status := after[id].status)
      && (before[id].status != Building ==> after[id] == before[id])
  }

  ghost predicate PredictionsGrow(before: map<string, Prediction>, after: map<string, Prediction>) {
    forall id :: id in before ==> id in after && after[id] == before[id]
  }

  ghost predicate Grows(s: Store, t: Store) {
    && Evolves(s.rows, t.rows) && CellsGrow(s.cells, t.cells) && s.inputs <= t.inputs && MarksAdvance(s, t)
    && SetsGrow(s.sets, t.sets) && ModelsGrow(s.models, t.models)
    && PredictionSetsGrow(s.predictionSets, t.predictionSets) && PredictionsGrow(s.predictions, t.predictions)
  }

  lemma GrowsTransitively(s: Store, t: Store, u: Store)
    requires Grows(s, t) && Grows(t, u)
    ensures Grows(s, u)
  {}

  lemma StepGrowsCells(s: Store, c: Call, t: Store)
    requires Effect(s, c, t)
    ensures CellsGrow(s.cells, t.cells) && s.inputs <= t.inputs
  {
    if c.CallCell? || c.CallInput? {
    } else {
      FeatureFrame(s, c, t);
    }
  }

  lemma StepGrowsSets(s: Store, c: Call, t: Store)
    requires Effect(s, c, t)
    ensures SetsGrow(s.sets, t.sets)
  {
    match c
    case CallSet(_, _) =>
    case CallFinal(a) => if t != s { FrozenKeepsIdentity(s, a); }
    case _ => FeatureFrame(s, c, t);
  }

  lemma FrozenKeepsIdentity(s: Store, a: FinalArgs)
    requires a.featureSet in s.sets && s.sets[a.featureSet].status == Building && a.status != Building
    ensures SetAged(s.sets[a.featureSet], Frozen(s, a))
  {}

  lemma StepGrowsModels(s: Store, c: Call, t: Store)
    requires Effect(s, c, t)
    ensures ModelsGrow(s.models, t.models)
  {
    if !c.CallModel? && !c.CallFinish? {
      PredictionFrame(s, c, t);
    }
  }

  lemma StepGrowsPredictionSets(s: Store, c: Call, t: Store)
    requires Effect(s, c, t)
    ensures PredictionSetsGrow(s.predictionSets, t.predictionSets)
  {
    if !c.CallPredictionSet? && !c.CallPublish? {
      PredictionFrame(s, c, t);
    }
  }

  lemma StepGrowsPredictions(s: Store, c: Call, t: Store)
    requires Effect(s, c, t)
    ensures PredictionsGrow(s.predictions, t.predictions)
  {}

  lemma StepGrowsRows(s: Store, c: Call, t: Store)
    requires Effect(s, c, t)
    ensures Evolves(s.rows, t.rows)
  {}

  lemma StepGrows(s: Store, c: Call, t: Store)
    requires Effect(s, c, t)
    ensures Grows(s, t)
  {
    FeatureFrame(s, c, t);
    StepGrowsRows(s, c, t);
    StepGrowsCells(s, c, t);
    StepGrowsSets(s, c, t);
    StepGrowsModels(s, c, t);
    StepGrowsPredictionSets(s, c, t);
    StepGrowsPredictions(s, c, t);
  }

  lemma {:induction false} RunGrows(calls: seq<Call>, more: seq<Call>)
    ensures Grows(Run(calls), Run(calls + more))
    decreases |more|
  {
    if more == [] {
      assert calls + more == calls;
    } else {
      var init, last := more[..|more| - 1], more[|more| - 1];
      RunGrows(calls, init);
      assert (calls + more)[..|calls + more| - 1] == calls + init;
      StepEffect(Run(calls + init), last, Run(calls + more));
      StepGrows(Run(calls + init), last, Run(calls + more));
      GrowsTransitively(Run(calls), Run(calls + init), Run(calls + more));
    }
  }

  // ------------------------------------------------------------------
  // Cells
  // ------------------------------------------------------------------

  predicate CellSound(c: Cell, f: FeatureSet) {
    && c.sampleCutoff <= f.cutoff && !After(c.available, c.sampleCutoff) && c.missing == c.value.None?
    && (c.role == Score ==> c.sampleDate == f.predictionDate && c.kind == Feature)
    && (c.role == Train ==> f.trainingStart <= c.sampleDate <= f.trainingEnd)
  }

  ghost predicate CellsSound(cells: seq<Cell>, sets: map<string, FeatureSet>) {
    forall i :: 0 <= i < |cells| ==> cells[i].featureSet in sets && CellSound(cells[i], sets[cells[i].featureSet])
  }

  ghost predicate CellsDistinct(cells: seq<Cell>) {
    forall i, j :: 0 <= i < j < |cells| ==>
      cells[i].featureSet != cells[j].featureSet || KeyOfCell(cells[i]) != KeyOfCell(cells[j])
  }

  lemma CellsSurviveSets(cells: seq<Cell>, sets: map<string, FeatureSet>, after: map<string, FeatureSet>)
    requires CellsSound(cells, sets) && SetsGrow(sets, after)
    ensures CellsSound(cells, after)
  {}

  lemma NewCellSound(s: Store, a: CellArgs)
    requires CellError(s, a).None?
    ensures a.featureSet in s.sets && CellSound(NewCell(a), s.sets[a.featureSet])
  {}

  lemma AllowedInput(s: Store, a: InputArgs)
    requires InputError(s, a).None?
    ensures a.cell < s.flushedCells <= |s.cells| && a.row < |s.rows| && s.rows[a.row].table == a.table
    ensures !s.cells[a.cell].missing && s.rows[a.row].bar.available <= s.cells[a.cell].sampleCutoff
    ensures s.cells[a.cell].featureSet in s.sets && s.sets[s.cells[a.cell].featureSet].status == Building
  {}

  lemma StepKeepsCells(s: Store, c: Call, t: Store)
    requires Effect(s, c, t) && (t == s || Allowed(s, c))
    requires CellsSound(s.cells, s.sets)
    ensures CellsSound(t.cells, t.sets)
  {
    if t != s {
      match c
      case CallCell(a, _) => FeatureFrame(s, c, t); NewCellSound(s, a);
      case CallInput(a, _) => FeatureFrame(s, c, t); AllowedInput(s, a);
      case _ =>
        FeatureFrame(s, c, t);
        StepGrowsSets(s, c, t);
        CellsSurviveSets(s.cells, s.sets, t.sets);
    }
  }

  lemma StepKeepsCellsDistinct(s: Store, c: Call, t: Store)
    requires Effect(s, c, t) && (t == s || Allowed(s, c))
    requires CellsDistinct(s.cells)
    ensures CellsDistinct(t.cells)
  {
    if t != s {
      match c
      case CallCell(a, _) =>
      case CallInput(a, _) => LiftKeepsDistinct(s.cells, a.cell, s.rows[a.row].bar.available);
      case _ => FeatureFrame(s, c, t);
    }
  }

  lemma LiftKeepsDistinct(cells: seq<Cell>, k: nat, at: int)
    requires k < |cells| && CellsDistinct(cells)
    ensures CellsDistinct(cells[k := Lifted(cells[k], at)])
  {}

  // ------------------------------------------------------------------
  // Lineage
  // ------------------------------------------------------------------

  /** A lineage row copies its raw row's instants, and neither its sample nor its cell is older. */
  predicate InputSound(i: Input, cells: seq<Cell>, flushed: nat, rows: seq<Row>) {
    && i.cell < flushed <= |cells| && i.row < |rows| && rows[i.row].table == i.table
    && i.available == rows[i.row].bar.available && i.observed == rows[i.row].bar.firstObserved
    && i.retrieved == rows[i.row].bar.retrieved
    && !cells[i.cell].missing && i.available <= cells[i.cell].sampleCutoff
    && cells[i.cell].available.Some? && i.available <= cells[i.cell].available.value
  }

  ghost predicate InputsSound(inputs: seq<Input>, cells: seq<Cell>, flushed: nat, rows: seq<Row>) {
    forall k :: 0 <= k < |inputs| ==> InputSound(inputs[k], cells, flushed, rows)
  }

  ghost predicate InputsDistinct(inputs: seq<Input>) {
    forall i, j :: 0 <= i < j < |inputs| ==> KeyOfInput(inputs[i]) != KeyOfInput(inputs[j])
  }

  lemma InputsSurvive(s: Store, t: Store)
    requires InputsSound(s.inputs, s.cells, s.flushedCells, s.rows)
    requires CellsGrow(s.cells, t.cells) && Evolves(s.rows, t.rows) && MarksAdvance(s, t)
    ensures InputsSound(s.inputs, t.cells, t.flushedCells, t.rows)
  {}

  lemma NewInputSound(s: Store, a: InputArgs, t: Store)
    requires InputAdded(s, a, t) && InputError(s, a).None?
    ensures InputSound(NewInput(s.rows, a), t.cells, t.flushedCells, t.rows)
  {}

  lemma StepKeepsInputs(s: Store, c: Call, t: Store)
    requires Effect(s, c, t) && (t == s || Allowed(s, c))
    requires InputsSound(s.inputs, s.cells, s.flushedCells, s.rows)
    ensures InputsSound(t.inputs, t.cells, t.flushedCells, t.rows)
  {
    if t != s {
      FeatureFrame(s, c, t);
      StepGrowsCells(s, c, t);
      StepGrowsRows(s, c, t);
      InputsSurvive(s, t);
      match c
      case CallCell(_, _) => assert t.inputs == s.inputs;
      case CallInput(a, _) => NewInputSound(s, a, t);
      case _ => FeatureFrame(s, c, t);
    }
  }

  lemma StepKeepsInputsDistinct(s: Store, c: Call, t: Store)
    requires Effect(s, c, t) && (t == s || Allowed(s, c))
    requires InputsDistinct(s.inputs)
    ensures InputsDistinct(t.inputs)
  {
    if t != s {
      match c
      case CallCell(_, _) =>
      case CallInput(a, _) => assert KeyOfInput(NewInput(s.rows, a)) == InputKey(a.cell, a.inputRole, a.table, a.row);
      case _ => FeatureFrame(s, c, t);
    }
  }

  // ------------------------------------------------------------------
  // Predictions
  // ------------------------------------------------------------------

  predicate Gated(p: Prediction, f: FeatureSet, g: PredictionSet) {
    && p.ticker == f.ticker && f.predictionDate == g.predictionDate && f.version == g.featureVersion
    && f.cutoff <= g.cutoff && f.status != Building
    && (p.status == Success ==>
          f.status == Ready && p.regression.Some? && p.classification.Some? && p.signal != NoSignal)
    && (p.status != Success ==> p.signal == NoSignal)
  }

  predicate ModelsFit(p: Prediction, g: PredictionSet, models: map<string, ModelRun>) {
    && ModelFits(models, p.regression, Regression, p, g.modelVersion)
    && ModelFits(models, p.classification, Classification, p, g.modelVersion)
  }

  predicate ReferenceSound(p: Prediction, g: PredictionSet, rows: seq<Row>) {
    p.referenceRow.Some? ==>
      p.referenceRow.value < |rows| && rows[p.referenceRow.value].table == StockPrice
      && rows[p.referenceRow.value].bar.available <= g.cutoff
      && p.referencePrice == Some(rows[p.referenceRow.value].bar.close)
  }

  predicate PredictionSound(p: Prediction, s: Store) {
    && p.featureSet in s.sets && p.predictionSet in s.predictionSets
    && Gated(p, s.sets[p.featureSet], s.predictionSets[p.predictionSet])
    && ModelsFit(p, s.predictionSets[p.predictionSet], s.models)
    && ReferenceSound(p, s.predictionSets[p.predictionSet], s.rows)
  }

  ghost predicate PredictionsSound(s: Store) {
    forall id :: id in s.predictions ==> PredictionSound(s.predictions[id], s)
  }

  lemma AllowedPrediction(s: Store, a: PredictionArgs)
    requires PredictionError(s, a).None?
    ensures PredictionSound(a.row, s)
  {}

  lemma PredictionSurvives(p: Prediction, s: Store, t: Store)
    requires PredictionSound(p, s) && Grows(s, t)
    ensures PredictionSound(p, t)
  {}

  lemma StepKeepsPredictions(s: Store, c: Call, t: Store)
    requires Effect(s, c, t) && (t == s || Allowed(s, c))
    requires PredictionsSound(s)
    ensures PredictionsSound(t)
  {
    if t != s {
      StepGrows(s, c, t);
      forall id | id in t.predictions
        ensures PredictionSound(t.predictions[id], t)
      {
        if id in s.predictions {
          PredictionSurvives(s.predictions[id], s, t);
        } else {
          NewPredictionSound(s, c, t, id);
        }
      }
    }
  }

  lemma NewPredictionSound(s: Store, c: Call, t: Store, id: string)
    requires Effect(s, c, t) && (t == s || Allowed(s, c))
    requires id in t.predictions && id !in s.predictions
    ensures PredictionSound(t.predictions[id], t)
  {
    if c.CallPrediction? {
      AllowedPrediction(s, c.prediction);
    } else {
      PredictionFrame(s, c, t);
    }
  }

  // ------------------------------------------------------------------
  // Every run
  // ------------------------------------------------------------------

  ghost predicate Sound(s: Store) {
    && CellsSound(s.cells, s.sets) && CellsDistinct(s.cells)
    && InputsSound(s.inputs, s.cells, s.flushedCells, s.rows) && InputsDistinct(s.inputs)
    && PredictionsSound(s)
  }

  lemma StepKeepsSound(s: Store, c: Call, t: Store)
    requires t == Step(s, c) && Sound(s)
    ensures Sound(t)
  {
    StepEffect(s, c, t);
    StepKeepsCells(s, c, t);
    StepKeepsCellsDistinct(s, c, t);
    StepKeepsInputs(s, c, t);
    StepKeepsInputsDistinct(s, c, t);
    StepKeepsPredictions(s, c, t);
  }

  lemma {:induction false} RunsAreSound(calls: seq<Call>)
    ensures Sound(Run(calls))
  {
    if calls == [] {
    } else {
      var init := calls[..|calls| - 1];
      RunsAreSound(init);
      StepKeepsSound(Run(init), calls[|calls| - 1], Run(calls));
    }
  }

  /** Everything behind a prediction was available by its own sample's cutoff, that by the feature
      set's, and that by the prediction set's; so was the reference price. */
  ghost predicate AvailableInTime(s: Store, p: Prediction) {
    && p.featureSet in s.sets && p.predictionSet in s.predictionSets
    && ReferenceSound(p, s.predictionSets[p.predictionSet], s.rows)
    && s.sets[p.featureSet].cutoff <= s.predictionSets[p.predictionSet].cutoff
    && forall k :: 0 <= k < |s.inputs| && InSet(s.cells, s.inputs[k], p.featureSet) ==>
         s.inputs[k].row < |s.rows|
         && s.rows[s.inputs[k].row].bar.available <= s.cells[s.inputs[k].cell].sampleCutoff
         && s.cells[s.inputs[k].cell].sampleCutoff <= s.sets[p.featureSet].cutoff
  }

  /** The look-ahead half of the promise, whatever flags and flushes the calls use. */
  lemma {:induction false} NothingAvailableLate(calls: seq<Call>)
    ensures forall id :: id in Run(calls).predictions ==> AvailableInTime(Run(calls), Run(calls).predictions[id])
  {
    RunsAreSound(calls);
    var s := Run(calls);
    forall id | id in s.predictions
      ensures AvailableInTime(s, s.predictions[id])
    {
      SoundIsInTime(s, id);
    }
  }

  lemma SoundIsInTime(s: Store, id: string)
    requires Sound(s) && id in s.predictions
    ensures AvailableInTime(s, s.predictions[id])
  {
    var p := s.predictions[id];
    assert PredictionSound(p, s);
    forall k | 0 <= k < |s.inputs| && InSet(s.cells, s.inputs[k], p.featureSet)
      ensures s.inputs[k].row < |s.rows|
      ensures s.rows[s.inputs[k].row].bar.available <= s.cells[s.inputs[k].cell].sampleCutoff
      ensures s.cells[s.inputs[k].cell].sampleCutoff <= s.sets[p.featureSet].cutoff
    {
      assert InputSound(s.inputs[k], s.cells, s.flushedCells, s.rows);
      assert CellSound(s.cells[s.inputs[k].cell], s.sets[p.featureSet]);
    }
  }

  // ------------------------------------------------------------------
  // Live runs: every lineage and prediction call asserts observation
  // ------------------------------------------------------------------

  predicate AssertsObservation(c: Call) {
    && (c.CallInput? ==> c.input.observedByCutoff)
    && (c.CallPrediction? ==> c.prediction.observedByCutoff)
  }

  predicate InputLive(i: Input, c: Cell, f: FeatureSet) {
    && i.observed <= f.cutoff && i.retrieved <= f.cutoff
    && (f.kind == WalkForward || c.role == Score ==> i.observed <= c.sampleCutoff && i.retrieved <= c.sampleCutoff)
  }

  ghost predicate InputsLive(inputs: seq<Input>, cells: seq<Cell>, sets: map<string, FeatureSet>) {
    forall k :: 0 <= k < |inputs| ==>
      inputs[k].cell < |cells| && cells[inputs[k].cell].featureSet in sets
      && InputLive(inputs[k], cells[inputs[k].cell], sets[cells[inputs[k].cell].featureSet])
  }

  predicate ReferenceLive(p: Prediction, s: Store) {
    p.referenceRow.Some? ==>
      p.referenceRow.value < |s.rows| && p.predictionSet in s.predictionSets
      && s.rows[p.referenceRow.value].bar.firstObserved <= s.predictionSets[p.predictionSet].cutoff
      && s.rows[p.referenceRow.value].bar.retrieved <= s.predictionSets[p.predictionSet].cutoff
  }

  ghost predicate ReferencesLive(s: Store) {
    forall id :: id in s.predictions ==> ReferenceLive(s.predictions[id], s)
  }

  lemma InputsLiveLater(s: Store, t: Store)
    requires InputsLive(s.inputs, s.cells, s.sets) && CellsGrow(s.cells, t.cells) && SetsGrow(s.sets, t.sets)
    ensures InputsLive(s.inputs, t.cells, t.sets)
  {}

  lemma NewestInputLive(s: Store, c: Call, t: Store)
    requires Effect(s, c, t) && t != s && Allowed(s, c) && AssertsObservation(c) && c.CallInput?
    ensures c.input.row < |s.rows| && t.inputs == s.inputs + [NewInput(s.rows, c.input)]
    ensures c.input.cell < |t.cells| && t.cells[c.input.cell].featureSet in t.sets
    ensures InputLive(NewInput(s.rows, c.input), t.cells[c.input.cell], t.sets[t.cells[c.input.cell].featureSet])
  {}

  lemma StepKeepsInputsLive(s: Store, c: Call, t: Store)
    requires Effect(s, c, t) && (t == s || Allowed(s, c)) && AssertsObservation(c)
    requires InputsLive(s.inputs, s.cells, s.sets)
    ensures InputsLive(t.inputs, t.cells, t.sets)
  {
    if t != s {
      StepGrowsCells(s, c, t);
      StepGrowsSets(s, c, t);
      InputsLiveLater(s, t);
      if c.CallInput? {
        NewestInputLive(s, c, t);
      } else {
        FeatureFrame(s, c, t);
      }
    }
  }

  lemma AllowedReference(s: Store, a: PredictionArgs)
    requires PredictionError(s, a).None? && a.observedByCutoff
    ensures ReferenceLive(a.row, s)
  {}

  lemma ReferenceLiveLater(p: Prediction, s: Store, t: Store)
    requires ReferenceLive(p, s) && Evolves(s.rows, t.rows) && PredictionSetsGrow(s.predictionSets, t.predictionSets)
    ensures ReferenceLive(p, t)
  {}

  lemma StepKeepsReferencesLive(s: Store, c: Call, t: Store)
    requires Effect(s, c, t) && (t == s || Allowed(s, c)) && AssertsObservation(c)
    requires ReferencesLive(s)
    ensures ReferencesLive(t)
  {
    if t != s {
      StepGrowsRows(s, c, t);
      StepGrowsPredictionSets(s, c, t);
      forall id | id in t.predictions
        ensures ReferenceLive(t.predictions[id], t)
      {
        if c.CallPrediction? && id !in s.predictions {
          AllowedReference(s, c.prediction);
        } else {
          OldPrediction(s, c, t, id);
          ReferenceLiveLater(s.predictions[id], s, t);
        }
      }
    }
  }

  lemma OldPrediction(s: Store, c: Call, t: Store, id: string)
    requires Effect(s, c, t) && id in t.predictions && (id in s.predictions || !c.CallPrediction?)
    ensures id in s.predictions && t.predictions[id] == s.predictions[id]
  {}

  lemma {:induction false} LiveRuns(calls: seq<Call>)
    requires forall k :: 0 <= k < |calls| ==> AssertsObservation(calls[k])
    ensures InputsLive(Run(calls).inputs, Run(calls).cells, Run(calls).sets) && ReferencesLive(Run(calls))
  {
    if calls == [] {
    } else {
      var init := calls[..|calls| - 1];
      LiveRuns(init);
      StepEffect(Run(init), calls[|calls| - 1], Run(calls));
      StepKeepsInputsLive(Run(init), calls[|calls| - 1], Run(calls));
      StepKeepsReferencesLive(Run(init), calls[|calls| - 1], Run(calls));
    }
  }

  /** A raw row was first observed and retrieved by an instant. */
  predicate HeldBy(b: Bar, at: int) {
    b.firstObserved <= at && b.retrieved <= at
  }

  /** Everything behind a prediction had been first observed and retrieved by its cutoff, and by the
      sample's own for the scored row and for walk-forward sets. */
  ghost predicate SeenInTime(s: Store, p: Prediction) {
    && p.featureSet in s.sets && p.predictionSet in s.predictionSets && ReferenceLive(p, s)
    && s.sets[p.featureSet].cutoff <= s.predictionSets[p.predictionSet].cutoff
    && forall k :: 0 <= k < |s.inputs| && InSet(s.cells, s.inputs[k], p.featureSet) ==>
         s.inputs[k].row < |s.rows|
         && HeldBy(s.rows[s.inputs[k].row].bar, s.sets[p.featureSet].cutoff)
         && (s.sets[p.featureSet].kind == WalkForward || s.cells[s.inputs[k].cell].role == Score ==>
               HeldBy(s.rows[s.inputs[k].row].bar, s.cells[s.inputs[k].cell].sampleCutoff))
  }

  /** The liveness half, with the default flag on every lineage and prediction call. */
  lemma {:induction false} NothingSeenLate(calls: seq<Call>)
    requires forall k :: 0 <= k < |calls| ==> AssertsObservation(calls[k])
    ensures forall id :: id in Run(calls).predictions ==> SeenInTime(Run(calls), Run(calls).predictions[id])
  {
    RunsAreSound(calls);
    LiveRuns(calls);
    var s := Run(calls);
    forall id | id in s.predictions
      ensures SeenInTime(s, s.predictions[id])
    {
      LiveIsInTime(s, id);
    }
  }

  lemma LiveIsInTime(s: Store, id: string)
    requires Sound(s) && InputsLive(s.inputs, s.cells, s.sets) && ReferencesLive(s) && id in s.predictions
    ensures SeenInTime(s, s.predictions[id])
  {
    var p := s.predictions[id];
    assert PredictionSound(p, s);
    forall k | 0 <= k < |s.inputs| && InSet(s.cells, s.inputs[k], p.featureSet)
      ensures s.inputs[k].row < |s.rows|
      ensures HeldBy(s.rows[s.inputs[k].row].bar, s.sets[p.featureSet].cutoff)
      ensures s.sets[p.featureSet].kind == WalkForward || s.cells[s.inputs[k].cell].role == Score ==>
        HeldBy(s.rows[s.inputs[k].row].bar, s.cells[s.inputs[k].cell].sampleCutoff)
    {
      assert InputSound(s.inputs[k], s.cells, s.flushedCells, s.rows);
      assert InputLive(s.inputs[k], s.cells[s.inputs[k].cell], s.sets[p.featureSet]);
    }
  }
}
