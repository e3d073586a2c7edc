/** The prediction pipeline's tables (database/repository.py, class PredictionPipelineRepository):
    feature sets that are built and then frozen, the raw lineage of their cells, and predictions
    gated on them.  Each call is one atomic step; the point-in-time promise is proved over every
    sequence of calls. */
module FeatureStore {
  import opened BarRepository
  import opened BarStore
  import opened Wrappers

  // ------------------------------------------------------------------
  // Rows
  // ------------------------------------------------------------------

  datatype DailyRun = DailyRun(predictionDate: int, cutoff: Option<int>)

  datatype SetStatus = Building | Ready | InsufficientData | FailedSet
  datatype SetKind = Morning | WalkForward

  datatype FeatureSet = FeatureSet(
    run: string, ticker: string, predictionDate: int, cutoff: int, version: string, kind: SetKind,
    trainingStart: int, trainingEnd: int, status: SetStatus, required: int,
    missing: int, missingRatio: real,
    maxAvailable: Option<int>, maxObserved: Option<int>, maxRetrieved: Option<int>,
    manifest: Option<string>, createdAt: int, finalizedAt: Option<int>)

  datatype RowRole = Train | Score
  datatype ValueKind = Feature | TargetValue

  datatype Cell = Cell(
    featureSet: string, sampleDate: int, sampleCutoff: int, role: RowRole, kind: ValueKind, name: string,
    value: Option<real>, missing: bool, available: Option<int>, quality: Option<string>)

  /** The columns a cell is unique by within its set. */
  datatype CellKey = CellKey(sampleDate: int, role: RowRole, kind: ValueKind, name: string)

  datatype Input = Input(cell: nat, inputRole: string, table: TableName, row: nat, available: int, observed: int,
                         retrieved: int)

  datatype InputKey = InputKey(cell: nat, inputRole: string, table: TableName, row: nat)

  datatype Task = Regression | Classification
  datatype ModelStatus = Running | ModelSuccess | ModelFailed
  datatype ModelRun = ModelRun(
    run: string, ticker: string, featureSet: string, task: Task, algorithm: string, version: string,
    status: ModelStatus, startedAt: int)

  datatype PredictionSet = PredictionSet(
    run: string, predictionDate: int, cutoff: int, status: SetStatus, featureVersion: string, modelVersion: string,
    generatedAt: int)

  datatype PredictionStatus = Success | PredictionInsufficient | PredictionFailed
  datatype Signal = Buy | NoBuy | NoSignal
  datatype Prediction = Prediction(
    predictionSet: string, ticker: string, featureSet: string, regression: Option<string>,
    classification: Option<string>,
    status: PredictionStatus, predictedReturn: Option<real>, probabilityUp: Option<real>,
    referenceRow: Option<nat>, referencePrice: Option<real>, signal: Signal)

  /** Database and session together.  Cells and inputs are kept in the order they were added; those
      below the flushed marks are in the database, the others staged in the session.  The `...ByKey`
      maps are the unique indexes on idempotency keys. */
  datatype RawStore = Store(
    rows: seq<Row>, runs: map<string, DailyRun>,
    sets: map<string, FeatureSet>, setByKey: map<string, string>,
    cells: seq<Cell>, flushedCells: nat, inputs: seq<Input>, flushedInputs: nat,
    models: map<string, ModelRun>, modelByKey: map<string, string>,
    predictionSets: map<string, PredictionSet>, predictionSetByKey: map<string, string>,
    predictions: map<string, Prediction>, predictionByKey: map<string, string>)

  type Store = s: RawStore | s.flushedCells <= |s.cells| && s.flushedInputs <= |s.inputs|
    witness Store([], map[], map[], map[], [], 0, [], 0, map[], map[], map[], map[], map[], map[])

  const EMPTY: Store := Store([], map[], map[], map[], [], 0, [], 0, map[], map[], map[], map[], map[], map[])

  function KeyOfCell(c: Cell): CellKey {
    CellKey(c.sampleDate, c.role, c.kind, c.name)
  }

  function KeyOfInput(i: Input): InputKey {
    InputKey(i.cell, i.inputRole, i.table, i.row)
  }

  /** The cell of a set with a given key, stored or staged. */
  function FindCell(cells: seq<Cell>, featureSet: string, key: CellKey): (r: Option<nat>)
    ensures r.Some? ==> r.value < |cells| && cells[r.value].featureSet == featureSet && KeyOfCell(cells[r.value]) == key
    ensures r.None? ==> forall i :: 0 <= i < |cells| ==> cells[i].featureSet != featureSet || KeyOfCell(cells[i]) != key
  {
    if cells == [] then None
    else
      var last := cells[|cells| - 1];
      if last.featureSet == featureSet && KeyOfCell(last) == key then Some(|cells| - 1)
      else FindCell(cells[..|cells| - 1], featureSet, key)
  }

  function FindInput(inputs: seq<Input>, key: InputKey): (r: Option<nat>)
    ensures r.Some? ==> r.value < |inputs| && KeyOfInput(inputs[r.value]) == key
    ensures r.None? ==> forall i :: 0 <= i < |inputs| ==> KeyOfInput(inputs[i]) != key
  {
    if inputs == [] then None
    else if KeyOfInput(inputs[|inputs| - 1]) == key then Some(|inputs| - 1)
    else FindInput(inputs[..|inputs| - 1], key)
  }

  /** The session writes out everything staged. */
  function Flush(s: Store): Store {
    s.(flushedCells := |s.cells|, flushedInputs := |s.inputs|)
  }

  // ------------------------------------------------------------------
  // Feature sets
  // ------------------------------------------------------------------

  datatype SetArgs = SetArgs(
    run: string, ticker: string, predictionDate: int, cutoff: int, version: string, kind: SetKind,
    trainingStart: int, trainingEnd: int, required: int, key: string, now: int)

  function NewSet(a: SetArgs): FeatureSet {
    FeatureSet(a.run, a.ticker, a.predictionDate, a.cutoff, a.version, a.kind, a.trainingStart, a.trainingEnd,
               Building, a.required, a.required, if a.required > 0 then 1.0 else 0.0,
               None, None, None, None, a.now, None)
  }

  predicate SetTaken(sets: map<string, FeatureSet>, a: SetArgs) {
    exists q ::
      q in sets && sets[q].run == a.run && sets[q].ticker == a.ticker && sets[q].version == a.version
      && sets[q].kind == a.kind
  }

  function CreateFeatureSet(s: Store, id: string, a: SetArgs): (Store, Result<string>) {
    if a.key in s.setByKey && s.setByKey[a.key] in s.sets then
      var e := s.sets[s.setByKey[a.key]];
      if (e.run, e.ticker, e.predictionDate, e.version, e.kind)
         != (a.run, a.ticker, a.predictionDate, a.version, a.kind) then
        (s, Err("feature-set idempotency key has conflicting identity"))
      else (s, Ok(s.setByKey[a.key]))
    else if a.run !in s.runs then (s, Err("unknown daily run"))
    else if s.runs[a.run].predictionDate != a.predictionDate then
      (s, Err("feature-set prediction date differs from its daily run"))
    else if s.runs[a.run].cutoff.Some? && s.runs[a.run].cutoff.value != a.cutoff then
      (s, Err("feature-set cutoff differs from its daily run"))
    else if a.trainingStart > a.trainingEnd || a.trainingEnd >= a.predictionDate then
      (s, Err("training dates must precede the prediction date"))
    else if a.required < 0 then (s, Err("required_feature_count cannot be negative"))
    else if SetTaken(s.sets, a) then
      (s, Err("feature set already exists under another idempotency key"))
    else if id in s.sets then (s, Err("integrity error"))
    else
      (Flush(s.(sets := s.sets[id := NewSet(a)], setByKey := s.setByKey[a.key := id])), Ok(id))
  }

  datatype CellArgs = CellArgs(
    featureSet: string, sampleDate: int, sampleCutoff: int, role: RowRole, kind: ValueKind, name: string,
    value: Option<real>, missing: bool, available: Option<int>, quality: Option<string>)

  predicate Blank(name: string) {
    forall c :: c in name ==> c in " \t\n\r"
  }

  function CellError(s: Store, a: CellArgs): Option<string> {
    if a.featureSet !in s.sets then Some("unknown feature set")
    else
      var f := s.sets[a.featureSet];
      if f.status != Building then Some("feature values can only be added while BUILDING")
      else if Blank(a.name) then Some("feature_name must not be blank")
      else if a.missing != a.value.None? then Some("is_missing must exactly match a null value")
      else if a.sampleCutoff > f.cutoff then Some("sample cutoff cannot exceed feature-set cutoff")
      else if a.role == Score && a.sampleDate != f.predictionDate then Some("score rows must use the prediction date")
      else if a.role == Score && a.kind == TargetValue then Some("a score-row target would leak the outcome")
      else if a.role == Train && !(f.trainingStart <= a.sampleDate <= f.trainingEnd) then
        Some("training row falls outside the frozen training interval")
      else if a.available.Some? && a.available.value > a.sampleCutoff then
        Some("feature value was unavailable at its sample cutoff")
      else None
  }

  function NewCell(a: CellArgs): Cell {
    Cell(a.featureSet, a.sampleDate, a.sampleCutoff, a.role, a.kind, a.name, a.value, a.missing, a.available, a.quality)
  }

  function AppendCell(s: Store, c: Cell, flush: bool): Store {
    var t: Store := s.(cells := s.cells + [c]);
    if flush then Flush(t) else t
  }

  function AddFeatureValue(s: Store, a: CellArgs, flush: bool): (Store, Result<nat>) {
    if CellError(s, a).Some? then (s, Err(CellError(s, a).value))
    else match FindCell(s.cells, a.featureSet, KeyOfCell(NewCell(a)))
      case Some(i) =>
        if (s.cells[i].value, s.cells[i].missing, s.cells[i].quality) != (a.value, a.missing, a.quality) then
          (s, Err("feature value is immutable within a feature set"))
        else (s, Ok(i))
      case None =>
        var id: nat := |s.cells|;
        (AppendCell(s, NewCell(a), flush), Ok(id))
  }

  datatype InputArgs = InputArgs(cell: nat, inputRole: string, table: TableName, row: nat, observedByCutoff: bool)

  function InputError(s: Store, a: InputArgs): Option<string> {
    if a.cell >= s.flushedCells || a.cell >= |s.cells| then Some("unknown feature value")
    else if s.cells[a.cell].featureSet !in s.sets then Some("feature value has no feature set")
    else
      var c, f := s.cells[a.cell], s.sets[s.cells[a.cell].featureSet];
      if f.status != Building then Some("feature inputs can only be added while BUILDING")
      else if c.missing then Some("a missing feature value cannot have raw inputs")
      else if a.row >= |s.rows| || s.rows[a.row].table != a.table then Some("unknown raw row")
      else
        var b := s.rows[a.row].bar;
        if b.available > c.sampleCutoff then Some("raw input was unavailable at the sample cutoff")
        else if a.observedByCutoff && (b.firstObserved > f.cutoff || b.retrieved > f.cutoff) then
          Some("raw input was not observed by the prediction cutoff")
        else if a.observedByCutoff && (f.kind == WalkForward || c.role == Score)
                && (b.firstObserved > c.sampleCutoff || b.retrieved > c.sampleCutoff) then
          Some("raw input violates walk-forward first-observed cutoff")
        else None
  }

  /** The cell's own availability follows its latest input. */
  function Lift(available: Option<int>, at: int): Option<int> {
    if available.None? || at > available.value then Some(at) else available
  }

  /** The lineage row of an accepted input copies the raw row's instants. */
  function NewInput(rows: seq<Row>, a: InputArgs): Input
    requires a.row < |rows|
  {
    var b := rows[a.row].bar;
    Input(a.cell, a.inputRole, a.table, a.row, b.available, b.firstObserved, b.retrieved)
  }

  function Lifted(c: Cell, at: int): Cell {
    c.(available := Lift(c.available, at))
  }

  function AppendInput(s: Store, a: InputArgs, flush: bool): Store
    requires a.cell < |s.cells| && a.row < |s.rows|
  {
    var t: Store := s.(cells := s.cells[a.cell := Lifted(s.cells[a.cell], s.rows[a.row].bar.available)],
                       inputs := s.inputs + [NewInput(s.rows, a)]);
    if flush then Flush(t) else t
  }

  function AddFeatureInput(s: Store, a: InputArgs, flush: bool): (Store, Result<nat>) {
    if InputError(s, a).Some? then (s, Err(InputError(s, a).value))
    else match FindInput(s.inputs, InputKey(a.cell, a.inputRole, a.table, a.row))
      case Some(i) => (s, Ok(i))
      case None =>
        var id: nat := |s.inputs|;
        (AppendInput(s, a, flush), Ok(id))
  }

  // -------- finalising --------

  function CountCells(cells: seq<Cell>, featureSet: string, n: nat): nat
    requires n <= |cells|
  {
    if n == 0 then 0 else CountCells(cells, featureSet, n - 1) + if cells[n - 1].featureSet == featureSet then 1 else 0
  }

  function CountMissing(cells: seq<Cell>, featureSet: string, n: nat): nat
    requires n <= |cells|
  {
    if n == 0 then 0
    else
      CountMissing(cells, featureSet, n - 1)
      + if cells[n - 1].featureSet == featureSet && cells[n - 1].missing then 1 else 0
  }

  datatype Instant = AvailableAt | ObservedAt | RetrievedAt

  function Reading(i: Input, which: Instant): int {
    match which case AvailableAt => i.available case ObservedAt => i.observed case RetrievedAt => i.retrieved
  }

  predicate InSet(cells: seq<Cell>, i: Input, featureSet: string) {
    i.cell < |cells| && cells[i.cell].featureSet == featureSet
  }

  /** `max(...)` over the stored inputs of one set. */
  function Latest(cells: seq<Cell>, inputs: seq<Input>, featureSet: string, which: Instant, n: nat): Option<int>
    requires n <= |inputs|
  {
    if n == 0 then None
    else
      var earlier := Latest(cells, inputs, featureSet, which, n - 1);
      if InSet(cells, inputs[n - 1], featureSet) then Lift(earlier, Reading(inputs[n - 1], which)) else earlier
  }

  function LatestStored(s: Store, featureSet: string, which: Instant): Option<int> {
    Latest(s.cells, s.inputs, featureSet, which, s.flushedInputs)
  }

  predicate After(at: Option<int>, cutoff: int) {
    at.Some? && at.value > cutoff
  }

  datatype FinalArgs = FinalArgs(featureSet: string, status: SetStatus, manifest: Option<string>, now: int,
                                 observedByCutoff: bool)

  /** Counts and instants are read from the database, before anything staged is flushed.  The
      table's own checks refuse a late first observation or retrieval whatever the flag. */
  function FinalError(s: Store, a: FinalArgs): Option<string>
    requires a.featureSet in s.sets
  {
    var f := s.sets[a.featureSet];
    var count := CountCells(s.cells, a.featureSet, s.flushedCells);
    if count != f.required then Some("persisted feature-value count does not match the frozen requirement")
    else if a.status == Ready && a.manifest.None? then Some("ready feature set requires an input manifest hash")
    else if After(LatestStored(s, a.featureSet, AvailableAt), f.cutoff) then
      Some("feature-set available lineage exceeds its cutoff")
    else if a.observedByCutoff && After(LatestStored(s, a.featureSet, ObservedAt), f.cutoff) then
      Some("feature-set first-observed lineage exceeds its cutoff")
    else if a.observedByCutoff && After(LatestStored(s, a.featureSet, RetrievedAt), f.cutoff) then
      Some("feature-set retrieved lineage exceeds its cutoff")
    else if a.now < f.createdAt then Some("finalized_at cannot precede created_at")
    else if After(LatestStored(s, a.featureSet, ObservedAt), f.cutoff) then Some("ck_feature_sets_observed_cutoff")
    else if After(LatestStored(s, a.featureSet, RetrievedAt), f.cutoff) then Some("ck_feature_sets_retrieved_cutoff")
    else None
  }

  function Frozen(s: Store, a: FinalArgs): FeatureSet
    requires a.featureSet in s.sets
  {
    var count := CountCells(s.cells, a.featureSet, s.flushedCells);
    var missing := CountMissing(s.cells, a.featureSet, s.flushedCells);
    s.sets[a.featureSet].(
      status := a.status, missing := missing,
      missingRatio := if count > 0 then missing as real / count as real else 0.0,
      maxAvailable := LatestStored(s, a.featureSet, AvailableAt),
      maxObserved := LatestStored(s, a.featureSet, ObservedAt),
      maxRetrieved := LatestStored(s, a.featureSet, RetrievedAt),
      manifest := a.manifest, finalizedAt := Some(a.now))
  }

  function FinalizeFeatureSet(s: Store, a: FinalArgs): (Store, Result<string>) {
    if a.status == Building then (s, Err("invalid terminal feature-set status"))
    else if a.featureSet !in s.sets then (s, Err("unknown feature set"))
    else if s.sets[a.featureSet].status != Building then
      if s.sets[a.featureSet].status == a.status then (s, Ok(a.featureSet))
      else (s, Err("feature set is already terminal"))
    else if FinalError(s, a).Some? then (s, Err(FinalError(s, a).value))
    else (Flush(s.(sets := s.sets[a.featureSet := Frozen(s, a)])), Ok(a.featureSet))
  }

  // ------------------------------------------------------------------
  // Models and predictions
  // ------------------------------------------------------------------

  datatype ModelArgs = ModelArgs(
    run: string, ticker: string, featureSet: string, task: Task, algorithm: string, trainingStart: int,
    trainingEnd: int,
    cutoff: int, trainingRows: int, featureVersion: string, version: string, key: string, startedAt: int)

  function NewModel(a: ModelArgs): ModelRun {
    ModelRun(a.run, a.ticker, a.featureSet, a.task, a.algorithm, a.version, Running, a.startedAt)
  }

  predicate ModelTaken(models: map<string, ModelRun>, a: ModelArgs) {
    exists q :: q in models && models[q].run == a.run && models[q].ticker == a.ticker
                && models[q].task == a.task && models[q].algorithm == a.algorithm
  }

  function CreateModelRun(s: Store, id: string, a: ModelArgs): (Store, Result<string>) {
    if a.key in s.modelByKey && s.modelByKey[a.key] in s.models then
      var e := s.models[s.modelByKey[a.key]];
      if (e.run, e.ticker, e.featureSet, e.task, e.algorithm)
         != (a.run, a.ticker, a.featureSet, a.task, a.algorithm) then
        (s, Err("model-run idempotency key has conflicting identity"))
      else (s, Ok(s.modelByKey[a.key]))
    else if a.featureSet !in s.sets || s.sets[a.featureSet].status != Ready then
      (s, Err("model run requires a READY feature set"))
    else
      var f := s.sets[a.featureSet];
      if a.run != f.run || a.ticker != f.ticker then (s, Err("model run identity differs from its feature set"))
      else if (a.trainingStart, a.trainingEnd) != (f.trainingStart, f.trainingEnd) then
        (s, Err("model training interval differs from its feature set"))
      else if a.featureVersion != f.version then (s, Err("model feature version differs from its feature set"))
      else if a.cutoff != f.cutoff then (s, Err("model cutoff differs from its feature set"))
      else if a.trainingRows <= 0 then (s, Err("training_rows must be positive"))
      else if ModelTaken(s.models, a) then
        (s, Err("model run already exists under another idempotency key"))
      else if id in s.models then (s, Err("integrity error"))
      else
        (Flush(s.(models := s.models[id := NewModel(a)], modelByKey := s.modelByKey[a.key := id])), Ok(id))
  }

  function FinishModelRun(s: Store, id: string, status: ModelStatus, hasIntercept: bool, error: string,
                          now: int): (Store, Result<string>)
  {
    if status == Running then (s, Err("invalid terminal model status"))
    else if id !in s.models then (s, Err("unknown model run"))
    else if s.models[id].status != Running then
      if s.models[id].status == status then (s, Ok(id)) else (s, Err("model run is already terminal"))
    else if status == ModelSuccess && !hasIntercept then (s, Err("successful linear model requires an intercept"))
    else if status == ModelFailed && error == "" then (s, Err("failed model run requires an error message"))
    else if now < s.models[id].startedAt then (s, Err("finished_at cannot precede started_at"))
    else (Flush(s.(models := s.models[id := s.models[id].(status := status)])), Ok(id))
  }

  datatype PredictionSetArgs = PredictionSetArgs(
    run: string, predictionDate: int, cutoff: int, featureVersion: string, modelVersion: string,
    trainingStart: int, trainingEnd: int, key: string, generatedAt: int)

  function NewPredictionSet(a: PredictionSetArgs): PredictionSet {
    PredictionSet(a.run, a.predictionDate, a.cutoff, Building, a.featureVersion, a.modelVersion, a.generatedAt)
  }

  predicate RunTaken(predictionSets: map<string, PredictionSet>, run: string) {
    exists q :: q in predictionSets && predictionSets[q].run == run
  }

  function CreatePredictionSet(s: Store, id: string, a: PredictionSetArgs): (Store, Result<string>) {
    if a.key in s.predictionSetByKey && s.predictionSetByKey[a.key] in s.predictionSets then
      if s.predictionSets[s.predictionSetByKey[a.key]].predictionDate != a.predictionDate then
        (s, Err("prediction-set idempotency key has conflicting identity"))
      else (s, Ok(s.predictionSetByKey[a.key]))
    else if a.run !in s.runs then (s, Err("unknown daily run"))
    else if s.runs[a.run].predictionDate != a.predictionDate then
      (s, Err("prediction-set date differs from its daily run"))
    else if s.runs[a.run].cutoff.Some? && s.runs[a.run].cutoff.value != a.cutoff then
      (s, Err("prediction-set cutoff differs from its daily run"))
    else if a.trainingStart > a.trainingEnd || a.trainingEnd >= a.predictionDate then
      (s, Err("training dates must precede the prediction date"))
    else if RunTaken(s.predictionSets, a.run) then
      (s, Err("prediction set already exists under another idempotency key"))
    else if id in s.predictionSets then (s, Err("integrity error"))
    else
      (Flush(s.(predictionSets := s.predictionSets[id := NewPredictionSet(a)],
                predictionSetByKey := s.predictionSetByKey[a.key := id])), Ok(id))
  }

  datatype PredictionArgs = PredictionArgs(row: Prediction, key: string, observedByCutoff: bool)

  predicate ModelFits(models: map<string, ModelRun>, id: Option<string>, task: Task, p: Prediction,
                      modelVersion: string)
  {
    id.Some? ==>
      id.value in models && models[id.value].status == ModelSuccess
      && models[id.value].task == task && models[id.value].ticker == p.ticker
      && models[id.value].featureSet == p.featureSet && models[id.value].version == modelVersion
  }

  function ReferenceError(s: Store, p: Prediction, cutoff: int, observedByCutoff: bool): Option<string> {
    if p.referenceRow.None? then None
    else if p.referenceRow.value >= |s.rows| || s.rows[p.referenceRow.value].table != StockPrice then
      Some("unknown reference stock-price revision")
    else
      var b := s.rows[p.referenceRow.value].bar;
      if b.available > cutoff || (observedByCutoff && (b.firstObserved > cutoff || b.retrieved > cutoff)) then
        Some("reference stock price was not known by the cutoff")
      else if p.referencePrice != Some(b.close) then Some("reference price differs from its raw revision")
      else None
  }

  function PredictionError(s: Store, a: PredictionArgs): Option<string> {
    var p := a.row;
    if p.predictionSet !in s.predictionSets || s.predictionSets[p.predictionSet].status != Building then
      Some("predictions require a BUILDING prediction set")
    else if p.featureSet !in s.sets then Some("prediction requires a feature set")
    else
      var f, g := s.sets[p.featureSet], s.predictionSets[p.predictionSet];
      if p.ticker != f.ticker then Some("prediction ticker differs from its feature set")
      else if f.predictionDate != g.predictionDate then Some("prediction and feature-set dates differ")
      else if f.version != g.featureVersion then Some("prediction and feature-set versions differ")
      else if f.cutoff > g.cutoff then Some("feature-set cutoff exceeds the prediction cutoff")
      else if p.status == Success && f.status != Ready then Some("successful prediction requires a READY feature set")
      else if p.status != Success && f.status == Building then
        Some("non-successful prediction requires a terminal feature set")
      else if p.status == Success
              && (p.regression.None? || p.classification.None? || p.predictedReturn.None? || p.probabilityUp.None?) then
        Some("successful prediction requires both model outputs")
      else if p.status == Success && p.signal == NoSignal then Some("successful prediction requires a trading decision")
      else if p.status != Success && p.signal != NoSignal then Some("non-successful prediction must use signal NONE")
      else if !ModelFits(s.models, p.regression, Regression, p, g.modelVersion) then
        Some("regression model identity differs from prediction")
      else if !ModelFits(s.models, p.classification, Classification, p, g.modelVersion) then
        Some("classification model identity differs from prediction")
      else ReferenceError(s, p, g.cutoff, a.observedByCutoff)
  }

  predicate PredictionTaken(predictions: map<string, Prediction>, row: Prediction) {
    exists q ::
      q in predictions && predictions[q].predictionSet == row.predictionSet && predictions[q].ticker == row.ticker
  }

  /** The checks the table makes of its own on the columns modelled here. */
  predicate PredictionRowAllowed(row: Prediction) {
    && (row.probabilityUp.Some? ==> 0.0 <= row.probabilityUp.value <= 1.0)
    && (row.referencePrice.Some? ==> row.referencePrice.value > 0.0)
  }

  function AddPrediction(s: Store, id: string, a: PredictionArgs): (Store, Result<string>) {
    if a.key in s.predictionByKey && s.predictionByKey[a.key] in s.predictions then
      var e := s.predictions[s.predictionByKey[a.key]];
      if (e.predictionSet, e.ticker) != (a.row.predictionSet, a.row.ticker) then
        (s, Err("prediction idempotency key has conflicting identity"))
      else (s, Ok(s.predictionByKey[a.key]))
    else if PredictionError(s, a).Some? then (s, Err(PredictionError(s, a).value))
    else if PredictionTaken(s.predictions, a.row) then
      (s, Err("prediction exists under another idempotency key"))
    else if id in s.predictions || !PredictionRowAllowed(a.row) then (s, Err("integrity error"))
    else (Flush(s.(predictions := s.predictions[id := a.row], predictionByKey := s.predictionByKey[a.key := id])),
          Ok(id))
  }

  function TickersOf(predictions: map<string, Prediction>, predictionSet: string): set<string> {
    set p | p in predictions && predictions[p].predictionSet == predictionSet :: predictions[p].ticker
  }

  function FinalizePredictionSet(s: Store, id: string, status: SetStatus, expected: Option<set<string>>,
                                 now: int): (Store, Result<string>)
  {
    if status == Building then (s, Err("invalid terminal prediction-set status"))
    else if id !in s.predictionSets then (s, Err("unknown prediction set"))
    else if s.predictionSets[id].status != Building then
      if s.predictionSets[id].status == status then (s, Ok(id)) else (s, Err("prediction set is already terminal"))
    else
      var tickers := TickersOf(s.predictions, id);
      if expected.Some? && tickers != expected.value then
        (s, Err("persisted predictions do not match expected tickers"))
      else if status == Ready && tickers == {} then (s, Err("ready prediction set cannot be empty"))
      else if now < s.predictionSets[id].generatedAt then (s, Err("published_at cannot precede generated_at"))
      else (Flush(s.(predictionSets := s.predictionSets[id := s.predictionSets[id].(status := status)])), Ok(id))
  }

  // ------------------------------------------------------------------
  // Sequences of calls
  // ------------------------------------------------------------------

  datatype Call =
    | CallRun(run: string, row: DailyRun)
    | CallBars(rows: seq<Row>)
    | CallSet(id: string, set_: SetArgs)
    | CallCell(cell: CellArgs, flush: bool)
    | CallInput(input: InputArgs, flush: bool)
    | CallFlush
    | CallFinal(final: FinalArgs)
    | CallModel(id: string, model: ModelArgs)
    | CallFinish(id: string, status: ModelStatus, hasIntercept: bool, error: string, now: int)
    | CallPredictionSet(id: string, predictionSet: PredictionSetArgs)
    | CallPrediction(id: string, prediction: PredictionArgs)
    | CallPublish(id: string, publishAs: SetStatus, expected: Option<set<string>>, now: int)

  /** One call.  Bars arrive through the bar repository, which only ever lets the stored rows
      evolve as `Evolves` says. */
  ghost function Step(s: Store, c: Call): Store {
    match c
    case CallRun(run, row) => if run in s.runs then s else s.(runs := s.runs[run := row])
    case CallBars(rows) => if Evolves(s.rows, rows) then s.(rows := rows) else s
    case CallSet(id, a) => CreateFeatureSet(s, id, a).0
    case CallCell(a, flush) => AddFeatureValue(s, a, flush).0
    case CallInput(a, flush) => AddFeatureInput(s, a, flush).0
    case CallFlush => Flush(s)
    case CallFinal(a) => FinalizeFeatureSet(s, a).0
    case CallModel(id, a) => CreateModelRun(s, id, a).0
    case CallFinish(id, status, hasIntercept, error, now) => FinishModelRun(s, id, status, hasIntercept, error, now).0
    case CallPredictionSet(id, a) => CreatePredictionSet(s, id, a).0
    case CallPrediction(id, a) => AddPrediction(s, id, a).0
    case CallPublish(id, status, expected, now) => FinalizePredictionSet(s, id, status, expected, now).0
  }

  ghost function Run(calls: seq<Call>): Store {
    if calls == [] then EMPTY else Step(Run(calls[..|calls| - 1]), calls[|calls| - 1])
  }
}
