/** A whole morning, from an empty database to a published decision: the promises about predictions are
    about runs that exist (database/repository.py, class PredictionPipelineRepository). */
module PublishedRuns {
  import opened Acceptance
  import opened BarRepository
  import opened BarStore
  import opened FeatureStore
  import opened FrozenSets
  import opened PointInTime
  import opened Wrappers

  /** What one ticker is told on one day. */
  datatype Decision = Decision(
    ticker: string, day: int, cutoff: int, trainingStart: int, trainingEnd: int, buy: bool, predictedReturn: real,
    probabilityUp: real, price: real)
  {
    predicate Proper() {
      trainingStart <= trainingEnd < day && 0.0 <= probabilityUp <= 1.0 && price > 0.0
    }
  }

  // -------- the calls of the morning --------

  function BarAt(d: Decision, symbol: string): Bar {
    Bar(symbol, symbol, "provider", "eod", d.day - 1, d.cutoff, d.cutoff, d.cutoff, d.cutoff, FirstObserved, Official,
        None, d.price, Some("hash"), {})
  }

  /** A factor's bar and the ticker's own, both known exactly at the cutoff. */
  function RawRows(d: Decision): seq<Row> {
    [Row(MarketData, BarAt(d, "factor"), d.cutoff), Row(StockPrice, BarAt(d, d.ticker), d.cutoff)]
  }

  function MorningSet(d: Decision): SetArgs {
    SetArgs("run", d.ticker, d.day, d.cutoff, "features", Morning, d.trainingStart, d.trainingEnd, 1, "set key",
            d.cutoff)
  }

  function ScoreCell(d: Decision): CellArgs {
    CellArgs("set", d.day, d.cutoff, Score, Feature, "factor_return", Some(0.0), false, None, None)
  }

  const FACTOR_INPUT := InputArgs(0, "source", MarketData, 0, true)

  function FreezeReady(d: Decision): FinalArgs {
    FinalArgs("set", Ready, Some("manifest"), d.cutoff, true)
  }

  function Fit(d: Decision, task: Task): ModelArgs {
    ModelArgs("run", d.ticker, "set", task, "ridge", d.trainingStart, d.trainingEnd, d.cutoff, 1, "features", "models",
              if task == Regression then "regression key" else "classification key", d.cutoff)
  }

  function Publication(d: Decision): PredictionSetArgs {
    PredictionSetArgs("run", d.day, d.cutoff, "features", "models", d.trainingStart, d.trainingEnd, "publication key",
                      d.cutoff)
  }

  function Decided(d: Decision): Prediction {
    Prediction("publication", d.ticker, "set", Some("regression"), Some("classification"), Success,
               Some(d.predictedReturn), Some(d.probabilityUp), Some(1), Some(d.price), if d.buy then Buy else NoBuy)
  }

  // -------- one stage after the other --------

  /** A run so far, and that every call in it claims observation by the cutoff. */
  ghost predicate Reached(calls: seq<Call>, s: Store) {
    s == Run(calls) && forall k :: 0 <= k < |calls| ==> AssertsObservation(calls[k])
  }

  lemma Then(calls: seq<Call>, s: Store, c: Call, t: Store) returns (more: seq<Call>)
    requires Reached(calls, s) && AssertsObservation(c) && t == Step(s, c)
    ensures more == calls + [c] && Reached(more, t)
  {
    more := calls + [c];
    RunLast(calls, c);
  }

  lemma ThenTwice(calls: seq<Call>, s: Store, b: Call, t: Store, c: Call, u: Store) returns (more: seq<Call>)
    requires Reached(calls, s) && AssertsObservation(b) && t == Step(s, b) && AssertsObservation(c) && u == Step(t, c)
    ensures Reached(more, u)
  {
    more := Then(calls, s, b, t);
    more := Then(more, t, c, u);
  }

  lemma Overwritten<V>(m: map<string, V>, k: string, u: V, v: V)
    ensures m[k := u][k := v] == m[k := v]
  {}

  lemma ToRows(d: Decision) returns (calls: seq<Call>, s: Store)
    ensures Reached(calls, s)
    ensures s == EMPTY.(runs := map["run" := DailyRun(d.day, Some(d.cutoff))], rows := RawRows(d))
  {
    var r := Step(EMPTY, CallRun("run", DailyRun(d.day, Some(d.cutoff))));
    s := Step(r, CallBars(RawRows(d)));
    calls := Then([], EMPTY, CallRun("run", DailyRun(d.day, Some(d.cutoff))), r);
    calls := Then(calls, r, CallBars(RawRows(d)), s);
  }

  ghost predicate Untold(s: Store, d: Decision) {
    && s.runs == map["run" := DailyRun(d.day, Some(d.cutoff))] && s.rows == RawRows(d)
    && s.models == map[] && s.modelByKey == map[] && s.predictionSets == map[] && s.predictionSetByKey == map[]
    && s.predictions == map[] && s.predictionByKey == map[]
  }

  lemma ToSet(d: Decision) returns (calls: seq<Call>, t: Store)
    requires d.Proper()
    ensures Reached(calls, t) && Untold(t, d) && t.cells == [] && t.inputs == []
    ensures "set" in t.sets && NewlyBuilding(t.sets["set"], MorningSet(d))
  {
    var before, s := ToRows(d);
    t := Step(s, CallSet("set", MorningSet(d)));
    SetAccepted(s, "set", MorningSet(d));
    calls := Then(before, s, CallSet("set", MorningSet(d)), t);
  }

  lemma ToCell(d: Decision) returns (calls: seq<Call>, t: Store)
    requires d.Proper()
    ensures Reached(calls, t) && Untold(t, d) && t.inputs == [] && t.flushedInputs == 0
    ensures t.flushedCells == |t.cells| == 1 && t.cells[0].featureSet == "set" && t.cells[0].sampleCutoff == d.cutoff
            && !t.cells[0].missing && t.cells[0].role == Score
    ensures "set" in t.sets && NewlyBuilding(t.sets["set"], MorningSet(d))
  {
    var before, s := ToSet(d);
    t := Step(s, CallCell(ScoreCell(d), true));
    assert ScoreCell(d).name[0] == 'f';
    CellAccepted(s, ScoreCell(d), true);
    calls := Then(before, s, CallCell(ScoreCell(d), true), t);
  }

  lemma ToInput(d: Decision) returns (calls: seq<Call>, t: Store)
    requires d.Proper()
    ensures Reached(calls, t) && Untold(t, d)
    ensures t.flushedCells == |t.cells| == 1 && t.cells[0].featureSet == "set"
    ensures t.flushedInputs == |t.inputs| == 1
            && t.inputs[0] == Input(0, "source", MarketData, 0, d.cutoff, d.cutoff, d.cutoff)
    ensures "set" in t.sets && NewlyBuilding(t.sets["set"], MorningSet(d))
  {
    var before, s := ToCell(d);
    t := Step(s, CallInput(FACTOR_INPUT, true));
    InputAccepted(s, FACTOR_INPUT, true);
    calls := Then(before, s, CallInput(FACTOR_INPUT, true), t);
  }

  /** The set frozen, and what models and predictions read of it. */
  ghost predicate ReadySet(s: Store, d: Decision) {
    && "set" in s.sets && s.sets["set"].status == Ready
    && s.sets["set"].run == "run" && s.sets["set"].ticker == d.ticker
    && s.sets["set"].predictionDate == d.day && s.sets["set"].cutoff == d.cutoff && s.sets["set"].version == "features"
    && s.sets["set"].trainingStart == d.trainingStart && s.sets["set"].trainingEnd == d.trainingEnd
    && |s.cells| == 1 && s.cells[0].featureSet == "set"
    && s.inputs == [Input(0, "source", MarketData, 0, d.cutoff, d.cutoff, d.cutoff)]
  }

  lemma Freezes(s: Store, d: Decision, t: Store)
    requires "set" in s.sets && NewlyBuilding(s.sets["set"], MorningSet(d))
    requires t == FinalizeFeatureSet(s, FreezeReady(d)).0
    requires s.flushedCells == |s.cells| == 1 && s.cells[0].featureSet == "set"
    requires s.inputs == [Input(0, "source", MarketData, 0, d.cutoff, d.cutoff, d.cutoff)]
    ensures ReadySet(t, d) && t == s.(sets := t.sets, flushedCells := t.flushedCells, flushedInputs := t.flushedInputs)
  {
    assert CellsOf(s.cells, "set", 1) == {0};
    FinalAccepted(s, FreezeReady(d));
  }

  lemma ToReady(d: Decision) returns (calls: seq<Call>, t: Store)
    requires d.Proper()
    ensures Reached(calls, t) && Untold(t, d) && ReadySet(t, d)
  {
    var before, s := ToInput(d);
    t := Step(s, CallFinal(FreezeReady(d)));
    Freezes(s, d, t);
    calls := Then(before, s, CallFinal(FreezeReady(d)), t);
  }

  function FitId(task: Task): string {
    if task == Regression then "regression" else "classification"
  }

  function FittedModel(d: Decision, task: Task, status: ModelStatus): ModelRun {
    ModelRun("run", d.ticker, "set", task, "ridge", "models", status, d.cutoff)
  }

  /** Nothing is predicted yet; the models are these. */
  ghost predicate Modelled(s: Store, d: Decision, models: map<string, ModelRun>) {
    && s.runs == map["run" := DailyRun(d.day, Some(d.cutoff))] && s.rows == RawRows(d) && ReadySet(s, d)
    && s.models == models && s.modelByKey.Values <= models.Keys
    && s.predictionSets == map[] && s.predictionSetByKey == map[]
    && s.predictions == map[] && s.predictionByKey == map[]
  }

  lemma Starts(s: Store, d: Decision, task: Task, models: map<string, ModelRun>) returns (c: Call, t: Store)
    requires Modelled(s, d, models) && FitId(task) !in models && Fit(d, task).key !in s.modelByKey
    requires forall q :: q in models ==> models[q].task != task
    ensures AssertsObservation(c) && t == Step(s, c)
    ensures Modelled(t, d, models[FitId(task) := FittedModel(d, task, Running)])
    ensures t.modelByKey == s.modelByKey[Fit(d, task).key := FitId(task)]
  {
    c, t := CallModel(FitId(task), Fit(d, task)), CreateModelRun(s, FitId(task), Fit(d, task)).0;
    ModelAccepted(s, FitId(task), Fit(d, task));
  }

  lemma Finishes(s: Store, d: Decision, task: Task, models: map<string, ModelRun>) returns (c: Call, t: Store)
    requires Modelled(s, d, models) && FitId(task) in models && models[FitId(task)] == FittedModel(d, task, Running)
    ensures AssertsObservation(c) && t == Step(s, c)
    ensures Modelled(t, d, models[FitId(task) := FittedModel(d, task, ModelSuccess)]) && t.modelByKey == s.modelByKey
  {
    c := CallFinish(FitId(task), ModelSuccess, true, "", d.cutoff);
    t := FinishModelRun(s, FitId(task), ModelSuccess, true, "", d.cutoff).0;
    FinishAccepted(s, FitId(task), ModelSuccess, true, "", d.cutoff);
  }

  /** One model is started and finished. */
  lemma ThenFitted(before: seq<Call>, s: Store, d: Decision, task: Task, models: map<string, ModelRun>)
    returns (calls: seq<Call>, t: Store)
    requires Reached(before, s) && Modelled(s, d, models) && FitId(task) !in models
    requires Fit(d, task).key !in s.modelByKey
    requires forall q :: q in models ==> models[q].task != task
    ensures Reached(calls, t) && Modelled(t, d, models[FitId(task) := FittedModel(d, task, ModelSuccess)])
    ensures t.modelByKey == s.modelByKey[Fit(d, task).key := FitId(task)]
  {
    var start, started := Starts(s, d, task, models);
    var running := models[FitId(task) := FittedModel(d, task, Running)];
    var finish;
    finish, t := Finishes(started, d, task, running);
    Overwritten(models, FitId(task), FittedModel(d, task, Running), FittedModel(d, task, ModelSuccess));
    calls := ThenTwice(before, s, start, started, finish, t);
  }

  function BothFitted(d: Decision): map<string, ModelRun> {
    map["regression" := FittedModel(d, Regression, ModelSuccess),
        "classification" := FittedModel(d, Classification, ModelSuccess)]
  }

  lemma ToModels(d: Decision) returns (calls: seq<Call>, t: Store)
    requires d.Proper()
    ensures Reached(calls, t) && Modelled(t, d, BothFitted(d))
  {
    var before, s := ToReady(d);
    var first, u := ThenFitted(before, s, d, Regression, map[]);
    assert Fit(d, Classification).key != Fit(d, Regression).key;
    calls, t := ThenFitted(first, u, d, Classification, map["regression" := FittedModel(d, Regression, ModelSuccess)]);
  }

  /** The publication is open and nothing is in it. */
  ghost predicate Open(s: Store, d: Decision) {
    && s.rows == RawRows(d) && ReadySet(s, d) && s.models == BothFitted(d)
    && s.predictions == map[] && s.predictionByKey == map[]
    && s.predictionSets == map["publication" := PredictionSet("run", d.day, d.cutoff, Building, "features", "models",
                                                              d.cutoff)]
  }

  lemma Opens(s: Store, d: Decision, t: Store)
    requires d.Proper() && Modelled(s, d, BothFitted(d)) && t == CreatePredictionSet(s, "publication", Publication(d)).0
    ensures Open(t, d)
  {
    PredictionSetAccepted(s, "publication", Publication(d));
  }

  lemma ToPublication(d: Decision) returns (calls: seq<Call>, t: Store)
    requires d.Proper()
    ensures Reached(calls, t) && Open(t, d)
  {
    var before, s := ToModels(d);
    t := Step(s, CallPredictionSet("publication", Publication(d)));
    Opens(s, d, t);
    calls := Then(before, s, CallPredictionSet("publication", Publication(d)), t);
  }

  lemma Predicts(s: Store, d: Decision) returns (c: Call, t: Store)
    requires d.Proper() && Open(s, d)
    ensures AssertsObservation(c) && t == Step(s, c)
    ensures ReadySet(t, d) && t.predictions == map["prediction" := Decided(d)] && t.predictionSets == s.predictionSets
  {
    var a := PredictionArgs(Decided(d), "prediction key", true);
    c, t := CallPrediction("prediction", a), AddPrediction(s, "prediction", a).0;
    DecisionWelcome(s, d, a);
    PredictionAccepted(s, "prediction", a);
  }

  lemma ToPrediction(d: Decision) returns (calls: seq<Call>, t: Store)
    requires d.Proper()
    ensures Reached(calls, t) && ReadySet(t, d) && t.predictions == map["prediction" := Decided(d)]
    ensures "publication" in t.predictionSets && t.predictionSets["publication"].status == Building
            && t.predictionSets["publication"].generatedAt == d.cutoff
  {
    var before, s := ToPublication(d);
    var c;
    c, t := Predicts(s, d);
    calls := Then(before, s, c, t);
  }

  lemma DecisionWelcome(s: Store, d: Decision, a: PredictionArgs)
    requires d.Proper() && a.row == Decided(d) && Open(s, d)
    ensures PredictionWelcome(s, a)
  {
    assert FitsSets(a.row, s.predictionSets["publication"], s.sets["set"]);
    assert NamesFit(s, Some("regression"), Regression, a.row, "models");
    assert NamesFit(s, Some("classification"), Classification, a.row, "models");
  }

  /** Whatever the ticker, the day, the cutoff and the models' answers: some run of calls that all claim
      observation by the cutoff ends with that BUY, or NO_BUY, published READY, with raw lineage behind it
      and its price taken from a stored row. */
  lemma DecisionIsPublished(d: Decision) returns (calls: seq<Call>, t: Store)
    requires d.Proper()
    ensures Reached(calls, t) && t.predictions == map["prediction" := Decided(d)] && ReadySet(t, d)
    ensures "publication" in t.predictionSets && t.predictionSets["publication"].status == Ready
  {
    var before, s := ToPrediction(d);
    var publish := CallPublish("publication", Ready, Some({d.ticker}), d.cutoff);
    t := Step(s, publish);
    assert Covers(s, "publication", d.ticker) by {
      assert "prediction" in s.predictions;
    }
    PublishAccepted(s, "publication", Ready, Some({d.ticker}), d.cutoff);
    calls := Then(before, s, publish, t);
  }
}
