/** Who belongs to whom in the prediction tables: sets and publications to their daily run, models to
    their feature set, and each logical identity only once, in every reachable state. */
module Identities {
  import opened BarRepository
  import opened BarStore
  import opened FeatureStore
  import opened PointInTime
  import opened Wrappers

  // ------------------------------------------------------------------
  // What holds in every state
  // ------------------------------------------------------------------

  predicate CutoffOf(run: DailyRun, cutoff: int) {
    run.cutoff.None? || run.cutoff.value == cutoff
  }

  /** A set trains strictly before the day of its own run, up to the run's cutoff. */
  ghost predicate SetsBelong(sets: map<string, FeatureSet>, runs: map<string, DailyRun>) {
    forall id :: id in sets ==>
      sets[id].run in runs && runs[sets[id].run].predictionDate == sets[id].predictionDate
      && CutoffOf(runs[sets[id].run], sets[id].cutoff)
      && sets[id].trainingStart <= sets[id].trainingEnd < sets[id].predictionDate && sets[id].required >= 0
  }

  ghost predicate SetsDistinct(sets: map<string, FeatureSet>) {
    forall p, q :: p in sets && q in sets && p != q ==>
      (sets[p].run, sets[p].ticker, sets[p].version, sets[p].kind)
      != (sets[q].run, sets[q].ticker, sets[q].version, sets[q].kind)
  }

  /** A model is fitted on a READY set of its own run and ticker. */
  ghost predicate ModelsBelong(models: map<string, ModelRun>, sets: map<string, FeatureSet>) {
    forall id :: id in models ==>
      models[id].featureSet in sets && sets[models[id].featureSet].status == Ready
      && sets[models[id].featureSet].run == models[id].run && sets[models[id].featureSet].ticker == models[id].ticker
  }

  ghost predicate ModelsDistinct(models: map<string, ModelRun>) {
    forall p, q :: p in models && q in models && p != q ==>
      (models[p].run, models[p].ticker, models[p].task, models[p].algorithm)
      != (models[q].run, models[q].ticker, models[q].task, models[q].algorithm)
  }

  ghost predicate PredictionSetsBelong(predictionSets: map<string, PredictionSet>, runs: map<string, DailyRun>) {
    forall id :: id in predictionSets ==>
      predictionSets[id].run in runs && runs[predictionSets[id].run].predictionDate == predictionSets[id].predictionDate
      && CutoffOf(runs[predictionSets[id].run], predictionSets[id].cutoff)
  }

  ghost predicate PredictionSetsDistinct(predictionSets: map<string, PredictionSet>) {
    forall p, q :: p in predictionSets && q in predictionSets && p != q ==>
      predictionSets[p].run != predictionSets[q].run
  }

  ghost predicate PredictionsDistinct(predictions: map<string, Prediction>) {
    forall p, q :: p in predictions && q in predictions && p != q ==>
      (predictions[p].predictionSet, predictions[p].ticker) != (predictions[q].predictionSet, predictions[q].ticker)
  }

  ghost predicate Identified(s: Store) {
    && SetsBelong(s.sets, s.runs) && SetsDistinct(s.sets)
    && ModelsBelong(s.models, s.sets) && ModelsDistinct(s.models)
    && PredictionSetsBelong(s.predictionSets, s.runs) && PredictionSetsDistinct(s.predictionSets)
    && PredictionsDistinct(s.predictions)
  }

  // ------------------------------------------------------------------
  // What a creating call has checked
  // ------------------------------------------------------------------

  predicate SetVetted(s: Store, a: SetArgs) {
    && a.run in s.runs && s.runs[a.run].predictionDate == a.predictionDate && CutoffOf(s.runs[a.run], a.cutoff)
    && a.trainingStart <= a.trainingEnd < a.predictionDate && a.required >= 0 && !SetTaken(s.sets, a)
  }

  predicate ModelVetted(s: Store, a: ModelArgs) {
    && a.featureSet in s.sets && s.sets[a.featureSet].status == Ready
    && s.sets[a.featureSet].run == a.run && s.sets[a.featureSet].ticker == a.ticker
    && s.sets[a.featureSet].trainingStart == a.trainingStart && s.sets[a.featureSet].trainingEnd == a.trainingEnd
    && s.sets[a.featureSet].version == a.featureVersion && s.sets[a.featureSet].cutoff == a.cutoff
    && a.trainingRows > 0 && !ModelTaken(s.models, a)
  }

  predicate FinishVetted(s: Store, id: string, status: ModelStatus, hasIntercept: bool, error: string, now: int) {
    && id in s.models && s.models[id].status == Running && status != Running && s.models[id].startedAt <= now
    && (status == ModelSuccess ==> hasIntercept) && (status == ModelFailed ==> error != "")
  }

  predicate PredictionSetVetted(s: Store, a: PredictionSetArgs) {
    && a.run in s.runs && s.runs[a.run].predictionDate == a.predictionDate && CutoffOf(s.runs[a.run], a.cutoff)
    && a.trainingStart <= a.trainingEnd < a.predictionDate && !RunTaken(s.predictionSets, a.run)
  }

  predicate PublishVetted(s: Store, id: string, status: SetStatus, expected: Option<set<string>>, now: int) {
    && id in s.predictionSets && s.predictionSets[id].status == Building && status != Building
    && s.predictionSets[id].generatedAt <= now
    && (expected.Some? ==> TickersOf(s.predictions, id) == expected.value)
    && (status == Ready ==> TickersOf(s.predictions, id) != {})
  }

  /** The checks behind creating, finishing and publishing. */
  predicate Vetted(s: Store, c: Call) {
    match c
    case CallSet(_, a) => SetVetted(s, a)
    case CallModel(_, a) => ModelVetted(s, a)
    case CallFinish(id, status, hasIntercept, error, now) => FinishVetted(s, id, status, hasIntercept, error, now)
    case CallPredictionSet(_, a) => PredictionSetVetted(s, a)
    case CallPrediction(_, a) => !PredictionTaken(s.predictions, a.row)
    case CallPublish(id, status, expected, now) => PublishVetted(s, id, status, expected, now)
    case _ => true
  }

  lemma NewSetVetted(s: Store, id: string, a: SetArgs)
    ensures CreateFeatureSet(s, id, a).0 == s || SetVetted(s, a)
  {}

  lemma NewModelVetted(s: Store, id: string, a: ModelArgs)
    ensures CreateModelRun(s, id, a).0 == s || ModelVetted(s, a)
  {}

  lemma NewPredictionSetVetted(s: Store, id: string, a: PredictionSetArgs)
    ensures CreatePredictionSet(s, id, a).0 == s || PredictionSetVetted(s, a)
  {}

  lemma NewPredictionVetted(s: Store, id: string, a: PredictionArgs)
    ensures AddPrediction(s, id, a).0 == s || !PredictionTaken(s.predictions, a.row)
  {}

  lemma FinishedVetted(s: Store, id: string, status: ModelStatus, hasIntercept: bool, error: string, now: int)
    ensures FinishModelRun(s, id, status, hasIntercept, error, now).0 == s
            || FinishVetted(s, id, status, hasIntercept, error, now)
  {}

  lemma PublishedVetted(s: Store, id: string, status: SetStatus, expected: Option<set<string>>, now: int)
    ensures FinalizePredictionSet(s, id, status, expected, now).0 == s || PublishVetted(s, id, status, expected, now)
  {}

  /** A call changes anything only when every check of its method has passed. */
  lemma StepIsChecked(s: Store, c: Call)
    ensures Step(s, c) == s || (Effect(s, c, Step(s, c)) && Allowed(s, c) && Vetted(s, c))
  {
    StepEffect(s, c, Step(s, c));
    StepVetted(s, c);
  }

  lemma StepVetted(s: Store, c: Call)
    ensures Step(s, c) == s || Vetted(s, c)
  {
    match c
    case CallSet(id, a) => NewSetVetted(s, id, a);
    case CallModel(id, a) => NewModelVetted(s, id, a);
    case CallPredictionSet(id, a) => NewPredictionSetVetted(s, id, a);
    case CallPrediction(id, a) => NewPredictionVetted(s, id, a);
    case CallFinish(id, status, hasIntercept, error, now) => FinishedVetted(s, id, status, hasIntercept, error, now);
    case CallPublish(id, status, expected, now) => PublishedVetted(s, id, status, expected, now);
    case _ =>
  }

  // ------------------------------------------------------------------
  // Every call keeps it
  // ------------------------------------------------------------------

  ghost predicate RunsKept(before: map<string, DailyRun>, after: map<string, DailyRun>) {
    forall run :: run in before ==> run in after && after[run] == before[run]
  }

  lemma RunsFrame(s: Store, c: Call, t: Store)
    requires t == Step(s, c)
    ensures RunsKept(s.runs, t.runs)
  {
    StepEffect(s, c, t);
    match c
    case CallRun(_, _) =>
    case CallBars(_) =>
    case CallSet(_, _) =>
    case CallCell(_, _) =>
    case CallInput(_, _) =>
    case CallFlush =>
    case CallFinal(_) =>
    case CallModel(_, _) =>
    case CallFinish(_, _, _, _, _) =>
    case CallPredictionSet(_, _) =>
    case CallPrediction(_, _) =>
    case CallPublish(_, _, _, _) =>
  }

  lemma FrozenSetBelongs(s: Store, a: FinalArgs)
    requires SetsBelong(s.sets, s.runs) && SetsDistinct(s.sets) && a.featureSet in s.sets
    ensures SetsBelong(s.sets[a.featureSet := Frozen(s, a)], s.runs)
            && SetsDistinct(s.sets[a.featureSet := Frozen(s, a)])
  {}

  lemma StepKeepsSets(s: Store, c: Call, t: Store)
    requires Effect(s, c, t) && (t == s || Vetted(s, c)) && RunsKept(s.runs, t.runs)
    requires SetsBelong(s.sets, s.runs) && SetsDistinct(s.sets)
    ensures SetsBelong(t.sets, t.runs) && SetsDistinct(t.sets)
  {
    match c
    case CallSet(id, a) =>
    case CallFinal(a) => if t != s { FrozenSetBelongs(s, a); }
    case _ => FeatureFrame(s, c, t);
  }

  lemma ModelsBelongLater(models: map<string, ModelRun>, sets: map<string, FeatureSet>, after: map<string, FeatureSet>)
    requires ModelsBelong(models, sets) && SetsGrow(sets, after)
    ensures ModelsBelong(models, after)
  {
    forall id | id in models
      ensures models[id].featureSet in after && after[models[id].featureSet] == sets[models[id].featureSet]
    {
      assert SetAged(sets[models[id].featureSet], after[models[id].featureSet]);
    }
  }

  lemma StepKeepsModels(s: Store, c: Call, t: Store)
    requires Effect(s, c, t) && (t == s || Vetted(s, c))
    requires ModelsBelong(s.models, s.sets) && ModelsDistinct(s.models)
    ensures ModelsBelong(t.models, t.sets) && ModelsDistinct(t.models)
  {
    StepGrowsSets(s, c, t);
    ModelsBelongLater(s.models, s.sets, t.sets);
    match c
    case CallModel(id, a) => FeatureFrame(s, c, t); NewModelBelongs(s, id, a, t);
    case CallFinish(id, status, _, _, _) => FeatureFrame(s, c, t); FinishedModelBelongs(s, id, status, t);
    case _ => PredictionFrame(s, c, t);
  }

  lemma FinishedModelBelongs(s: Store, id: string, status: ModelStatus, t: Store)
    requires ModelsBelong(s.models, s.sets) && ModelsDistinct(s.models) && t.sets == s.sets
    requires t == s || ModelMoved(s, id, status, t)
    ensures ModelsBelong(t.models, t.sets) && ModelsDistinct(t.models)
  {}

  lemma NewModelBelongs(s: Store, id: string, a: ModelArgs, t: Store)
    requires ModelsBelong(s.models, s.sets) && ModelsDistinct(s.models) && t.sets == s.sets
    requires t == s || (ModelAdded(s, id, a, t) && ModelVetted(s, a))
    ensures ModelsBelong(t.models, t.sets) && ModelsDistinct(t.models)
  {}

  lemma StepKeepsPredictionSets(s: Store, c: Call, t: Store)
    requires Effect(s, c, t) && (t == s || Vetted(s, c)) && RunsKept(s.runs, t.runs)
    requires PredictionSetsBelong(s.predictionSets, s.runs) && PredictionSetsDistinct(s.predictionSets)
    ensures PredictionSetsBelong(t.predictionSets, t.runs) && PredictionSetsDistinct(t.predictionSets)
  {
    match c
    case CallPredictionSet(_, _) =>
    case CallPublish(_, _, _, _) =>
    case _ => PredictionFrame(s, c, t);
  }

  lemma StepKeepsPredictionsDistinct(s: Store, c: Call, t: Store)
    requires Effect(s, c, t) && (t == s || Vetted(s, c)) && PredictionsDistinct(s.predictions)
    ensures PredictionsDistinct(t.predictions)
  {
    match c
    case CallPrediction(_, _) =>
    case _ => PredictionFrame(s, c, t);
  }

  lemma StepKeepsIdentified(s: Store, c: Call, t: Store)
    requires t == Step(s, c) && Identified(s)
    ensures Identified(t)
  {
    StepEffect(s, c, t);
    StepVetted(s, c);
    RunsFrame(s, c, t);
    StepKeepsSets(s, c, t);
    StepKeepsModels(s, c, t);
    StepKeepsPredictionSets(s, c, t);
    StepKeepsPredictionsDistinct(s, c, t);
  }

  /** In every reachable state sets and publications carry the date and, where it has one, the cutoff
      of their daily run, models sit on READY sets of their own run and ticker, and no run, ticker,
      version or task is covered twice. */
  lemma {:induction false} RunsAreIdentified(calls: seq<Call>)
    ensures Identified(Run(calls))
  {
    if calls == [] {
    } else {
      var init := calls[..|calls| - 1];
      RunsAreIdentified(init);
      StepKeepsIdentified(Run(init), calls[|calls| - 1], Run(calls));
    }
  }

  // ------------------------------------------------------------------
  // What a successful prediction rests on
  // ------------------------------------------------------------------

  /** Both models behind a SUCCESS prediction were fitted on the very set it cites, which is READY,
      of the same ticker, and trained on dates strictly before the day predicted. */
  ghost predicate WellFounded(s: Store, p: Prediction) {
    && p.featureSet in s.sets && p.predictionSet in s.predictionSets
    && s.sets[p.featureSet].status == Ready && s.sets[p.featureSet].ticker == p.ticker
    && s.sets[p.featureSet].trainingEnd < s.sets[p.featureSet].predictionDate
    && s.sets[p.featureSet].predictionDate == s.predictionSets[p.predictionSet].predictionDate
    && FittedOn(s, p.regression, Regression, p) && FittedOn(s, p.classification, Classification, p)
  }

  ghost predicate FittedOn(s: Store, id: Option<string>, task: Task, p: Prediction) {
    && p.featureSet in s.sets && id.Some? && id.value in s.models && s.models[id.value].task == task
    && s.models[id.value].status == ModelSuccess && s.models[id.value].featureSet == p.featureSet
    && s.models[id.value].run == s.sets[p.featureSet].run
  }

  lemma {:induction false} SuccessIsWellFounded(calls: seq<Call>)
    ensures forall id :: id in Run(calls).predictions && Run(calls).predictions[id].status == Success ==>
              WellFounded(Run(calls), Run(calls).predictions[id])
  {
    RunsAreSound(calls);
    RunsAreIdentified(calls);
    var s := Run(calls);
    forall id | id in s.predictions && s.predictions[id].status == Success
      ensures WellFounded(s, s.predictions[id])
    {
      IdentifiedIsWellFounded(s, id);
    }
  }

  lemma IdentifiedIsWellFounded(s: Store, id: string)
    requires Sound(s) && Identified(s) && id in s.predictions && s.predictions[id].status == Success
    ensures WellFounded(s, s.predictions[id])
  {
    assert PredictionSound(s.predictions[id], s);
  }
}
