/** What publishing a prediction set fixes: its tickers in every later state, and what readers may
    rely on about them. */
module Publication {
  import opened BarStore
  import opened FeatureStore
  import opened FrozenSets
  import opened PointInTime
  import opened Sequences
  import opened Wrappers

  ghost predicate Published(s: Store, id: string) {
    id in s.predictionSets && s.predictionSets[id].status != Building
  }

  /** The publication's row and every prediction in it are the same in both states. */
  ghost predicate SamePublication(s: Store, t: Store, id: string) {
    && id in s.predictionSets && id in t.predictionSets && t.predictionSets[id] == s.predictionSets[id]
    && (forall p :: p in s.predictions && s.predictions[p].predictionSet == id ==>
          p in t.predictions && t.predictions[p] == s.predictions[p])
    && (forall p :: p in t.predictions && t.predictions[p].predictionSet == id ==>
          p in s.predictions && s.predictions[p] == t.predictions[p])
  }

  lemma AllowedIntoBuilding(s: Store, a: PredictionArgs)
    requires PredictionError(s, a).None?
    ensures a.row.predictionSet in s.predictionSets && s.predictionSets[a.row.predictionSet].status == Building
  {}

  lemma StepLeavesPublication(s: Store, c: Call, t: Store, id: string)
    requires t == Step(s, c) && Published(s, id)
    ensures SamePublication(s, t, id)
  {
    StepEffect(s, c, t);
    StepGrowsPredictionSets(s, c, t);
    if c.CallPrediction? && t != s {
      AllowedIntoBuilding(s, c.prediction);
      NewPredictionElsewhere(s, c, t, id);
    } else {
      SamePredictions(s, c, t);
    }
  }

  lemma NewPredictionElsewhere(s: Store, c: Call, t: Store, id: string)
    requires c.CallPrediction? && PredictionAdded(s, c.id, c.prediction, t) && c.prediction.row.predictionSet != id
    ensures forall p :: p in s.predictions ==> p in t.predictions && t.predictions[p] == s.predictions[p]
    ensures forall p :: p in t.predictions && t.predictions[p].predictionSet == id ==>
              p in s.predictions && s.predictions[p] == t.predictions[p]
  {}

  lemma SamePredictions(s: Store, c: Call, t: Store)
    requires Effect(s, c, t) && (!c.CallPrediction? || t == s)
    ensures t.predictions == s.predictions
  {
    if t != s { PredictionFrame(s, c, t); }
  }

  lemma SameTransitively(s: Store, t: Store, u: Store, id: string)
    requires SamePublication(s, t, id) && SamePublication(t, u, id)
    ensures SamePublication(s, u, id)
  {}

  lemma ExtendPublication(s: Store, calls: seq<Call>, c: Call, id: string)
    requires Published(s, id) && SamePublication(s, Run(calls), id)
    ensures SamePublication(s, Run(calls + [c]), id)
  {
    RunLast(calls, c);
    StepLeavesPublication(Run(calls), c, Run(calls + [c]), id);
    SameTransitively(s, Run(calls), Run(calls + [c]), id);
  }

  /** Once a prediction set is published nothing is added to it, dropped from it or changed in it. */
  lemma {:induction false} PublishedForever(calls: seq<Call>, more: seq<Call>, id: string)
    ensures Published(Run(calls), id) ==> SamePublication(Run(calls), Run(calls + more), id)
    decreases |more|
  {
    if Published(Run(calls), id) {
      if more == [] {
        assert calls + more == calls;
      } else {
        var init, last := more[..|more| - 1], more[|more| - 1];
        PublishedForever(calls, init, id);
        SplitLast(calls, more);
        ExtendPublication(Run(calls), calls + init, last, id);
      }
    }
  }

  lemma SameTickers(s: Store, t: Store, id: string)
    requires SamePublication(s, t, id)
    ensures TickersOf(t.predictions, id) == TickersOf(s.predictions, id)
  {
    forall x | x in TickersOf(s.predictions, id)
      ensures x in TickersOf(t.predictions, id)
    {
      var p :| p in s.predictions && s.predictions[p].predictionSet == id && s.predictions[p].ticker == x;
      assert p in t.predictions && t.predictions[p].predictionSet == id;
    }
    forall x | x in TickersOf(t.predictions, id)
      ensures x in TickersOf(s.predictions, id)
    {
      var p :| p in t.predictions && t.predictions[p].predictionSet == id && t.predictions[p].ticker == x;
      assert p in s.predictions && s.predictions[p].predictionSet == id;
    }
  }

  /** A publish call that takes effect leaves exactly the tickers it was told to expect, and in a READY
      set at least one, whatever is called afterwards. */
  lemma {:induction false} PublishedTickers(calls: seq<Call>, more: seq<Call>, id: string, status: SetStatus,
                                            expected: Option<set<string>>, now: int)
    ensures var call := CallPublish(id, status, expected, now);
            !Published(Run(calls), id) && Published(Run(calls + [call]), id) ==>
              PublishedAs(Run(calls + [call] + more), id, status, expected)
  {
    var call := CallPublish(id, status, expected, now);
    if !Published(Run(calls), id) && Published(Run(calls + [call]), id) {
      RunLast(calls, call);
      PublishSucceeds(Run(calls), id, status, expected, now, Run(calls + [call]));
      PublishedForever(calls + [call], more, id);
      SameTickers(Run(calls + [call]), Run(calls + [call] + more), id);
    }
  }

  ghost predicate PublishedAs(s: Store, id: string, status: SetStatus, expected: Option<set<string>>) {
    && id in s.predictionSets && s.predictionSets[id].status == status
    && (expected.Some? ==> TickersOf(s.predictions, id) == expected.value)
    && (status == Ready ==> TickersOf(s.predictions, id) != {})
  }

  lemma PublishSucceeds(s: Store, id: string, status: SetStatus, expected: Option<set<string>>, now: int, t: Store)
    requires t == FinalizePredictionSet(s, id, status, expected, now).0 && !Published(s, id) && Published(t, id)
    ensures PublishedAs(t, id, status, expected)
  {}
}
