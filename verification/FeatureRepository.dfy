/** The repository object behind feature sets (database/repository.py, PredictionPipelineRepository):
    its in-memory indexes answer every lookup the way the stored and staged rows would, so each
    method is the step of FeatureStore it stands for. */
module FeatureRepository {
  import PointInTime
  import opened BarStore
  import opened FeatureStore
  import opened Wrappers

  // ------------------------------------------------------------------
  // What the indexes hold
  // ------------------------------------------------------------------

  /** Every cell of one set among the first `n`, by key. */
  function CellIndex(cells: seq<Cell>, featureSet: string, n: nat): map<CellKey, nat>
    requires n <= |cells|
  {
    if n == 0 then map[]
    else if cells[n - 1].featureSet == featureSet then
      CellIndex(cells, featureSet, n - 1)[KeyOfCell(cells[n - 1]) := n - 1]
    else CellIndex(cells, featureSet, n - 1)
  }

  predicate InSets(cells: seq<Cell>, i: Input, sets: set<string>) {
    i.cell < |cells| && cells[i.cell].featureSet in sets
  }

  /** Every lineage row of some sets among the first `n`, by key. */
  function InputIndex(inputs: seq<Input>, cells: seq<Cell>, sets: set<string>, n: nat): map<InputKey, nat>
    requires n <= |inputs|
  {
    if n == 0 then map[]
    else if InSets(cells, inputs[n - 1], sets) then
      InputIndex(inputs, cells, sets, n - 1)[KeyOfInput(inputs[n - 1]) := n - 1]
    else InputIndex(inputs, cells, sets, n - 1)
  }

  function Lookup<K, V>(m: map<K, V>, k: K): Option<V> {
    if k in m then Some(m[k]) else None
  }

  /** The index finds what a search of the rows finds. */
  lemma {:induction false} CellIndexFinds(cells: seq<Cell>, featureSet: string, key: CellKey, n: nat)
    requires n <= |cells|
    ensures Lookup(CellIndex(cells, featureSet, n), key) == FindCell(cells[..n], featureSet, key)
  {
    if n == 0 {
    } else {
      CellIndexFinds(cells, featureSet, key, n - 1);
      assert cells[..n][..n - 1] == cells[..n - 1];
    }
  }

  lemma {:induction false} InputIndexFinds(inputs: seq<Input>, cells: seq<Cell>, sets: set<string>, key: InputKey,
                                           n: nat)
    requires n <= |inputs| && key.cell < |cells| && cells[key.cell].featureSet in sets
    ensures Lookup(InputIndex(inputs, cells, sets, n), key) == FindInput(inputs[..n], key)
  {
    if n == 0 {
    } else {
      InputIndexFinds(inputs, cells, sets, key, n - 1);
      assert inputs[..n][..n - 1] == inputs[..n - 1];
    }
  }

  lemma {:induction false} CellIndexGrows(cells: seq<Cell>, more: seq<Cell>, featureSet: string, n: nat)
    requires n <= |cells|
    ensures CellIndex(cells + more, featureSet, n) == CellIndex(cells, featureSet, n)
  {
    if n == 0 {
    } else {
      CellIndexGrows(cells, more, featureSet, n - 1);
    }
  }

  /** Raising a cell's availability changes no index. */
  lemma {:induction false} CellIndexLifted(cells: seq<Cell>, k: nat, at: int, featureSet: string, n: nat)
    requires k < |cells| && n <= |cells|
    ensures CellIndex(cells[k := Lifted(cells[k], at)], featureSet, n) == CellIndex(cells, featureSet, n)
  {
    if n == 0 {
    } else {
      CellIndexLifted(cells, k, at, featureSet, n - 1);
    }
  }

  lemma {:induction false} CellIndexSkips(cells: seq<Cell>, featureSet: string, m: nat, n: nat)
    requires m <= n <= |cells| && forall i :: m <= i < n ==> cells[i].featureSet != featureSet
    ensures CellIndex(cells, featureSet, n) == CellIndex(cells, featureSet, m)
    decreases n
  {
    if m == n {
    } else {
      CellIndexSkips(cells, featureSet, m, n - 1);
    }
  }

  /** Two readings of the same lineage: the cells may gain rows and availability in between. */
  lemma {:induction false} InputIndexGrows(inputs: seq<Input>, more: seq<Input>, cells: seq<Cell>, after: seq<Cell>,
                                           sets: set<string>, n: nat)
    requires n <= |inputs| && |cells| <= |after|
    requires forall i :: 0 <= i < |cells| ==> after[i].featureSet == cells[i].featureSet
    requires forall k :: 0 <= k < |inputs| ==> inputs[k].cell < |cells|
    ensures InputIndex(inputs + more, after, sets, n) == InputIndex(inputs, cells, sets, n)
  {
    if n == 0 {
    } else {
      InputIndexGrows(inputs, more, cells, after, sets, n - 1);
      assert InSets(after, (inputs + more)[n - 1], sets) == InSets(cells, inputs[n - 1], sets);
    }
  }

  lemma {:induction false} InputIndexSkips(inputs: seq<Input>, cells: seq<Cell>, sets: set<string>, m: nat, n: nat)
    requires m <= n <= |inputs| && forall k :: m <= k < n ==> !InSets(cells, inputs[k], sets)
    ensures InputIndex(inputs, cells, sets, n) == InputIndex(inputs, cells, sets, m)
    decreases n
  {
    if m == n {
    } else {
      InputIndexSkips(inputs, cells, sets, m, n - 1);
    }
  }

  lemma {:induction false} InputIndexKeys(inputs: seq<Input>, cells: seq<Cell>, sets: set<string>, n: nat)
    requires n <= |inputs|
    ensures forall k :: k in InputIndex(inputs, cells, sets, n) ==> k.cell < |cells| && cells[k.cell].featureSet in sets
  {
    if n == 0 {
    } else {
      InputIndexKeys(inputs, cells, sets, n - 1);
    }
  }

  /** Loading one more set adds exactly that set's lineage. */
  lemma {:induction false} InputIndexMerges(inputs: seq<Input>, cells: seq<Cell>, loaded: set<string>,
                                            featureSet: string, n: nat)
    requires n <= |inputs| && featureSet !in loaded
    ensures InputIndex(inputs, cells, loaded + {featureSet}, n)
         == InputIndex(inputs, cells, loaded, n) + InputIndex(inputs, cells, {featureSet}, n)
  {
    if n == 0 {
    } else {
      InputIndexMerges(inputs, cells, loaded, featureSet, n - 1);
      InputIndexKeys(inputs, cells, {featureSet}, n - 1);
    }
  }

  // ------------------------------------------------------------------
  // Consistency of the indexes
  // ------------------------------------------------------------------

  /** Each cached set's index is that of its rows, stored or staged; only cached sets have staged rows. */
  ghost predicate CellsIndexed(s: Store, caches: map<string, map<CellKey, nat>>) {
    && (forall id :: id in caches ==> caches[id] == CellIndex(s.cells, id, |s.cells|))
    && (forall i :: s.flushedCells <= i < |s.cells| ==> s.cells[i].featureSet in caches)
  }

  ghost predicate InputsIndexed(s: Store, keys: map<InputKey, nat>, loaded: set<string>) {
    && keys == InputIndex(s.inputs, s.cells, loaded, |s.inputs|)
    && (forall k :: 0 <= k < |s.inputs| ==> s.inputs[k].cell < |s.cells|)
    && (forall k :: s.flushedInputs <= k < |s.inputs| ==> InSets(s.cells, s.inputs[k], loaded))
  }

  function Registered(caches: map<string, map<CellKey, nat>>, c: Cell, id: nat): map<string, map<CellKey, nat>>
    requires c.featureSet in caches
  {
    var cache: map<CellKey, nat> := caches[c.featureSet][KeyOfCell(c) := id];
    caches[c.featureSet := cache]
  }

  lemma CellAppendIndexed(s: Store, caches: map<string, map<CellKey, nat>>, c: Cell, t: Store)
    requires CellsIndexed(s, caches) && c.featureSet in caches
    requires t.cells == s.cells + [c] && s.flushedCells <= t.flushedCells
    ensures CellsIndexed(t, Registered(caches, c, |s.cells|))
  {
    var after := Registered(caches, c, |s.cells|);
    forall id | id in after
      ensures after[id] == CellIndex(t.cells, id, |t.cells|)
    {
      CellIndexGrows(s.cells, [c], id, |s.cells|);
    }
  }

  lemma CellAppendKeepsInputs(s: Store, keys: map<InputKey, nat>, loaded: set<string>, c: Cell, t: Store)
    requires InputsIndexed(s, keys, loaded)
    requires t.cells == s.cells + [c] && t.inputs == s.inputs && s.flushedInputs <= t.flushedInputs
    ensures InputsIndexed(t, keys, loaded)
  {
    InputIndexGrows(s.inputs, [], s.cells, t.cells, loaded, |s.inputs|);
    assert s.inputs + [] == s.inputs;
  }

  lemma InputAppendIndexed(s: Store, keys: map<InputKey, nat>, loaded: set<string>, i: Input, at: int, t: Store)
    requires InputsIndexed(s, keys, loaded) && InSets(s.cells, i, loaded)
    requires t.cells == s.cells[i.cell := Lifted(s.cells[i.cell], at)] && t.inputs == s.inputs + [i]
    requires s.flushedInputs <= t.flushedInputs
    ensures InputsIndexed(t, keys[KeyOfInput(i) := |s.inputs|], loaded)
  {
    InputIndexGrows(s.inputs, [i], s.cells, t.cells, loaded, |s.inputs|);
  }

  lemma LiftKeepsCells(s: Store, caches: map<string, map<CellKey, nat>>, k: nat, at: int, t: Store)
    requires CellsIndexed(s, caches) && k < |s.cells|
    requires t.cells == s.cells[k := Lifted(s.cells[k], at)] && s.flushedCells <= t.flushedCells
    ensures CellsIndexed(t, caches)
  {
    forall id | id in caches
      ensures caches[id] == CellIndex(t.cells, id, |t.cells|)
    {
      CellIndexLifted(s.cells, k, at, id, |s.cells|);
    }
  }

  /** Every call but the two that add rows leaves both indexes right as they are. */
  lemma {:induction false} OtherCallsKeepIndexes(s: Store, c: Call, caches: map<string, map<CellKey, nat>>,
                                                 keys: map<InputKey, nat>, loaded: set<string>)
    requires CellsIndexed(s, caches) && InputsIndexed(s, keys, loaded) && !c.CallCell? && !c.CallInput?
    ensures CellsIndexed(Step(s, c), caches) && InputsIndexed(Step(s, c), keys, loaded)
  {
    var t := Step(s, c);
    PointInTime.StepEffect(s, c, t);
    PointInTime.FeatureFrame(s, c, t);
    SameRowsSameIndexes(s, t, caches, keys, loaded);
  }

  lemma SameRowsSameIndexes(s: Store, t: Store, caches: map<string, map<CellKey, nat>>, keys: map<InputKey, nat>,
                            loaded: set<string>)
    requires CellsIndexed(s, caches) && InputsIndexed(s, keys, loaded)
    requires t.cells == s.cells && t.inputs == s.inputs && PointInTime.MarksAdvance(s, t)
    ensures CellsIndexed(t, caches) && InputsIndexed(t, keys, loaded)
  {}

  // ------------------------------------------------------------------
  // The repository object
  // ------------------------------------------------------------------

  class Repository {
    var db: Store
    var valueCaches: map<string, map<CellKey, nat>>
    var inputKeys: map<InputKey, nat>
    var inputsLoaded: set<string>

    ghost predicate Valid()
      reads this
    {
      CellsIndexed(db, valueCaches) && InputsIndexed(db, inputKeys, inputsLoaded)
    }

    /** A new session over a database: nothing staged, nothing cached. */
    constructor (stored: Store)
      requires stored.flushedCells == |stored.cells| && stored.flushedInputs == |stored.inputs|
      requires forall k :: 0 <= k < |stored.inputs| ==> stored.inputs[k].cell < |stored.cells|
      ensures Valid() && db == stored && valueCaches == map[] && inputsLoaded == {}
    {
      db, valueCaches, inputKeys, inputsLoaded := stored, map[], map[], {};
      new;
      InputIndexSkips(stored.inputs, stored.cells, {}, 0, |stored.inputs|);
    }

    /** One set's index, loaded from the stored rows the first time it is asked for. */
    method ValueCache(featureSet: string) returns (cache: map<CellKey, nat>)
      requires Valid()
      modifies this`valueCaches
      ensures Valid() && featureSet in valueCaches && valueCaches[featureSet] == cache
      ensures forall key :: Lookup(cache, key) == FindCell(db.cells, featureSet, key)
    {
      if featureSet in valueCaches {
        cache := valueCaches[featureSet];
      } else {
        cache := map[];
        var i := 0;
        while i < db.flushedCells
          invariant i <= db.flushedCells
          invariant cache == CellIndex(db.cells, featureSet, i)
        {
          var c := db.cells[i];
          if c.featureSet == featureSet {
            cache := cache[KeyOfCell(c) := i];
          }
          i := i + 1;
        }
        CellIndexSkips(db.cells, featureSet, db.flushedCells, |db.cells|);
        valueCaches := valueCaches[featureSet := cache];
      }
      CacheAnswers(featureSet, cache);
    }

    lemma CacheAnswers(featureSet: string, cache: map<CellKey, nat>)
      requires cache == CellIndex(db.cells, featureSet, |db.cells|)
      ensures forall key :: Lookup(cache, key) == FindCell(db.cells, featureSet, key)
    {
      forall key
        ensures Lookup(cache, key) == FindCell(db.cells, featureSet, key)
      {
        CellIndexFinds(db.cells, featureSet, key, |db.cells|);
        assert db.cells[..|db.cells|] == db.cells;
      }
    }

    method AddFeatureValue(a: CellArgs, flush: bool) returns (r: Result<nat>)
      requires Valid()
      modifies this
      ensures Valid() && (db, r) == FeatureStore.AddFeatureValue(old(db), a, flush)
    {
      if CellError(db, a).Some? { return Err(CellError(db, a).value); }
      var cache := ValueCache(a.featureSet);
      var c := NewCell(a);
      var key := KeyOfCell(c);
      assert Lookup(cache, key) == FindCell(db.cells, a.featureSet, key);
      if key in cache {
        var stored := db.cells[cache[key]];
        if (stored.value, stored.missing, stored.quality) != (a.value, a.missing, a.quality) {
          return Err("feature value is immutable within a feature set");
        }
        return Ok(cache[key]);
      }
      r := Ok(|db.cells|);
      StoreCell(c, flush);
    }

    method StoreCell(c: Cell, flush: bool)
      requires Valid() && c.featureSet in valueCaches
      modifies this`db, this`valueCaches
      ensures Valid() && db == AppendCell(old(db), c, flush)
    {
      ghost var before := db;
      valueCaches := Registered(valueCaches, c, |db.cells|);
      db := db.(cells := db.cells + [c]);
      if flush { db := Flush(db); }
      CellAppendIndexed(before, old(valueCaches), c, db);
      CellAppendKeepsInputs(before, inputKeys, inputsLoaded, c, db);
    }

    /** The lineage keys of one set, read from the stored rows the first time they are needed. */
    method LoadInputs(featureSet: string)
      requires Valid()
      modifies this`inputKeys, this`inputsLoaded
      ensures Valid() && inputsLoaded == old(inputsLoaded) + {featureSet}
    {
      if featureSet !in inputsLoaded {
        ghost var known := inputKeys;
        var k := 0;
        while k < db.flushedInputs
          invariant k <= db.flushedInputs && inputsLoaded == old(inputsLoaded)
          invariant inputKeys == known + InputIndex(db.inputs, db.cells, {featureSet}, k)
        {
          var i := db.inputs[k];
          IndexStep(known, db.inputs, db.cells, {featureSet}, k);
          if InSets(db.cells, i, {featureSet}) {
            inputKeys := inputKeys[KeyOfInput(i) := k];
          }
          k := k + 1;
        }
        LoadedAll(db, known, inputsLoaded, featureSet);
        inputsLoaded := inputsLoaded + {featureSet};
      }
    }

    method AddFeatureInput(a: InputArgs, flush: bool) returns (r: Result<nat>)
      requires Valid()
      modifies this
      ensures Valid() && (db, r) == FeatureStore.AddFeatureInput(old(db), a, flush)
    {
      if InputError(db, a).Some? { return Err(InputError(db, a).value); }
      var featureSet := db.cells[a.cell].featureSet;
      LoadInputs(featureSet);
      var key := InputKey(a.cell, a.inputRole, a.table, a.row);
      InputIndexFinds(db.inputs, db.cells, inputsLoaded, key, |db.inputs|);
      assert db.inputs[..|db.inputs|] == db.inputs;
      if key in inputKeys { return Ok(inputKeys[key]); }
      r := Ok(|db.inputs|);
      StoreInput(a, flush);
    }

    /** Append a lineage row and raise its cell's availability to the row's, if that is later. */
    method StoreInput(a: InputArgs, flush: bool)
      requires Valid() && a.row < |db.rows| && a.cell < |db.cells| && db.cells[a.cell].featureSet in inputsLoaded
      modifies this`db, this`inputKeys
      ensures Valid() && db == AppendInput(old(db), a, flush)
    {
      var i := NewInput(db.rows, a);
      var c := Raised(db.cells[a.cell], i.available);
      var after: Store := db.(cells := db.cells[a.cell := c], inputs := db.inputs + [i]);
      if flush { after := Flush(after); }
      assert after == AppendInput(db, a, flush);
      InputStored(db, inputKeys, inputsLoaded, valueCaches, a, flush, after);
      db, inputKeys := after, inputKeys[KeyOfInput(i) := |db.inputs|];
    }

    method FlushPending()
      requires Valid()
      modifies this`db
      ensures Valid() && db == Flush(old(db))
    {
      db := Flush(db);
    }

    /** The stored values of one set, and how many are missing. */
    method CountValues(featureSet: string) returns (count: nat, missing: nat)
      ensures count == CountCells(db.cells, featureSet, db.flushedCells)
      ensures missing == CountMissing(db.cells, featureSet, db.flushedCells)
    {
      count, missing := 0, 0;
      var i := 0;
      while i < db.flushedCells
        invariant i <= db.flushedCells
        invariant count == CountCells(db.cells, featureSet, i) && missing == CountMissing(db.cells, featureSet, i)
      {
        if db.cells[i].featureSet == featureSet {
          count := count + 1;
          if db.cells[i].missing { missing := missing + 1; }
        }
        i := i + 1;
      }
    }

    /** The three maxima over the stored lineage of one set. */
    method LatestInstants(featureSet: string)
      returns (available: Option<int>, observed: Option<int>, retrieved: Option<int>)
      ensures available == LatestStored(db, featureSet, AvailableAt)
      ensures observed == LatestStored(db, featureSet, ObservedAt)
      ensures retrieved == LatestStored(db, featureSet, RetrievedAt)
    {
      available, observed, retrieved := None, None, None;
      var k := 0;
      while k < db.flushedInputs
        invariant k <= db.flushedInputs
        invariant available == Latest(db.cells, db.inputs, featureSet, AvailableAt, k)
        invariant observed == Latest(db.cells, db.inputs, featureSet, ObservedAt, k)
        invariant retrieved == Latest(db.cells, db.inputs, featureSet, RetrievedAt, k)
      {
        var i := db.inputs[k];
        if InSet(db.cells, i, featureSet) {
          available, observed := Lift(available, i.available), Lift(observed, i.observed);
          retrieved := Lift(retrieved, i.retrieved);
        }
        k := k + 1;
      }
    }

    method FinalizeFeatureSet(a: FinalArgs) returns (r: Result<string>)
      requires Valid()
      modifies this`db
      ensures Valid() && (db, r) == FeatureStore.FinalizeFeatureSet(old(db), a)
    {
      if a.status == Building { return Err("invalid terminal feature-set status"); }
      if a.featureSet !in db.sets { return Err("unknown feature set"); }
      var f := db.sets[a.featureSet];
      if f.status != Building {
        if f.status == a.status { return Ok(a.featureSet); }
        return Err("feature set is already terminal");
      }
      var count, missing := CountValues(a.featureSet);
      if count != f.required { return Err("persisted feature-value count does not match the frozen requirement"); }
      if a.status == Ready && a.manifest.None? { return Err("ready feature set requires an input manifest hash"); }
      var available, observed, retrieved := LatestInstants(a.featureSet);
      var late := LateLineage(f.cutoff, available, observed, retrieved, a.observedByCutoff);
      if late.Some? { return Err(late.value); }
      if a.now < f.createdAt { return Err("finalized_at cannot precede created_at"); }
      if After(observed, f.cutoff) { return Err("ck_feature_sets_observed_cutoff"); }
      if After(retrieved, f.cutoff) { return Err("ck_feature_sets_retrieved_cutoff"); }
      Freeze(a, count, missing, available, observed, retrieved);
      return Ok(a.featureSet);
    }

    /** The set's row takes its counts and instants, and the session is flushed. */
    method Freeze(a: FinalArgs, count: nat, missing: nat, available: Option<int>, observed: Option<int>,
                  retrieved: Option<int>)
      requires Valid() && a.featureSet in db.sets
      requires count == CountCells(db.cells, a.featureSet, db.flushedCells)
      requires missing == CountMissing(db.cells, a.featureSet, db.flushedCells)
      requires available == LatestStored(db, a.featureSet, AvailableAt)
      requires observed == LatestStored(db, a.featureSet, ObservedAt)
      requires retrieved == LatestStored(db, a.featureSet, RetrievedAt)
      modifies this`db
      ensures Valid() && db == Flush(old(db).(sets := old(db).sets[a.featureSet := Frozen(old(db), a)]))
    {
      var ratio := if count > 0 then missing as real / count as real else 0.0;
      var f := db.sets[a.featureSet].(
        status := a.status, missing := missing, missingRatio := ratio, maxAvailable := available,
        maxObserved := observed, maxRetrieved := retrieved, manifest := a.manifest, finalizedAt := Some(a.now));
      db := db.(sets := db.sets[a.featureSet := f]);
      db := Flush(db);
    }
  }

  /** The labelled checks in order: availability always, the other two when observation is claimed. */
  method LateLineage(cutoff: int, available: Option<int>, observed: Option<int>, retrieved: Option<int>,
                     observedByCutoff: bool)
    returns (late: Option<string>)
    ensures late.None? <==>
              && !After(available, cutoff)
              && (observedByCutoff ==> !After(observed, cutoff) && !After(retrieved, cutoff))
    ensures After(available, cutoff) ==> late == Some("feature-set available lineage exceeds its cutoff")
    ensures !After(available, cutoff) && observedByCutoff && After(observed, cutoff) ==>
              late == Some("feature-set first-observed lineage exceeds its cutoff")
    ensures !After(available, cutoff) && observedByCutoff && !After(observed, cutoff) && After(retrieved, cutoff) ==>
              late == Some("feature-set retrieved lineage exceeds its cutoff")
  {
    var checks := [("feature-set available lineage exceeds its cutoff", available)];
    if observedByCutoff {
      checks := checks + [("feature-set first-observed lineage exceeds its cutoff", observed),
                          ("feature-set retrieved lineage exceeds its cutoff", retrieved)];
    }
    assert checks[0].1 == available && |checks| == if observedByCutoff then 3 else 1;
    assert observedByCutoff ==> checks[1].1 == observed && checks[2].1 == retrieved;
    var i := 0;
    while i < |checks|
      invariant i <= |checks|
      invariant forall j :: 0 <= j < i ==> !After(checks[j].1, cutoff)
    {
      if After(checks[i].1, cutoff) { return Some(checks[i].0); }
      i := i + 1;
    }
    return None;
  }

  method Raised(c: Cell, at: int) returns (d: Cell)
    ensures d == Lifted(c, at)
  {
    d := c;
    if c.available.None? || at > c.available.value {
      d := c.(available := Some(at));
    }
  }

  lemma InputStored(s: Store, keys: map<InputKey, nat>, loaded: set<string>, caches: map<string, map<CellKey, nat>>,
                    a: InputArgs, flush: bool, t: Store)
    requires CellsIndexed(s, caches) && InputsIndexed(s, keys, loaded)
    requires a.row < |s.rows| && a.cell < |s.cells| && s.cells[a.cell].featureSet in loaded
    requires t == AppendInput(s, a, flush)
    ensures CellsIndexed(t, caches) && InputsIndexed(t, keys[KeyOfInput(NewInput(s.rows, a)) := |s.inputs|], loaded)
  {
    InputAppendIndexed(s, keys, loaded, NewInput(s.rows, a), s.rows[a.row].bar.available, t);
    LiftKeepsCells(s, caches, a.cell, s.rows[a.row].bar.available, t);
  }

  lemma IndexStep(known: map<InputKey, nat>, inputs: seq<Input>, cells: seq<Cell>, sets: set<string>, k: nat)
    requires k < |inputs|
    ensures InSets(cells, inputs[k], sets) ==>
      known + InputIndex(inputs, cells, sets, k + 1)
      == (known + InputIndex(inputs, cells, sets, k))[KeyOfInput(inputs[k]) := k]
    ensures !InSets(cells, inputs[k], sets) ==>
      known + InputIndex(inputs, cells, sets, k + 1) == known + InputIndex(inputs, cells, sets, k)
  {}

  lemma LoadedAll(s: Store, keys: map<InputKey, nat>, loaded: set<string>, featureSet: string)
    requires InputsIndexed(s, keys, loaded) && featureSet !in loaded
    ensures InputsIndexed(s, keys + InputIndex(s.inputs, s.cells, {featureSet}, s.flushedInputs), loaded + {featureSet})
  {
    InputIndexSkips(s.inputs, s.cells, {featureSet}, s.flushedInputs, |s.inputs|);
    InputIndexMerges(s.inputs, s.cells, loaded, featureSet, |s.inputs|);
  }
}
