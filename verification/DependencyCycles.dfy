/** Derived indicators may depend on other indicators (data/config.py).  The catalog check builds
    the dependency map and rejects it when it has a cycle, by a depth-first search over two
    mutable sets. */
module DependencyCycles {
  import opened Wrappers

  type Dependencies = map<string, set<string>>

  /** Every dependency is itself a key: what the map builder guarantees to the search. */
  ghost predicate Closed(d: Dependencies) {
    forall id, x :: id in d && x in d[id] ==> x in d
  }

  /** `p` follows dependency edges. */
  ghost predicate Chain(d: Dependencies, p: seq<string>) {
    && (forall i :: 0 <= i < |p| ==> p[i] in d)
    && (forall i, j :: 0 <= i && j == i + 1 < |p| ==> p[j] in d[p[i]])
  }

  ghost predicate IsCycle(d: Dependencies, p: seq<string>) {
    |p| >= 2 && Chain(d, p) && p[0] == p[|p| - 1]
  }

  ghost predicate HasCycle(d: Dependencies) {
    exists p :: IsCycle(d, p)
  }

  /** `order` lists distinct keys, each after everything it depends on. */
  ghost predicate DependenciesFirst(d: Dependencies, order: seq<string>) {
    && (forall i :: 0 <= i < |order| ==> order[i] in d)
    && (forall i, j :: 0 <= i < j < |order| ==> order[i] != order[j])
    && (forall i, x :: 0 <= i < |order| && x in d[order[i]] ==> x in order[..i])
  }

  ghost function Elements(s: seq<string>): set<string> {
    set x | x in s
  }

  /** Along a chain the place in such an order strictly falls. */
  lemma {:induction false} PlacesFall(d: Dependencies, order: seq<string>, p: seq<string>, i: nat)
    requires DependenciesFirst(d, order) && Chain(d, p) && p != [] && i < |order| && order[i] == p[0]
    ensures exists j :: 0 <= j <= i && order[j] == p[|p| - 1] && (|p| > 1 ==> j < i)
  {
    if |p| == 1 {
      assert order[i] == p[|p| - 1];
    } else {
      assert p[1] in d[p[0]];
      var k :| 0 <= k < i && order[k] == p[1];
      var tail := p[1..];
      assert forall t :: 0 <= t < |tail| ==> tail[t] == p[t + 1];
      assert Chain(d, tail) by {
        forall t, u | 0 <= t && u == t + 1 < |tail|
          ensures tail[u] in d[tail[t]]
        {
          assert p[u + 1] in d[p[t + 1]];
        }
      }
      PlacesFall(d, order, tail, k);
      var j :| 0 <= j <= k && order[j] == tail[|tail| - 1];
      assert order[j] == p[|p| - 1];
    }
  }

  /** A map whose keys can all be listed dependencies-first has no cycle. */
  lemma OrderedHasNoCycle(d: Dependencies, order: seq<string>)
    requires DependenciesFirst(d, order) && Elements(order) == d.Keys
    ensures !HasCycle(d)
  {
    forall p | IsCycle(d, p)
      ensures false
    {
      assert p[0] in Elements(order);
      var i :| 0 <= i < |order| && order[i] == p[0];
      PlacesFall(d, order, p, i);
    }
  }

  /** An edge back into the chain being visited closes a cycle. */
  lemma BackEdge(d: Dependencies, path: seq<string>, id: string)
    requires id in d && Chain(d, path) && id in path && path != []
    requires id in d[path[|path| - 1]]
    ensures HasCycle(d)
  {
    var k :| 0 <= k < |path| && path[k] == id;
    var p := path[k..] + [id];
    forall i, j | 0 <= i && j == i + 1 < |p|
      ensures p[j] in d[p[i]]
    {
      if j < |p| - 1 {
        assert path[k + j] in d[path[k + i]];
      }
    }
    assert IsCycle(d, p);
  }

  /** The search state of `_reject_dependency_cycles`. */
  class CycleSearch {
    const dependencies: Dependencies
    var visiting: set<string>
    var visited: set<string>
    /** The order in which nodes entered `visited`. */
    ghost var finished: seq<string>

    constructor (d: Dependencies)
      ensures dependencies == d && visiting == {} && visited == {} && finished == []
    {
      dependencies := d;
      visiting, visited, finished := {}, {}, [];
    }

    /** `path` is the chain of nodes being visited. */
    ghost predicate Valid(path: seq<string>)
      reads this
    {
      && Closed(dependencies)
      && Chain(dependencies, path) && visiting == Elements(path)
      && DependenciesFirst(dependencies, finished) && visited == Elements(finished)
      && visiting !! visited
    }

    /** `visit`: false where the source raises. */
    method Visit(id: string, ghost path: seq<string>) returns (ok: bool)
      requires Valid(path) && id in dependencies
      requires path != [] ==> id in dependencies[path[|path| - 1]]
      modifies this
      ensures !ok ==> HasCycle(dependencies)
      ensures ok ==> Valid(path) && id in visited
      ensures ok ==> visiting == old(visiting) && old(finished) <= finished
      decreases dependencies.Keys - visiting - visited
    {
      if id in visiting {
        BackEdge(dependencies, path, id);
        return false;
      }
      if id in visited {
        return true;
      }
      visiting := visiting + {id};
      ghost var longer := path + [id];
      assert Chain(dependencies, longer);
      var remaining := dependencies[id];
      while remaining != {}
        invariant Valid(longer) && visiting == old(visiting) + {id} && old(finished) <= finished
        invariant remaining <= dependencies[id] <= visited + remaining
        decreases remaining
      {
        var dependency :| dependency in remaining;
        assert old(visited) <= visited by { PrefixElements(old(finished), finished); }
        assert id in dependencies.Keys - old(visiting) - old(visited);
        ok := Visit(dependency, longer);
        if !ok { return false; }
        remaining := remaining - {dependency};
      }
      visiting := visiting - {id};
      visited := visited + {id};
      FinishNode(dependencies, finished, id);
      finished := finished + [id];
      assert visiting == Elements(path);
      return true;
    }
  }

  lemma PrefixElements(s: seq<string>, t: seq<string>)
    requires s <= t
    ensures Elements(s) <= Elements(t)
  {}

  lemma FinishNode(d: Dependencies, finished: seq<string>, id: string)
    requires DependenciesFirst(d, finished) && id in d && id !in finished
    requires d[id] <= Elements(finished)
    ensures DependenciesFirst(d, finished + [id])
    ensures Elements(finished + [id]) == Elements(finished) + {id}
  {
    var more := finished + [id];
    forall i, x | 0 <= i < |more| && x in d[more[i]]
      ensures x in more[..i]
    {
      if i < |finished| {
        assert more[..i] == finished[..i];
      } else {
        assert more[..i] == finished;
        assert x in Elements(finished);
      }
    }
  }

  /** Rejects exactly the maps with a cycle; an accepted map comes with an order of all its
      nodes in which every dependency precedes its dependents. */
  method RejectDependencyCycles(d: Dependencies) returns (ok: bool, ghost order: seq<string>)
    requires Closed(d)
    ensures ok <==> !HasCycle(d)
    ensures ok ==> DependenciesFirst(d, order) && Elements(order) == d.Keys
  {
    var search := new CycleSearch(d);
    order := [];
    var remaining := d.Keys;
    while remaining != {}
      invariant search.dependencies == d && fresh(search) && search.Valid([])
      invariant remaining <= d.Keys <= search.visited + remaining
      decreases remaining
    {
      var id :| id in remaining;
      ok := search.Visit(id, []);
      if !ok { return false, []; }
      remaining := remaining - {id};
    }
    order := search.finished;
    OrderedHasNoCycle(d, order);
    return true, order;
  }

  // -------- the map that is searched --------

  datatype Source = Source(inputs: set<string>)
  datatype Indicator = Indicator(id: string, sources: seq<Source>)

  ghost predicate DistinctIds(indicators: seq<Indicator>) {
    forall i, j :: 0 <= i < j < |indicators| ==> indicators[i].id != indicators[j].id
  }

  ghost function Ids(indicators: seq<Indicator>): set<string> {
    set i | 0 <= i < |indicators| :: indicators[i].id
  }

  /** Everything the first `n` sources read. */
  function InputsOf(sources: seq<Source>, n: nat): set<string>
    requires n <= |sources|
  {
    if n == 0 then {} else InputsOf(sources, n - 1) + sources[n - 1].inputs
  }

  /** Known inputs only, and none that is the indicator itself. */
  ghost predicate InputsAllowed(known: set<string>, indicator: Indicator, n: nat)
    requires n <= |indicator.sources|
  {
    InputsOf(indicator.sources, n) <= known - {indicator.id}
  }

  ghost predicate IsDependencyMap(indicators: seq<Indicator>, d: Dependencies) {
    && d.Keys == Ids(indicators)
    && forall i :: 0 <= i < |indicators| ==>
         indicators[i].id in d && d[indicators[i].id] == InputsOf(indicators[i].sources, |indicators[i].sources|)
  }

  /** One indicator's sources: its inputs are added to its own entry, or one of them is unknown
      or the indicator itself. */
  method AddInputs(known: set<string>, indicator: Indicator, before: Dependencies) returns (r: Result<Dependencies>)
    requires indicator.id in before && before[indicator.id] == {}
    ensures r.Ok? <==> InputsAllowed(known, indicator, |indicator.sources|)
    ensures r.Ok? ==> r.value == before[indicator.id := InputsOf(indicator.sources, |indicator.sources|)]
  {
    var d := before;
    for k := 0 to |indicator.sources|
      invariant InputsAllowed(known, indicator, k)
      invariant d == before[indicator.id := InputsOf(indicator.sources, k)]
    {
      var inputs := indicator.sources[k].inputs;
      if !(inputs <= known) || indicator.id in inputs {
        SomeInputRefused(known, indicator, k);
        return Err(if !(inputs <= known) then "unknown derived inputs" else "indicator cannot depend on itself");
      }
      d := d[indicator.id := d[indicator.id] + inputs];
    }
    return Ok(d);
  }

  lemma {:induction false} InputsGrow(sources: seq<Source>, m: nat, n: nat)
    requires m <= n <= |sources|
    ensures InputsOf(sources, m) <= InputsOf(sources, n)
  {
    if m == n {
    } else {
      InputsGrow(sources, m, n - 1);
    }
  }

  lemma SomeInputRefused(known: set<string>, indicator: Indicator, k: nat)
    requires k < |indicator.sources|
    requires !(indicator.sources[k].inputs <= known) || indicator.id in indicator.sources[k].inputs
    ensures !InputsAllowed(known, indicator, |indicator.sources|)
  {
    InputsGrow(indicator.sources, k + 1, |indicator.sources|);
    var x :| x in indicator.sources[k].inputs && (x !in known || x == indicator.id);
    assert x in InputsOf(indicator.sources, k + 1);
  }

  ghost predicate AllInputsAllowed(indicators: seq<Indicator>) {
    forall i :: 0 <= i < |indicators| ==> InputsAllowed(Ids(indicators), indicators[i], |indicators[i].sources|)
  }

  /** The first `n` indicators have their inputs in the map, the others have none yet. */
  ghost predicate Built(indicators: seq<Indicator>, d: Dependencies, n: nat) {
    && d.Keys == Ids(indicators)
    && (forall i :: 0 <= i < |indicators| ==> indicators[i].id in d)
    && (forall i :: 0 <= i < |indicators| ==>
          d[indicators[i].id] == if i < n then InputsOf(indicators[i].sources, |indicators[i].sources|) else {})
  }

  lemma BuiltStep(indicators: seq<Indicator>, d: Dependencies, n: nat)
    requires DistinctIds(indicators) && n < |indicators| && Built(indicators, d, n)
    ensures var i := indicators[n]; Built(indicators, d[i.id := InputsOf(i.sources, |i.sources|)], n + 1)
  {}

  ghost predicate AllowedSoFar(known: set<string>, indicators: seq<Indicator>, n: nat)
    requires n <= |indicators|
  {
    forall i :: 0 <= i < n ==> InputsAllowed(known, indicators[i], |indicators[i].sources|)
  }

  /** The loop over indicators and sources that builds the map. */
  method BuildDependencies(indicators: seq<Indicator>) returns (r: Result<Dependencies>)
    requires DistinctIds(indicators)
    ensures r.Ok? <==> AllInputsAllowed(indicators)
    ensures r.Ok? ==> IsDependencyMap(indicators, r.value)
  {
    var known := set i | 0 <= i < |indicators| :: indicators[i].id;
    var d: Dependencies := map id | id in known :: {};
    for n := 0 to |indicators|
      invariant Built(indicators, d, n) && AllowedSoFar(known, indicators, n)
    {
      BuiltStep(indicators, d, n);
      var added := AddInputs(known, indicators[n], d);
      if added.Err? { return added; }
      d := added.value;
    }
    return Ok(d);
  }

  /** The catalog's dependency check: it passes exactly when every input is a known other
      indicator and no indicator depends on itself through others. */
  method ValidateDependencies(indicators: seq<Indicator>) returns (r: Result<Dependencies>)
    ensures r.Ok? <==>
              && DistinctIds(indicators) && AllInputsAllowed(indicators)
              && exists d :: IsDependencyMap(indicators, d) && !HasCycle(d)
    ensures r.Ok? ==> IsDependencyMap(indicators, r.value) && !HasCycle(r.value)
  {
    if exists i, j :: 0 <= i < j < |indicators| && indicators[i].id == indicators[j].id {
      return Err("duplicate indicator ids");
    }
    r := BuildDependencies(indicators);
    if r.Ok? {
      BuiltMapClosed(indicators, r.value);
      var ok, _ := RejectDependencyCycles(r.value);
      if !ok {
        DependencyMapUnique(indicators, r.value);
        return Err("cyclic indicator dependency");
      }
    }
  }

  lemma BuiltMapClosed(indicators: seq<Indicator>, d: Dependencies)
    requires IsDependencyMap(indicators, d)
    requires forall i :: 0 <= i < |indicators| ==>
              InputsAllowed(Ids(indicators), indicators[i], |indicators[i].sources|)
    ensures Closed(d)
  {}

  lemma DependencyMapUnique(indicators: seq<Indicator>, d: Dependencies)
    requires IsDependencyMap(indicators, d)
    ensures forall e :: IsDependencyMap(indicators, e) ==> e == d
  {}
}
