/** The stack planner: Kahn's sort over dependency edges, and the dependency closure of requested targets. */
module Planner {
  import opened Common

  datatype Service = Service(deps: seq<string>)

  type Services = map<string, Service>

  datatype PlanError =
    | UnknownStack(stack: string)
    | UnknownService(service: string)
    | UnknownDependency(dependent: string, dependency: string)
    | CircularDependency

  datatype StackPlan = StackPlan(name: string, services: Services, order: seq<string>)

  // ---- What the planner is for ----

  /** The name at `i` is a service that depends on the next name. */
  ghost predicate Edge(services: Services, p: seq<string>, i: nat)
    requires i + 1 < |p|
  {
    p[i] in services && p[i + 1] in services[p[i]].deps
  }

  /** Each name depends on the next one. */
  ghost predicate IsWalk(services: Services, p: seq<string>) {
    && (forall i :: 0 <= i < |p| ==> p[i] in services)
    && (forall i {:trigger Edge(services, p, i)} :: 0 <= i < |p| - 1 ==> Edge(services, p, i))
  }

  ghost predicate IsCycle(services: Services, p: seq<string>) {
    |p| > 0 && IsWalk(services, p) && p[0] in services[p[|p| - 1]].deps
  }

  ghost predicate Acyclic(services: Services) {
    forall p :: !IsCycle(services, p)
  }

  /** Every dependency on a listed service comes strictly earlier. */
  ghost predicate DepsFirst(services: Services, order: seq<string>)
    requires Elems(order) <= services.Keys
  {
    forall i, d :: 0 <= i < |order| && order[i] in services && d in services[order[i]].deps && d in services
                   ==> d in order[..i]
  }

  ghost predicate IsTopoOrder(services: Services, order: seq<string>) {
    Enumerates(order, services.Keys) && DepsFirst(services, order)
  }

  /** A service whose dependencies are all listed may come next. */
  lemma {:induction false} DepsFirstSnoc(services: Services, order: seq<string>, x: string)
    requires Elems(order) <= services.Keys && DepsFirst(services, order)
    requires x in services && forall d :: d in services[x].deps && d in services ==> d in order
    ensures Elems(order + [x]) <= services.Keys && DepsFirst(services, order + [x])
  {
    var all := order + [x];
    forall i, d | 0 <= i < |all| && all[i] in services && d in services[all[i]].deps && d in services
      ensures d in all[..i]
    {
      if i < |order| {
        assert all[..i] == order[..i];
      } else {
        assert all[..i] == order;
      }
    }
  }

  // ---- Walks ----

  lemma {:induction false} WalkSuffix(services: Services, p: seq<string>, k: nat)
    requires IsWalk(services, p) && k < |p|
    ensures IsWalk(services, p[k..]) && p[k..][0] == p[k] && p[k..][|p| - k - 1] == p[|p| - 1]
  {
    var q := p[k..];
    forall i | 0 <= i < |q| - 1
      ensures Edge(services, q, i)
    {
      assert Edge(services, p, k + i);
    }
  }

  lemma {:induction false} WalkSnoc(services: Services, p: seq<string>, d: string)
    requires IsWalk(services, p) && p != [] && d in services && d in services[p[|p| - 1]].deps
    ensures IsWalk(services, p + [d])
  {
    var q := p + [d];
    forall i | 0 <= i < |q| - 1
      ensures Edge(services, q, i)
    {
      assert i < |p| - 1 ==> Edge(services, p, i);
    }
  }

  // ---- Cycles and orders exclude each other ----

  /** Along a walk the position in a dependency-first order falls. */
  lemma {:induction false} WalkDescends(services: Services, order: seq<string>, p: seq<string>, i: nat) returns (j: nat)
    requires IsTopoOrder(services, order) && IsWalk(services, p) && |p| > 0
    requires i < |order| && order[i] == p[0]
    ensures j <= i && order[j] == p[|p| - 1]
  {
    if |p| == 1 {
      j := i;
    } else {
      assert Edge(services, p, 0);
      assert p[1] in order[..i];
      var k :| 0 <= k < i && order[k] == p[1];
      WalkSuffix(services, p, 1);
      j := WalkDescends(services, order, p[1..], k);
    }
  }

  lemma {:induction false} OrderedIsAcyclic(services: Services, order: seq<string>)
    requires IsTopoOrder(services, order)
    ensures Acyclic(services)
  {
    forall p
      ensures !IsCycle(services, p)
    {
      if IsCycle(services, p) {
        assert p[0] in Elems(order);
        var i :| 0 <= i < |order| && order[i] == p[0];
        var j := WalkDescends(services, order, p, i);
        assert false;
      }
    }
  }

  ghost predicate DependsInto(services: Services, v: string, names: set<string>) {
    v in services && exists d :: d in services[v].deps && d in names
  }

  /** A set in which every member depends on a member holds a cycle: a walk inside it must revisit a name. */
  lemma {:induction false} StuckSetHasCycle(services: Services, stuck: set<string>, walk: seq<string>) returns (p: seq<string>)
    requires stuck <= services.Keys
    requires forall v {:trigger DependsInto(services, v, stuck)} :: v in stuck ==> DependsInto(services, v, stuck)
    requires |walk| > 0 && IsWalk(services, walk) && Elems(walk) <= stuck
    ensures IsCycle(services, p)
    decreases stuck - Elems(walk)
  {
    var last := walk[|walk| - 1];
    assert last in Elems(walk);
    assert DependsInto(services, last, stuck);
    var d :| d in services[last].deps && d in stuck;
    if d in walk {
      var k :| 0 <= k < |walk| && walk[k] == d;
      WalkSuffix(services, walk, k);
      p := walk[k..];
    } else {
      ElemsAppend(walk, d);
      WalkSnoc(services, walk, d);
      p := StuckSetHasCycle(services, stuck, walk + [d]);
    }
  }

  // ---- Kahn's algorithm ----

  /** Dependencies of `v` on services outside `done`, repeated ones counted each time. */
  ghost function Waiting(services: Services, v: string, done: set<string>): nat
    requires v in services
  {
    Count(services[v].deps, services.Keys - done)
  }

  /** `graph[u]` lists `v` as often as `v` lists `u` as a dependency. */
  ghost predicate MirrorsDeps(services: Services, graph: map<string, seq<string>>) {
    && graph.Keys == services.Keys
    && (forall u, v {:trigger graph[u], services[v]} :: u in services && v in services ==>
            Occurrences(graph[u], v) == Occurrences(services[v].deps, u))
    && (forall u, k {:trigger graph[u][k]} :: u in services && 0 <= k < |graph[u]| ==> graph[u][k] in services)
  }

  /** The bookkeeping after the dependencies in `seen` have been recorded. */
  ghost predicate Recorded(services: Services, seen: map<string, seq<string>>,
                           inDegree: map<string, nat>, graph: map<string, seq<string>>) {
    && seen.Keys == services.Keys && inDegree.Keys == services.Keys && graph.Keys == services.Keys
    && (forall u, v {:trigger graph[u], seen[v]} :: u in services && v in services ==>
            Occurrences(graph[u], v) == Occurrences(seen[v], u))
    && (forall u, k {:trigger graph[u][k]} :: u in services && 0 <= k < |graph[u]| ==> graph[u][k] in services)
    && (forall v {:trigger inDegree[v]} :: v in services ==> inDegree[v] == Count(seen[v], services.Keys))
  }

  method RecordEdge(services: Services, ghost seen: map<string, seq<string>>, inDegree0: map<string, nat>,
                    graph0: map<string, seq<string>>, name: string, dep: string)
    returns (inDegree: map<string, nat>, graph: map<string, seq<string>>)
    requires Recorded(services, seen, inDegree0, graph0) && name in services
    ensures Recorded(services, seen[name := seen[name] + [dep]], inDegree, graph)
  {
    hide Occurrences;
    hide Count;
    inDegree, graph := inDegree0, graph0;
    CountAppend(seen[name], dep, services.Keys);
    forall u
      ensures Occurrences(seen[name] + [dep], u) == Occurrences(seen[name], u) + (if dep == u then 1 else 0)
    {
      OccurrencesAppend(seen[name], dep, u);
    }
    if dep in graph {
      forall v
        ensures Occurrences(graph[dep] + [name], v) == Occurrences(graph[dep], v) + (if name == v then 1 else 0)
      {
        OccurrencesAppend(graph[dep], name, v);
      }
    }
    if dep in graph {
      graph := graph[dep := graph[dep] + [name]];
      inDegree := inDegree[name := inDegree[name] + 1];
    }
  }

  lemma {:induction false} RecordedPrefix(seen: map<string, seq<string>>, name: string, deps: seq<string>, j: nat)
    requires name in seen && j <= |deps|
    ensures j < |deps| ==>
              seen[name := deps[..j]][name := seen[name := deps[..j]][name] + [deps[j]]] == seen[name := deps[..j + 1]]
    ensures seen[name] == [] ==> seen[name := deps[..0]] == seen
    ensures deps[..|deps|] == deps
  {
    if j < |deps| {
      assert deps[..j + 1] == deps[..j] + [deps[j]];
    }
  }

  method RecordService(services: Services, ghost seen: map<string, seq<string>>, inDegree0: map<string, nat>,
                       graph0: map<string, seq<string>>, name: string)
    returns (inDegree: map<string, nat>, graph: map<string, seq<string>>)
    requires Recorded(services, seen, inDegree0, graph0) && name in services && seen[name] == []
    ensures Recorded(services, seen[name := services[name].deps], inDegree, graph)
  {
    inDegree, graph := inDegree0, graph0;
    var deps := services[name].deps;
    RecordedPrefix(seen, name, deps, 0);
    for j := 0 to |deps|
      invariant Recorded(services, seen[name := deps[..j]], inDegree, graph)
    {
      RecordedPrefix(seen, name, deps, j);
      inDegree, graph := RecordEdge(services, seen[name := deps[..j]], inDegree, graph, name, deps[j]);
    }
  }

  /** The dependencies recorded once the services in `done` have been visited. */
  ghost function Visited(services: Services, done: set<string>): map<string, seq<string>> {
    map v | v in services :: if v in done then services[v].deps else []
  }

  method BuildGraph(services: Services, keys: seq<string>)
    returns (inDegree: map<string, nat>, graph: map<string, seq<string>>)
    requires Enumerates(keys, services.Keys)
    ensures MirrorsDeps(services, graph)
    ensures inDegree.Keys == services.Keys
    ensures forall v {:trigger inDegree[v]} :: v in services ==> inDegree[v] == Waiting(services, v, {})
  {
    hide Visited;
    hide Recorded;
    hide MirrorsDeps;
    hide Waiting;
    inDegree := map k | k in services :: 0;
    graph := map k | k in services :: [];
    NothingRecorded(services, inDegree, graph);
    TakeAll(keys);

    for i := 0 to |keys|
      invariant Recorded(services, Visited(services, Elems(keys[..i])), inDegree, graph)
    {
      VisitNext(services, keys, i);
      inDegree, graph := RecordService(services, Visited(services, Elems(keys[..i])), inDegree, graph, keys[i]);
    }
    AllRecorded(services, inDegree, graph);
  }

  lemma {:induction false} VisitNext(services: Services, keys: seq<string>, i: nat)
    requires Enumerates(keys, services.Keys) && i < |keys|
    ensures keys[i] in services
    ensures var seen := Visited(services, Elems(keys[..i]));
            && seen[keys[i]] == []
            && Visited(services, Elems(keys[..i + 1])) == seen[keys[i] := services[keys[i]].deps]
  {
    assert keys[i] in Elems(keys);
    TakeNext(keys, i);
    ElemsAppend(keys[..i], keys[i]);
    assert keys[i] !in Elems(keys[..i]);
  }

  lemma {:induction false} NothingRecorded(services: Services, inDegree: map<string, nat>, graph: map<string, seq<string>>)
    requires inDegree == (map k | k in services :: 0) && graph == (map k | k in services :: [])
    ensures Recorded(services, Visited(services, Elems<string>([])), inDegree, graph)
  {
  }

  lemma {:induction false} AllRecorded(services: Services, inDegree: map<string, nat>, graph: map<string, seq<string>>)
    requires Recorded(services, Visited(services, services.Keys), inDegree, graph)
    ensures MirrorsDeps(services, graph) && inDegree.Keys == services.Keys
    ensures forall v {:trigger inDegree[v]} :: v in services ==> inDegree[v] == Waiting(services, v, {})
  {
    hide Occurrences;
    hide Count;
    assert services.Keys - {} == services.Keys;
  }

  /** Degree zero means scheduled: finished or waiting in the queue. */
  ghost predicate Scheduled(services: Services, inDegree: map<string, nat>, scheduled: seq<string>) {
    && inDegree.Keys == services.Keys
    && NoDup(scheduled)
    && (forall v :: v in scheduled ==> v in services)
    && (forall v {:trigger inDegree[v]} :: v in services ==> (inDegree[v] == 0 <==> v in scheduled))
  }

  /** What holds between two pops: degrees count the unfinished dependencies, and zero means scheduled. */
  ghost predicate SortState(services: Services, inDegree: map<string, nat>, queue: seq<string>, result: seq<string>) {
    && Scheduled(services, inDegree, result + queue)
    && Elems(result) <= services.Keys
    && DepsFirst(services, result)
    && (forall v {:trigger inDegree[v]} :: v in services ==> inDegree[v] == Waiting(services, v, Elems(result)))
  }

  /** Lower one dependent's degree; it joins the queue when nothing it waits for is left. */
  method LowerDegree(services: Services, inDegree0: map<string, nat>, queue0: seq<string>, ghost finished: seq<string>,
                     dependent: string)
    returns (inDegree: map<string, nat>, queue: seq<string>)
    requires Scheduled(services, inDegree0, finished + queue0)
    requires dependent in services && inDegree0[dependent] > 0
    ensures inDegree == inDegree0[dependent := inDegree0[dependent] - 1]
    ensures Scheduled(services, inDegree, finished + queue)
  {
    inDegree, queue := inDegree0[dependent := inDegree0[dependent] - 1], queue0;
    if inDegree[dependent] == 0 {
      queue := queue + [dependent];
      assert finished + queue == (finished + queue0) + [dependent];
    }
  }

  /** Lower the degree of every dependent of a finished service. */
  method FinishService(services: Services, graph: map<string, seq<string>>, inDegree0: map<string, nat>,
                       service: string, queue0: seq<string>, ghost result: seq<string>)
    returns (inDegree: map<string, nat>, queue: seq<string>)
    requires MirrorsDeps(services, graph)
    requires SortState(services, inDegree0, [service] + queue0, result)
    ensures SortState(services, inDegree, queue, result + [service])
  {
    inDegree, queue := inDegree0, queue0;
    ghost var finished := result + [service];
    AppendAssoc(result, [service], queue0);
    FinishedCounts(services, graph, inDegree0, service, queue0, result);
    var dependents := graph[service];
    TakeAll(dependents);

    for j := 0 to |dependents|
      invariant Scheduled(services, inDegree, finished + queue)
      invariant StillOwed(services, inDegree0, inDegree, dependents[..j])
    {
      OweNext(services, inDegree0, inDegree, dependents, j);
      inDegree, queue := LowerDegree(services, inDegree, queue, finished, dependents[j]);
    }
  }

  /** The degrees already given up to the dependents in `lowered`. */
  ghost predicate StillOwed(services: Services, inDegree0: map<string, nat>, inDegree: map<string, nat>, lowered: seq<string>) {
    && inDegree.Keys == inDegree0.Keys == services.Keys
    && (forall v {:trigger inDegree[v]} :: v in services ==> inDegree[v] + Occurrences(lowered, v) == inDegree0[v])
  }

  lemma {:induction false} OweNext(services: Services, inDegree0: map<string, nat>, inDegree: map<string, nat>, dependents: seq<string>, j: nat)
    requires j < |dependents| && dependents[j] in services
    requires StillOwed(services, inDegree0, inDegree, dependents[..j])
    requires forall v {:trigger inDegree0[v]} :: v in services ==> Occurrences(dependents, v) <= inDegree0[v]
    ensures inDegree[dependents[j]] > 0
    ensures StillOwed(services, inDegree0, inDegree[dependents[j] := inDegree[dependents[j]] - 1], dependents[..j + 1])
  {
    hide Occurrences;
    forall v
      ensures Occurrences(dependents[..j + 1], v) == Occurrences(dependents[..j], v) + (if dependents[j] == v then 1 else 0)
      ensures Occurrences(dependents[..j + 1], v) <= Occurrences(dependents, v)
    {
      OccurrencesPrefix(dependents, j, v);
      OccurrencesPrefix(dependents, j + 1, v);
    }
  }

  /** Finishing a service with no pending dependency: who waits for one less, and the order stays dependency-first. */
  lemma {:induction false} FinishedCounts(services: Services, graph: map<string, seq<string>>, inDegree: map<string, nat>,
                       service: string, queue: seq<string>, result: seq<string>)
    requires MirrorsDeps(services, graph)
    requires SortState(services, inDegree, [service] + queue, result)
    ensures Elems(result + [service]) <= services.Keys
    ensures DepsFirst(services, result + [service])
    ensures forall v {:trigger inDegree[v]} :: v in services ==>
              inDegree[v] == Waiting(services, v, Elems(result + [service])) + Occurrences(graph[service], v)
  {
    var finished := result + [service];
    QueuedIsFresh(services, inDegree, service, queue, result);
    var rest := services.Keys - Elems(result);
    ElemsAppend(result, service);
    assert services.Keys - Elems(finished) == rest - {service};
    forall v | v in services
      ensures inDegree[v] == Waiting(services, v, Elems(finished)) + Occurrences(graph[service], v)
    {
      CountRemove(services[v].deps, rest, service);
    }
    CountPositive(services[service].deps, rest);
    forall d | d in services[service].deps && d in services
      ensures d in result
    {
      assert d in Elems(result);
    }
    DepsFirstSnoc(services, result, service);
  }

  /** The first names of the key order with degree zero, in that order. */
  ghost predicate ReadyAmong(inDegree: map<string, nat>, names: seq<string>, queue: seq<string>) {
    && Elems(names) <= inDegree.Keys
    && NoDup(queue)
    && Elems(queue) == set v | v in names && inDegree[v] == 0
  }

  lemma {:induction false} ReadyNext(inDegree: map<string, nat>, keys: seq<string>, i: nat, queue: seq<string>)
    requires Enumerates(keys, inDegree.Keys) && i < |keys|
    requires ReadyAmong(inDegree, keys[..i], queue)
    ensures keys[i] in inDegree
    ensures ReadyAmong(inDegree, keys[..i + 1], if inDegree[keys[i]] == 0 then queue + [keys[i]] else queue)
  {
    assert keys[i] in Elems(keys);
    TakeNext(keys, i);
    ElemsAppend(keys[..i], keys[i]);
    ElemsAppend(queue, keys[i]);
    assert keys[i] !in keys[..i];
    assert keys[i] !in Elems(queue);
  }

  lemma {:induction false} StartState(services: Services, keys: seq<string>, inDegree: map<string, nat>, queue: seq<string>)
    requires Enumerates(keys, services.Keys) && inDegree.Keys == services.Keys
    requires ReadyAmong(inDegree, keys, queue)
    requires forall v {:trigger inDegree[v]} :: v in services ==> inDegree[v] == Waiting(services, v, {})
    ensures SortState(services, inDegree, queue, [])
  {
    hide Waiting;
    assert [] + queue == queue;
    assert Elems<string>([]) == {};
    assert forall v :: v in queue <==> v in Elems(queue);
    assert forall v :: v in keys <==> v in Elems(keys);
  }

  /** Kahn's algorithm succeeds exactly on acyclic graphs and then yields a dependency-first order of all services. */
  method TopoSort(services: Services, keys: seq<string>) returns (r: Result<seq<string>, PlanError>)
    requires Enumerates(keys, services.Keys)
    ensures r.Success? <==> Acyclic(services)
    ensures r.Success? ==> IsTopoOrder(services, r.value)
    ensures r.Failure? ==> r.error == CircularDependency
  {
    var inDegree, graph := BuildGraph(services, keys);

    var queue: seq<string> := [];
    TakeAll(keys);
    for i := 0 to |keys|
      invariant ReadyAmong(inDegree, keys[..i], queue)
    {
      ReadyNext(inDegree, keys, i, queue);
      if inDegree[keys[i]] == 0 {
        queue := queue + [keys[i]];
      }
    }
    StartState(services, keys, inDegree, queue);

    var result: seq<string> := [];
    while queue != []
      invariant SortState(services, inDegree, queue, result)
      decreases services.Keys - Elems(result)
    {
      var service := queue[0];
      HeadTail(queue);
      QueuedIsFresh(services, inDegree, service, queue[1..], result);
      inDegree, queue := FinishService(services, graph, inDegree, service, queue[1..], result);
      ElemsAppend(result, service);
      result := result + [service];
    }
    SortedResult(services, inDegree, result);

    if |result| != |services| {
      StuckIsCyclic(services, inDegree, result);
      return Failure(CircularDependency);
    }
    assert |services| == |services.Keys|;
    FullSize(result, services.Keys);
    OrderedIsAcyclic(services, result);
    return Success(result);
  }

  lemma {:induction false} QueuedIsFresh(services: Services, inDegree: map<string, nat>, service: string, queue: seq<string>, result: seq<string>)
    requires SortState(services, inDegree, [service] + queue, result)
    ensures service in services && service !in result
  {
    var scheduled := result + ([service] + queue);
    assert scheduled[|result|] == service;
    assert forall i :: 0 <= i < |result| ==> scheduled[i] == result[i];
  }

  lemma {:induction false} SortedResult(services: Services, inDegree: map<string, nat>, result: seq<string>)
    requires SortState(services, inDegree, [], result)
    ensures NoDup(result) && Elems(result) <= services.Keys && DepsFirst(services, result)
  {
    assert result + [] == result;
  }

  lemma {:induction false} StuckIsCyclic(services: Services, inDegree: map<string, nat>, result: seq<string>)
    requires SortState(services, inDegree, [], result)
    requires |result| != |services|
    ensures !Acyclic(services)
  {
    assert result + [] == result;
    var stuck := services.Keys - Elems(result);
    NoDupSize(result);
    assert |services| == |services.Keys|;
    assert Elems(result) != services.Keys;
    assert stuck != {} by {
      if stuck == {} {
        forall v | v in services.Keys
          ensures v in Elems(result)
        {
          assert v !in stuck;
        }
      }
    }
    forall v | v in stuck
      ensures DependsInto(services, v, stuck)
    {
      assert v !in result;
      CountPositive(services[v].deps, stuck);
    }
    var v :| v in stuck;
    var p := StuckSetHasCycle(services, stuck, [v]);
  }

  // ---- Restriction to requested targets ----

  /** A chain of dependencies that starts at a target; only its last name may be unknown. */
  ghost predicate DepPath(services: Services, targets: seq<string>, p: seq<string>) {
    && |p| > 0
    && p[0] in targets
    && (forall i {:trigger Edge(services, p, i)} :: 0 <= i < |p| - 1 ==> Edge(services, p, i))
  }

  ghost predicate Reached(services: Services, targets: seq<string>, name: string) {
    exists p :: DepPath(services, targets, p) && p[|p| - 1] == name
  }

  ghost predicate ReachesUnknown(services: Services, targets: seq<string>) {
    exists name :: name !in services && Reached(services, targets, name)
  }

  ghost predicate ClosedUnderDeps(services: Services, needed: set<string>) {
    forall v, d :: v in needed && v in services && d in services[v].deps ==> d in needed
  }

  ghost predicate IsLeastClosure(services: Services, targets: seq<string>, needed: set<string>) {
    && Elems(targets) <= needed
    && ClosedUnderDeps(services, needed)
    && (forall other: set<string> :: Elems(targets) <= other && ClosedUnderDeps(services, other) ==> needed <= other)
  }

  lemma {:induction false} TargetReached(services: Services, targets: seq<string>, t: string)
    requires t in targets
    ensures Reached(services, targets, t)
  {
    assert DepPath(services, targets, [t]) && [t][|[t]| - 1] == t;
  }

  lemma {:induction false} ReachedStep(services: Services, targets: seq<string>, name: string, dep: string)
    requires Reached(services, targets, name) && name in services && dep in services[name].deps
    ensures Reached(services, targets, dep)
  {
    var p :| DepPath(services, targets, p) && p[|p| - 1] == name;
    var q := p + [dep];
    forall i | 0 <= i < |q| - 1
      ensures Edge(services, q, i)
    {
      assert i < |p| - 1 ==> Edge(services, p, i);
    }
    assert DepPath(services, targets, q) && q[|q| - 1] == dep;
  }

  lemma {:induction false} PathStaysInside(services: Services, targets: seq<string>, p: seq<string>, closed: set<string>)
    requires DepPath(services, targets, p)
    requires Elems(targets) <= closed && ClosedUnderDeps(services, closed)
    ensures p[|p| - 1] in closed
  {
    if |p| == 1 {
      assert p[0] in Elems(targets);
    } else {
      var q := p[..|p| - 1];
      forall i | 0 <= i < |q| - 1
        ensures Edge(services, q, i)
      {
        assert Edge(services, p, i);
      }
      assert Edge(services, p, |p| - 2);
      PathStaysInside(services, targets, q, closed);
    }
  }

  lemma {:induction false} ReachedInside(services: Services, targets: seq<string>, name: string, closed: set<string>)
    requires Reached(services, targets, name)
    requires Elems(targets) <= closed && ClosedUnderDeps(services, closed)
    ensures name in closed
  {
    var p :| DepPath(services, targets, p) && p[|p| - 1] == name;
    PathStaysInside(services, targets, p, closed);
  }

  /** The worklist closure: fails exactly when an unknown name is reached, else keeps the least closed set, in order. */
  method FilterTo(plan: StackPlan, targets: seq<string>) returns (r: Result<StackPlan, PlanError>)
    ensures r.Failure? <==> ReachesUnknown(plan.services, targets)
    ensures r.Failure? ==> r.error.UnknownService? && r.error.service !in plan.services
                           && Reached(plan.services, targets, r.error.service)
    ensures r.Success? ==>
              && r.value.name == plan.name
              && IsLeastClosure(plan.services, targets, r.value.services.Keys)
              && r.value.services.Keys <= plan.services.Keys
              && (forall n :: n in r.value.services ==> r.value.services[n] == plan.services[n])
              && r.value.order == Kept(plan.order, r.value.services.Keys)
  {
    var services := plan.services;
    var needed: set<string> := {};
    var queue := targets;
    hide Reached;
    forall t | t in targets
      ensures Reached(services, targets, t)
    {
      TargetReached(services, targets, t);
    }
    while queue != []
      invariant needed <= services.Keys
      invariant forall n :: n in queue || n in needed ==> Reached(services, targets, n)
      invariant forall t :: t in targets ==> t in needed || t in queue
      invariant forall v, d :: v in needed && d in services[v].deps ==> d in needed || d in queue
      decreases services.Keys - needed, |queue|
    {
      var name := queue[0];
      assert queue == [name] + queue[1..];
      queue := queue[1..];
      if name !in services {
        return Failure(UnknownService(name));
      }
      if name !in needed {
        needed := needed + {name};
        forall d | d in services[name].deps
          ensures Reached(services, targets, d)
        {
          ReachedStep(services, targets, name, d);
        }
        queue := queue + services[name].deps;
      }
    }
    assert ClosedUnderDeps(services, needed) && Elems(targets) <= needed;
    forall name | Reached(services, targets, name)
      ensures name in needed
    {
      ReachedInside(services, targets, name, needed);
    }
    forall other: set<string> | Elems(targets) <= other && ClosedUnderDeps(services, other)
      ensures needed <= other
    {
      forall n | n in needed
        ensures n in other
      {
        ReachedInside(services, targets, n, other);
      }
    }
    var kept := map n | n in services && n in needed :: services[n];
    assert kept.Keys == needed;
    return Success(StackPlan(plan.name, kept, Kept(plan.order, needed)));
  }

  /** Restricting a dependency-first order to a closed set keeps it dependency-first. */
  lemma {:induction false} KeptDepsFirst(services: Services, kept: Services, order: seq<string>, n: nat)
    requires IsTopoOrder(services, order) && n <= |order|
    requires kept.Keys <= services.Keys && ClosedUnderDeps(services, kept.Keys)
    requires forall v :: v in kept ==> kept[v] == services[v]
    ensures Elems(Kept(order[..n], kept.Keys)) <= kept.Keys
    ensures DepsFirst(kept, Kept(order[..n], kept.Keys))
  {
    KeptElems(order[..n], kept.Keys);
    if n > 0 {
      KeptDepsFirst(services, kept, order, n - 1);
      var before, x := Kept(order[..n - 1], kept.Keys), order[n - 1];
      KeptNext(order, n - 1, kept.Keys);
      if x in kept {
        forall d | d in kept[x].deps && d in kept
          ensures d in before
        {
          assert d in order[..n - 1];
          assert d in Elems(order[..n - 1]) * kept.Keys;
          KeptElems(order[..n - 1], kept.Keys);
        }
        DepsFirstSnoc(kept, before, x);
      }
    }
  }

  lemma {:induction false} KeptNext(order: seq<string>, i: nat, keep: set<string>)
    requires i < |order|
    ensures Kept(order[..i + 1], keep) == if order[i] in keep then Kept(order[..i], keep) + [order[i]] else Kept(order[..i], keep)
  {
    TakeNext(order, i);
    KeptAppend(order[..i], [order[i]], keep);
    assert [order[i]][1..] == [];
  }

  lemma {:induction false} KeptIsTopoOrder(services: Services, kept: Services, order: seq<string>)
    requires IsTopoOrder(services, order)
    requires kept.Keys <= services.Keys && ClosedUnderDeps(services, kept.Keys)
    requires forall v :: v in kept ==> kept[v] == services[v]
    ensures IsTopoOrder(kept, Kept(order, kept.Keys))
  {
    assert order[..|order|] == order;
    KeptDepsFirst(services, kept, order, |order|);
    KeptElems(order, kept.Keys);
  }

  // ---- Whole-config entry points ----

  /** A loaded config: the services of each stack, with the key order of each map. */
  datatype Config = Config(stacks: map<string, Services>, keyOrder: map<string, seq<string>>)

  ghost predicate WellOrdered(config: Config) {
    && config.keyOrder.Keys == config.stacks.Keys
    && forall s :: s in config.stacks ==> Enumerates(config.keyOrder[s], config.stacks[s].Keys)
  }

  ghost predicate DepsKnown(services: Services) {
    forall v, d :: v in services && d in services[v].deps ==> d in services
  }

  /** The dependency part of config validation: it accepts exactly the configs whose stacks have known, acyclic deps. */
  method ValidateDeps(config: Config, stackNames: seq<string>) returns (r: Result<(), PlanError>)
    requires WellOrdered(config) && Enumerates(stackNames, config.stacks.Keys)
    ensures r.Success? <==> forall s :: s in config.stacks ==> DepsKnown(config.stacks[s]) && Acyclic(config.stacks[s])
  {
    for i := 0 to |stackNames|
      invariant forall s :: s in stackNames[..i] && s in config.stacks ==>
          DepsKnown(config.stacks[s]) && Acyclic(config.stacks[s])
    {
      assert stackNames[i] in Elems(stackNames);
      var services, keys := config.stacks[stackNames[i]], config.keyOrder[stackNames[i]];
      for j := 0 to |keys|
        invariant forall v, d :: v in keys[..j] && v in services && d in services[v].deps ==> d in services
      {
        assert keys[j] in Elems(keys);
        var deps := services[keys[j]].deps;
        for k := 0 to |deps|
          invariant forall d :: d in deps[..k] ==> d in services
        {
          if deps[k] !in services {
            return Failure(UnknownDependency(keys[j], deps[k]));
          }
        }
        assert deps[..|deps|] == deps;
        assert keys[..j + 1] == keys[..j] + [keys[j]];
      }
      assert keys[..|keys|] == keys;
      assert forall v :: v in services ==> v in Elems(keys);
      var sorted := TopoSort(services, keys);
      if sorted.Failure? {
        return Failure(sorted.error);
      }
      assert stackNames[..i + 1] == stackNames[..i] + [stackNames[i]];
    }
    assert stackNames[..|stackNames|] == stackNames;
    assert forall s :: s in config.stacks ==> s in Elems(stackNames);
    return Success(());
  }

  /** The plan for a stack, restricted to the requested services when there are any. */
  method StackPlanFiltered(config: Config, name: string, only: seq<string>) returns (r: Result<StackPlan, PlanError>)
    requires WellOrdered(config)
    ensures r.Success? <==>
              && name in config.stacks
              && Acyclic(config.stacks[name])
              && !ReachesUnknown(config.stacks[name], only)
    ensures r.Success? ==>
              && r.value.name == name
              && IsTopoOrder(r.value.services, r.value.order)
              && (forall n :: n in r.value.services ==> n in config.stacks[name] && r.value.services[n] == config.stacks[name][n])
              && (only == [] ==> r.value.services == config.stacks[name])
              && (only != [] ==> IsLeastClosure(config.stacks[name], only, r.value.services.Keys))
  {
    if name !in config.stacks {
      return Failure(UnknownStack(name));
    }
    var services := config.stacks[name];
    var sorted := TopoSort(services, config.keyOrder[name]);
    if sorted.Failure? {
      return Failure(sorted.error);
    }
    var plan := StackPlan(name, services, sorted.value);
    if only == [] {
      assert !ReachesUnknown(services, only);
      return Success(plan);
    }
    r := FilterTo(plan, only);
    if r.Success? {
      KeptIsTopoOrder(services, r.value.services, plan.order);
    }
  }

  lemma {:induction false} LastKnown(services: Services, targets: seq<string>, p: seq<string>)
    requires DepsKnown(services) && DepPath(services, targets, p) && |p| > 1
    ensures p[|p| - 1] in services
  {
    assert Edge(services, p, |p| - 2);
  }

  /** In a validated stack the closure can only fail on a target that is itself unknown. */
  lemma {:induction false} ValidatedReachesUnknown(services: Services, targets: seq<string>)
    requires DepsKnown(services)
    ensures ReachesUnknown(services, targets) <==> exists t :: t in targets && t !in services
  {
    if t :| t in targets && t !in services {
      TargetReached(services, targets, t);
    }
    if ReachesUnknown(services, targets) {
      var name :| name !in services && Reached(services, targets, name);
      var p :| DepPath(services, targets, p) && p[|p| - 1] == name;
      if |p| > 1 {
        LastKnown(services, targets, p);
        assert false;
      }
      assert p[0] == name;
    }
  }
}
