/** The states of a run and its services, the events they emit, and a mirror that sees only the events. */
module RunStates {
  import opened Common

  datatype ServiceState = Starting | Ready | Degraded | Stopped | Failed

  datatype RunLifecycle = RunStarting | RunRunning | RunDegraded | RunStopped

  datatype Service = Service(state: ServiceState, lastFailure: Option<string>)

  datatype Run = Run(state: RunLifecycle, stoppedAt: bool, services: map<string, Service>)

  datatype Event =
    | RunCreated(runState: RunLifecycle)
    | RunChanged(runState: RunLifecycle)
    | RunRemoved
    | ServiceChanged(service: string, serviceState: ServiceState)

  const HEALTH_FAILURE := "health checks failing"
  const RESTART_LIMIT := "health restart limit exceeded"

  // ---- Aggregation ----

  predicate Broken(state: ServiceState) {
    state.Degraded? || state.Failed?
  }

  predicate AnyBroken(services: map<string, Service>) {
    exists k :: k in services && Broken(services[k].state)
  }

  predicate AllReady(services: map<string, Service>) {
    forall k :: k in services ==> services[k].state.Ready?
  }

  function Aggregate(services: map<string, Service>): RunLifecycle {
    if AnyBroken(services) then RunDegraded
    else if AllReady(services) then RunRunning
    else RunStarting
  }

  // ---- Steps as functions of the record ----

  type Outcome = (Run, seq<Event>)

  function Put(run: Run, name: string, service: Service): Outcome {
    (run.(services := run.services[name := service]),
     if name in run.services && run.services[name].state == service.state then []
     else [ServiceChanged(name, service.state)])
  }

  function Recomputed(run: Run): Outcome {
    if run.state.RunStopped? then (run, [])
    else
      var state := Aggregate(run.services);
      (run.(state := state), if state != run.state then [RunChanged(state)] else [])
  }

  /** A service change followed by a recomputation of the run. */
  function ThenRecomputed(step: Outcome): Outcome {
    var r := Recomputed(step.0);
    (r.0, step.1 + r.1)
  }

  function StopOne(run: Run, name: string): Outcome {
    if name in run.services then Put(run, name, run.services[name].(state := Stopped)) else (run, [])
  }

  function StopAll(run: Run, keys: seq<string>): Outcome {
    if keys == [] then (run, [])
    else
      var before := StopAll(run, keys[..|keys| - 1]);
      var last := StopOne(before.0, keys[|keys| - 1]);
      (last.0, before.1 + last.1)
  }

  function StoppedRun(run: Run, keys: seq<string>): Outcome {
    var halted := StopAll(run.(state := RunStopped, stoppedAt := true), keys);
    (halted.0, halted.1 + [RunChanged(RunStopped)])
  }

  // ---- Status and reconciliation ----

  /** What the service manager says about a unit. */
  datatype Unit = Unit(activeState: string, result: Option<string>)

  type Units = map<string, Unit>

  datatype Status = Status(state: RunLifecycle, services: map<string, Service>)

  predicate LooksFailed(u: Unit) {
    || u.activeState == "failed"
    || u.result == Some("start-limit-hit")
    || (u.activeState != "active" && u.result.Some? && u.result.value != "success")
  }

  function Worsened(state: ServiceState): ServiceState {
    match state
    case Starting => Failed
    case Ready => Degraded
    case _ => state
  }

  function Derived(run: Run, name: string, units: Units): Service
    requires name in run.services
  {
    var service := run.services[name];
    if name in units && !run.state.RunStopped? && LooksFailed(units[name]) then
      var u := units[name];
      Service(Worsened(service.state),
              if service.lastFailure.None? && u.result != Some("success") then u.result else service.lastFailure)
    else service
  }

  function StatusOf(run: Run, units: Units): Status {
    var services := map k | k in run.services :: Derived(run, k, units);
    Status(if AnyBroken(services) then RunDegraded
           else if AllReady(services) then RunRunning
           else run.state,
           services)
  }

  function ApplyOne(run: Run, status: Status, name: string): Outcome {
    if name in run.services && name in status.services then Put(run, name, status.services[name]) else (run, [])
  }

  function ApplyAll(run: Run, status: Status, keys: seq<string>): Outcome {
    if keys == [] then (run, [])
    else
      var before := ApplyAll(run, status, keys[..|keys| - 1]);
      var last := ApplyOne(before.0, status, keys[|keys| - 1]);
      (last.0, before.1 + last.1)
  }

  /** Reconciliation with a status that may be older than the record. */
  function Reconciled(run: Run, status: Status, keys: seq<string>): Outcome {
    var applied := ApplyAll(run, status, keys);
    (applied.0.(state := status.state),
     applied.1 + (if status.state != run.state && !status.state.RunStopped? then [RunChanged(status.state)] else []))
  }

  // ---- Every step of a run's life ----

  datatype Step =
    | MarkReady(service: string)
    | MarkFailed(service: string, reason: string)
    | RestartBegins(service: string)
    | HealthRecovers(service: string)
    | HealthDegrades(service: string)
    | HealthGivesUp(service: string)
    | LaunchResult(service: string, failure: Option<string>)
    | InitFailed(service: string, reason: string)
    | Reconcile(status: Status, keys: seq<string>)
    | Down(keys: seq<string>)
    | Revive
    | RemoveServices(removed: set<string>)
    | FinishLaunch

  /** The steps that end by recomputing the run's state. */
  predicate Recomputes(step: Step) {
    step.MarkReady? || step.MarkFailed? || step.RestartBegins? || step.HealthRecovers? || step.HealthDegrades?
    || step.HealthGivesUp? || step.RemoveServices? || step.FinishLaunch?
  }

  predicate Enabled(run: Run, step: Step) {
    match step
    case RestartBegins(service) => service in run.services
    case Down(keys) => Elems(keys) == run.services.Keys
    case Reconcile(status, keys) => Elems(keys) == status.services.Keys
    case _ => true
  }

  function Take(run: Run, step: Step): Outcome
    requires Enabled(run, step)
  {
    match step
    case MarkReady(s) =>
      ThenRecomputed(if s in run.services then Put(run, s, Service(Ready, None)) else (run, []))
    case MarkFailed(s, reason) =>
      ThenRecomputed(if s in run.services then Put(run, s, Service(Failed, Some(reason))) else (run, []))
    case RestartBegins(s) =>
      ThenRecomputed(Put(run, s, Service(Starting, None)))
    case HealthRecovers(s) =>
      ThenRecomputed(if s in run.services && run.services[s] == Service(Degraded, Some(HEALTH_FAILURE))
                     then Put(run, s, Service(Ready, None)) else (run, []))
    case HealthDegrades(s) =>
      ThenRecomputed(if s in run.services && run.services[s].state.Ready?
                     then Put(run, s, Service(Degraded, Some(HEALTH_FAILURE))) else (run, []))
    case HealthGivesUp(s) =>
      ThenRecomputed(if s in run.services then Put(run, s, Service(Failed, Some(RESTART_LIMIT))) else (run, []))
    case LaunchResult(s, failure) =>
      Put(run, s, Service(if failure.None? then Starting else Failed, failure))
    case InitFailed(s, reason) =>
      (run.(services := run.services[s := Service(Failed, Some(reason))]), [ServiceChanged(s, Failed)])
    case Reconcile(status, keys) => Reconciled(run, status, keys)
    case Down(keys) => StoppedRun(run, keys)
    case Revive =>
      if run.state.RunStopped? then (run.(state := RunStarting, stoppedAt := false), [RunChanged(RunStarting)])
      else (run, [])
    case RemoveServices(removed) => ThenRecomputed((run.(services := run.services - removed), []))
    case FinishLaunch => Recomputed(run)
  }

  // ---- The store's record, updated in place ----

  class RunRecord {
    var state: RunLifecycle
    var stoppedAt: bool
    var services: map<string, Service>

    function View(): Run
      reads this
    {
      Run(state, stoppedAt, services)
    }

    constructor ()
      ensures View() == Run(RunStarting, false, map[])
    {
      state, stoppedAt, services := RunStarting, false, map[];
    }

    /** Changes a service's state and failure text; an event only when the state is another one. */
    method SetService(name: string, newState: ServiceState, failure: Option<string>) returns (events: seq<Event>)
      requires name in services
      modifies this
      ensures (View(), events) == Put(old(View()), name, Service(newState, failure))
    {
      events := if services[name].state == newState then [] else [ServiceChanged(name, newState)];
      services := services[name := Service(newState, failure)];
    }

    /** The aggregate of the services, folded with two flags; a stopped run is left alone. */
    method RecomputeRunState(keys: seq<string>) returns (events: seq<Event>)
      requires Elems(keys) == services.Keys
      modifies this
      ensures (View(), events) == Recomputed(old(View()))
    {
      if state == RunStopped {
        return [];
      }
      var previous := state;
      var allReady, anyDegraded := FoldFlags(services, keys);
      state := if anyDegraded then RunDegraded else if allReady then RunRunning else RunStarting;
      events := if state != previous then [RunChanged(state)] else [];
    }

    method MarkServiceReady(name: string, keys: seq<string>) returns (events: seq<Event>)
      requires Elems(keys) == services.Keys
      modifies this
      ensures (View(), events) == Take(old(View()), MarkReady(name))
    {
      events := [];
      if name in services {
        events := SetService(name, Ready, None);
        SameKeys(old(services), name, Service(Ready, None));
      }
      var more := RecomputeRunState(keys);
      events := events + more;
    }

    method MarkServiceFailed(name: string, reason: string, keys: seq<string>) returns (events: seq<Event>)
      requires Elems(keys) == services.Keys
      modifies this
      ensures (View(), events) == Take(old(View()), MarkFailed(name, reason))
    {
      events := [];
      if name in services {
        events := SetService(name, Failed, Some(reason));
        SameKeys(old(services), name, Service(Failed, Some(reason)));
      }
      var more := RecomputeRunState(keys);
      events := events + more;
    }

    /** The first step of a restart; an unknown service changes nothing. */
    method BeginRestart(name: string, keys: seq<string>) returns (ok: bool, events: seq<Event>)
      requires Elems(keys) == services.Keys
      modifies this
      ensures ok == (name in old(services))
      ensures ok ==> (View(), events) == Take(old(View()), RestartBegins(name))
      ensures !ok ==> View() == old(View()) && events == []
    {
      if name !in services {
        return false, [];
      }
      events := SetService(name, Starting, None);
      SameKeys(old(services), name, Service(Starting, None));
      var more := RecomputeRunState(keys);
      return true, events + more;
    }

    /**
     * A whole restart: the outcomes of loading the post-init tasks, restarting the unit and waiting come from outside.
     * A restart that fails before the wait leaves the service starting, with no failure text.
     */
    method RestartService(name: string, keys: seq<string>, loaded: bool, restarted: bool, noWait: bool, failure: Option<string>)
      returns (ok: bool, events: seq<Event>)
      requires Elems(keys) == services.Keys
      modifies this
      ensures name !in old(services) ==> !ok && View() == old(View()) && events == []
      ensures name in old(services) ==>
                && Sequence(old(View()), RestartSteps(name, loaded && restarted && !noWait, failure))
                && (View(), events) == TakeEach(old(View()), RestartSteps(name, loaded && restarted && !noWait, failure))
                && ok == (loaded && restarted && (noWait || failure.None?))
    {
      ok, events := BeginRestart(name, keys);
      if !ok {
        return;
      }
      RestartRuns(old(View()), name, failure);
      if !loaded || !restarted || noWait {
        return loaded && restarted, events;
      }
      var more;
      if failure.None? {
        more := MarkServiceReady(name, keys);
      } else {
        more := MarkServiceFailed(name, failure.value, keys);
      }
      return failure.None?, events + more;
    }

    /** A passing health check takes back a degradation that health checks caused, and nothing else. */
    method RecoverHealth(name: string, keys: seq<string>) returns (events: seq<Event>)
      requires Elems(keys) == services.Keys
      modifies this
      ensures (View(), events) == Take(old(View()), HealthRecovers(name))
    {
      events := [];
      if name in services && services[name].state == Degraded && services[name].lastFailure == Some(HEALTH_FAILURE) {
        events := SetService(name, Ready, None);
        SameKeys(old(services), name, Service(Ready, None));
      }
      var more := RecomputeRunState(keys);
      events := events + more;
    }

    method DegradeHealth(name: string, keys: seq<string>) returns (events: seq<Event>)
      requires Elems(keys) == services.Keys
      modifies this
      ensures (View(), events) == Take(old(View()), HealthDegrades(name))
    {
      events := [];
      if name in services && services[name].state == Ready {
        events := SetService(name, Degraded, Some(HEALTH_FAILURE));
        SameKeys(old(services), name, Service(Degraded, Some(HEALTH_FAILURE)));
      }
      var more := RecomputeRunState(keys);
      events := events + more;
    }

    method GiveUpHealth(name: string, keys: seq<string>) returns (events: seq<Event>)
      requires Elems(keys) == services.Keys
      modifies this
      ensures (View(), events) == Take(old(View()), HealthGivesUp(name))
    {
      events := [];
      if name in services {
        events := SetService(name, Failed, Some(RESTART_LIMIT));
        SameKeys(old(services), name, Service(Failed, Some(RESTART_LIMIT)));
      }
      var more := RecomputeRunState(keys);
      events := events + more;
    }

    /** Replaces a service's record after a failed init task; the event is sent even when it was failed before. */
    method RecordFailedInit(name: string, reason: string) returns (events: seq<Event>)
      modifies this
      ensures (View(), events) == Take(old(View()), InitFailed(name, reason))
      ensures services.Keys == old(services).Keys + {name} && services[name] == Service(Failed, Some(reason))
      ensures forall k :: k in old(services) && k != name ==> services[k] == old(services)[k]
    {
      services := services[name := Service(Failed, Some(reason))];
      events := [ServiceChanged(name, Failed)];
    }

    /** A refresh of a stopped run starts it again. */
    method ReviveRun() returns (events: seq<Event>)
      modifies this
      ensures (View(), events) == Take(old(View()), Revive)
      ensures !state.RunStopped? && services == old(services)
      ensures events != [] <==> old(state).RunStopped?
    {
      events := [];
      if state == RunStopped {
        state, stoppedAt := RunStarting, false;
        events := [RunChanged(state)];
      }
    }

    /** Drops services one by one; there is no event for a removed service. */
    method RemoveMissing(removed: seq<string>, keys: seq<string>) returns (events: seq<Event>)
      requires Elems(keys) == services.Keys - Elems(removed)
      modifies this
      ensures (View(), events) == Take(old(View()), RemoveServices(Elems(removed)))
    {
      TakeAll(removed);
      RemoveNone(services);
      for i := 0 to |removed|
        invariant state == old(state) && stoppedAt == old(stoppedAt)
        invariant services == old(services) - Elems(removed[..i])
      {
        TakeNext(removed, i);
        RemoveNext(old(services), removed[..i], removed[i]);
        services := services - {removed[i]};
      }
      events := RecomputeRunState(keys);
      assert [] + events == events;
    }

    /** Replaces a service's record with the result of launching it. */
    method StoreLaunchResult(name: string, failure: Option<string>) returns (events: seq<Event>)
      modifies this
      ensures (View(), events) == Take(old(View()), LaunchResult(name, failure))
    {
      var initial := if failure.None? then Starting else Failed;
      var previous := if name in services then Some(services[name].state) else None;
      services := services[name := Service(initial, failure)];
      events := if previous != Some(initial) then [ServiceChanged(name, initial)] else [];
    }

    /** Stops the run and every service, one event for each service that was not stopped. */
    method Stop(keys: seq<string>) returns (events: seq<Event>)
      requires Elems(keys) == services.Keys
      modifies this
      ensures (View(), events) == Take(old(View()), Down(keys))
    {
      state, stoppedAt := RunStopped, true;
      events := [];
      ghost var start := View();
      TakeAll(keys);
      for i := 0 to |keys|
        invariant (View(), events) == StopAll(start, keys[..i])
      {
        TakeNext(keys, i);
        DropLast(keys, i);
        var more := [];
        if keys[i] in services {
          more := SetService(keys[i], Stopped, services[keys[i]].lastFailure);
        }
        events := events + more;
      }
      events := events + [RunChanged(state)];
      StopAllKeepsRun(start, keys);
    }

    /** Writes a status into the record: service by service, then the run. */
    method ReconcileWith(status: Status, keys: seq<string>) returns (events: seq<Event>)
      requires Elems(keys) == status.services.Keys
      modifies this
      ensures (View(), events) == Take(old(View()), Reconcile(status, keys))
    {
      var previous := state;
      events := [];
      ghost var start := View();
      TakeAll(keys);
      for i := 0 to |keys|
        invariant (View(), events) == ApplyAll(start, status, keys[..i])
      {
        TakeNext(keys, i);
        DropLast(keys, i);
        assert keys[i] in Elems(keys);
        var more := [];
        if keys[i] in services {
          var derived := status.services[keys[i]];
          more := SetService(keys[i], derived.state, derived.lastFailure);
        }
        events := events + more;
      }
      state := status.state;
      if state != previous && state != RunStopped {
        events := events + [RunChanged(state)];
      } else {
        assert events + [] == events;
      }
    }
  }

  /** The two flags of the aggregation loop. */
  method FoldFlags(services: map<string, Service>, keys: seq<string>) returns (allReady: bool, anyDegraded: bool)
    requires Elems(keys) == services.Keys
    ensures allReady ==> AllReady(services)
    ensures anyDegraded == AnyBroken(services)
    ensures !anyDegraded ==> allReady == AllReady(services)
  {
    allReady, anyDegraded := true, false;
    forall k | 0 <= k < |keys|
      ensures keys[k] in services
    {
      assert keys[k] in Elems(keys);
    }
    for i := 0 to |keys|
      invariant allReady <==> forall k :: 0 <= k < i ==> services[keys[k]].state.Ready?
      invariant anyDegraded <==> exists k :: 0 <= k < i && Broken(services[keys[k]].state)
    {
      match services[keys[i]].state
      case Ready =>
      case Starting => allReady := false;
      case Degraded => anyDegraded, allReady := true, false;
      case Failed => anyDegraded, allReady := true, false;
      case Stopped => allReady := false;
    }
    forall k | k in services
      ensures exists i :: 0 <= i < |keys| && keys[i] == k
    {
      assert k in Elems(keys);
    }
  }

  /** The status query: derive each service, then fold. */
  method BuildStatus(run: Run, keys: seq<string>, units: Units) returns (status: Status)
    requires Elems(keys) == run.services.Keys
    ensures status == StatusOf(run, units)
    ensures Judged(run, units, status)
  {
    var services: map<string, Service> := map[];
    TakeAll(keys);
    for i := 0 to |keys|
      invariant services.Keys == Elems(keys[..i]) && services.Keys <= run.services.Keys
      invariant forall k :: k in services ==> services[k] == Derived(run, k, units)
    {
      TakeNext(keys, i);
      ElemsAppend(keys[..i], keys[i]);
      assert keys[i] in Elems(keys);
      services := services[keys[i] := Derived(run, keys[i], units)];
    }
    assert services == map k | k in run.services :: Derived(run, k, units);
    var allReady, anyDegraded := FoldFlags(services, keys);
    status := Status(if anyDegraded then RunDegraded else if allReady then RunRunning else run.state, services);
    StatusJudges(run, units);
  }

  /**
   * The judgement a status passes, told from the unit reports: on a live run a service is failing when its unit is in
   * state failed, hit its start limit, or is not active and has any other result than success.
   */
  ghost predicate Judged(run: Run, units: Units, status: Status) {
    && status.services.Keys == run.services.Keys
    && (forall k :: k in run.services ==>
          var failing := !run.state.RunStopped? && k in units
                         && (|| units[k].activeState == "failed"
                             || units[k].result == Some("start-limit-hit")
                             || (units[k].activeState != "active" && units[k].result !in {None, Some("success")}));
          var was, now := run.services[k], status.services[k];
          && (now.state == Failed <==> was.state == Failed || (was.state == Starting && failing))
          && (now.state == Degraded <==> was.state == Degraded || (was.state == Ready && failing))
          && (now.state in {Starting, Ready, ServiceState.Stopped} ==> now.state == was.state)
          && (was.lastFailure.Some? || !failing ==> now.lastFailure == was.lastFailure)
          && (was.lastFailure.None? && failing ==>
                now.lastFailure == if units[k].result == Some("success") then None else units[k].result))
    && (status.state == RunDegraded
        <==> (exists k :: k in run.services && status.services[k].state in {Degraded, Failed})
             || (run.state == RunDegraded && exists k :: k in run.services && status.services[k].state != Ready))
    && (status.state == RunRunning
        <==> (forall k :: k in run.services ==> status.services[k].state == Ready)
             || (run.state == RunRunning && forall k :: k in run.services ==> status.services[k].state !in {Degraded, Failed}))
    && (status.state in {RunStarting, RunStopped} ==> status.state == run.state)
  }

  lemma {:induction false} StatusJudges(run: Run, units: Units)
    ensures Judged(run, units, StatusOf(run, units))
  {
  }

  lemma {:induction false} DropLast<T>(s: seq<T>, i: nat)
    requires i < |s|
    ensures s[..i + 1][..i] == s[..i]
  {
  }

  lemma {:induction false} SameKeys(services: map<string, Service>, name: string, service: Service)
    requires name in services
    ensures services[name := service].Keys == services.Keys
  {
  }

  lemma {:induction false} RemoveNone(services: map<string, Service>)
    ensures services - Elems([]) == services
  {
  }

  lemma {:induction false} RemoveNext(services: map<string, Service>, removed: seq<string>, name: string)
    ensures services - Elems(removed) - {name} == services - Elems(removed + [name])
  {
  }

  lemma {:induction false} StopAllKeepsRun(run: Run, keys: seq<string>)
    ensures StopAll(run, keys).0.state == run.state && StopAll(run, keys).0.stoppedAt == run.stoppedAt
    ensures StopAll(run, keys).0.services.Keys == run.services.Keys
    ensures forall k :: k in keys && k in run.services ==>
              StopAll(run, keys).0.services[k] == Service(Stopped, run.services[k].lastFailure)
    ensures forall k :: k in run.services && k !in keys ==> StopAll(run, keys).0.services[k] == run.services[k]
  {
    if keys != [] {
      StopAllKeepsRun(run, keys[..|keys| - 1]);
      HeadLast(keys);
    }
  }

  // ---- A mirror that only sees events ----

  datatype Mirror = Mirror(run: Option<RunLifecycle>, services: map<string, ServiceState>)

  function See(m: Mirror, e: Event): Mirror {
    match e
    case RunCreated(state) => Mirror(Some(state), map[])
    case RunChanged(state) => m.(run := Some(state))
    case RunRemoved => Mirror(None, map[])
    case ServiceChanged(service, state) => m.(services := m.services[service := state])
  }

  function Replay(m: Mirror, events: seq<Event>): Mirror {
    if events == [] then m else See(Replay(m, events[..|events| - 1]), events[|events| - 1])
  }

  ghost predicate ServicesAgree(m: Mirror, run: Run) {
    forall k :: k in run.services ==> k in m.services && m.services[k] == run.services[k].state
  }

  ghost predicate Agrees(m: Mirror, run: Run) {
    m.run == Some(run.state) && ServicesAgree(m, run)
  }

  lemma {:induction false} ReplayAppend(m: Mirror, a: seq<Event>, b: seq<Event>)
    ensures Replay(m, a + b) == Replay(Replay(m, a), b)
  {
    if b == [] {
      assert a + b == a;
    } else {
      assert (a + b)[..|a| + |b| - 1] == a + b[..|b| - 1];
      ReplayAppend(m, a, b[..|b| - 1]);
    }
  }

  lemma {:induction false} ReplayOne(m: Mirror, e: Event)
    ensures Replay(m, [e]) == See(m, e) && Replay(m, []) == m
  {
    assert [e][..0] == [];
  }

  lemma {:induction false} PutAgrees(m: Mirror, run: Run, name: string, service: Service)
    requires ServicesAgree(m, run)
    ensures var out := Put(run, name, service);
            ServicesAgree(Replay(m, out.1), out.0) && Replay(m, out.1).run == m.run
  {
    ReplayOne(m, ServiceChanged(name, service.state));
  }

  lemma {:induction false} RecomputedAgrees(m: Mirror, run: Run)
    requires Agrees(m, run)
    ensures Agrees(Replay(m, Recomputed(run).1), Recomputed(run).0)
  {
    ReplayOne(m, RunChanged(Aggregate(run.services)));
  }

  lemma {:induction false} ThenRecomputedAgrees(m: Mirror, step: Outcome)
    requires Agrees(Replay(m, step.1), step.0)
    ensures Agrees(Replay(m, ThenRecomputed(step).1), ThenRecomputed(step).0)
  {
    hide Agrees;
    ReplayAppend(m, step.1, Recomputed(step.0).1);
    RecomputedAgrees(Replay(m, step.1), step.0);
  }

  lemma {:induction false} StopAllAgrees(m: Mirror, run: Run, keys: seq<string>)
    requires ServicesAgree(m, run)
    ensures ServicesAgree(Replay(m, StopAll(run, keys).1), StopAll(run, keys).0)
    ensures Replay(m, StopAll(run, keys).1).run == m.run
  {
    hide ServicesAgree;
    if keys != [] {
      StopAllAgrees(m, run, keys[..|keys| - 1]);
      var before := StopAll(run, keys[..|keys| - 1]);
      var last := StopOne(before.0, keys[|keys| - 1]);
      ReplayAppend(m, before.1, last.1);
      if keys[|keys| - 1] in before.0.services {
        PutAgrees(Replay(m, before.1), before.0, keys[|keys| - 1], before.0.services[keys[|keys| - 1]].(state := Stopped));
      }
    }
  }

  lemma {:induction false} ApplyAllAgrees(m: Mirror, run: Run, status: Status, keys: seq<string>)
    requires ServicesAgree(m, run)
    ensures ServicesAgree(Replay(m, ApplyAll(run, status, keys).1), ApplyAll(run, status, keys).0)
    ensures Replay(m, ApplyAll(run, status, keys).1).run == m.run
  {
    hide ServicesAgree;
    if keys != [] {
      ApplyAllAgrees(m, run, status, keys[..|keys| - 1]);
      var before := ApplyAll(run, status, keys[..|keys| - 1]);
      var name := keys[|keys| - 1];
      var last := ApplyOne(before.0, status, name);
      ReplayAppend(m, before.1, last.1);
      if name in before.0.services && name in status.services {
        PutAgrees(Replay(m, before.1), before.0, name, status.services[name]);
      }
    }
  }

  /** A reconciliation sets the run to Stopped without an event when its status says so and the run is not. */
  predicate SilentStop(run: Run, step: Step) {
    step.Reconcile? && step.status.state.RunStopped? && !run.state.RunStopped?
  }

  lemma {:induction false} SameServicesAgree(m: Mirror, n: Mirror, run: Run, other: Run)
    requires ServicesAgree(m, run) && n.services == m.services && other.services == run.services
    ensures ServicesAgree(n, other)
  {
  }

  lemma {:induction false} ReconcileAgrees(m: Mirror, run: Run, status: Status, keys: seq<string>)
    requires Agrees(m, run)
    ensures var out := Reconciled(run, status, keys);
            Agrees(Replay(m, out.1), out.0) <==> !(status.state.RunStopped? && !run.state.RunStopped?)
  {
    hide ServicesAgree;
    ApplyAllAgrees(m, run, status, keys);
    var applied := ApplyAll(run, status, keys);
    var last := if status.state != run.state && !status.state.RunStopped? then [RunChanged(status.state)] else [];
    ReplayAppend(m, applied.1, last);
    ReplayOne(Replay(m, applied.1), RunChanged(status.state));
    SameServicesAgree(Replay(m, applied.1), Replay(Replay(m, applied.1), last), applied.0, applied.0.(state := status.state));
  }

  lemma {:induction false} DownAgrees(m: Mirror, run: Run, keys: seq<string>)
    requires Agrees(m, run)
    ensures Agrees(Replay(m, StoppedRun(run, keys).1), StoppedRun(run, keys).0)
  {
    hide ServicesAgree;
    var marked := run.(state := RunStopped, stoppedAt := true);
    SameServicesAgree(m, m, run, marked);
    StopAllAgrees(m, marked, keys);
    StopAllKeepsRun(marked, keys);
    var halted := StopAll(marked, keys);
    ReplayAppend(m, halted.1, [RunChanged(RunStopped)]);
    ReplayOne(Replay(m, halted.1), RunChanged(RunStopped));
    SameServicesAgree(Replay(m, halted.1), See(Replay(m, halted.1), RunChanged(RunStopped)), halted.0, halted.0);
  }

  /** A step that puts at most one service and then recomputes. */
  lemma {:induction false} PutThenRecomputedAgrees(m: Mirror, run: Run, name: string, service: Service)
    requires Agrees(m, run)
    ensures var out := ThenRecomputed(Put(run, name, service)); Agrees(Replay(m, out.1), out.0)
    ensures var out := ThenRecomputed((run, [])); Agrees(Replay(m, out.1), out.0)
  {
    PutAgrees(m, run, name, service);
    ThenRecomputedAgrees(m, Put(run, name, service));
    ThenRecomputedAgrees(m, (run, []));
  }

  lemma {:induction false} RemoveAgrees(m: Mirror, run: Run, removed: set<string>)
    requires Agrees(m, run)
    ensures var out := ThenRecomputed((run.(services := run.services - removed), [])); Agrees(Replay(m, out.1), out.0)
  {
    ThenRecomputedAgrees(m, (run.(services := run.services - removed), []));
  }

  /** One step: the mirror follows the store, except past a silent stop. */
  lemma {:induction false} StepReplays(m: Mirror, run: Run, step: Step)
    requires Agrees(m, run) && Enabled(run, step)
    ensures Agrees(Replay(m, Take(run, step).1), Take(run, step).0) <==> !SilentStop(run, step)
  {
    hide Replay;
    hide Recomputed;
    hide Put;
    hide ThenRecomputed;
    hide Reconciled;
    hide StoppedRun;
    match step
    case MarkReady(s) => PutThenRecomputedAgrees(m, run, s, Service(Ready, None));
    case MarkFailed(s, reason) => PutThenRecomputedAgrees(m, run, s, Service(Failed, Some(reason)));
    case RestartBegins(s) => PutThenRecomputedAgrees(m, run, s, Service(Starting, None));
    case HealthRecovers(s) => PutThenRecomputedAgrees(m, run, s, Service(Ready, None));
    case HealthDegrades(s) => PutThenRecomputedAgrees(m, run, s, Service(Degraded, Some(HEALTH_FAILURE)));
    case HealthGivesUp(s) => PutThenRecomputedAgrees(m, run, s, Service(Failed, Some(RESTART_LIMIT)));
    case LaunchResult(s, failure) =>
      var service := Service(if failure.None? then Starting else Failed, failure);
      PutAgrees(m, run, s, service);
      PutKeepsRun(run, s, service);
    case InitFailed(s, reason) => ReplayOne(m, ServiceChanged(s, Failed));
    case Reconcile(status, keys) => ReconcileAgrees(m, run, status, keys);
    case Down(keys) => DownAgrees(m, run, keys);
    case Revive => ReplayOne(m, RunChanged(RunStarting));
    case RemoveServices(removed) => RemoveAgrees(m, run, removed);
    case FinishLaunch => RecomputedAgrees(m, run);
  }

  lemma {:induction false} PutKeepsRun(run: Run, name: string, service: Service)
    ensures Put(run, name, service).0.state == run.state
  {
  }

  /** A sequence of steps, none of which is a silent stop. */
  ghost predicate Sequence(run: Run, steps: seq<Step>)
    decreases |steps|
  {
    steps == [] || (Enabled(run, steps[0]) && !SilentStop(run, steps[0]) && Sequence(Take(run, steps[0]).0, steps[1..]))
  }

  function TakeEach(run: Run, steps: seq<Step>): Outcome
    requires Sequence(run, steps)
    decreases |steps|
  {
    if steps == [] then (run, [])
    else
      var first := Take(run, steps[0]);
      var rest := TakeEach(first.0, steps[1..]);
      (rest.0, first.1 + rest.1)
  }

  /** The steps of a restart, the second only when its outcome is waited for. */
  function RestartSteps(name: string, waits: bool, failure: Option<string>): seq<Step> {
    if waits then [RestartBegins(name), if failure.None? then MarkReady(name) else MarkFailed(name, failure.value)]
    else [RestartBegins(name)]
  }

  lemma {:induction false} RestartRuns(run: Run, name: string, failure: Option<string>)
    requires name in run.services
    ensures var first := Take(run, RestartBegins(name));
            && first.0.services.Keys == run.services.Keys
            && Sequence(run, RestartSteps(name, false, failure))
            && TakeEach(run, RestartSteps(name, false, failure)) == first
            && var then_ := Take(first.0, if failure.None? then MarkReady(name) else MarkFailed(name, failure.value));
               && Sequence(run, RestartSteps(name, true, failure))
               && TakeEach(run, RestartSteps(name, true, failure)) == (then_.0, first.1 + then_.1)
  {
    var begin, last := RestartBegins(name), if failure.None? then MarkReady(name) else MarkFailed(name, failure.value);
    var first := Take(run, begin);
    SameKeys(run.services, name, Service(Starting, None));
    OneStep(run, begin);
    OneStep(first.0, last);
    hide Take;
    assert [begin, last][1..] == [last];
  }

  lemma {:induction false} OneStep(run: Run, step: Step)
    requires Enabled(run, step) && !SilentStop(run, step)
    ensures Sequence(run, [step]) && TakeEach(run, [step]) == Take(run, step)
  {
    hide Take;
    assert [step][1..] == [];
    assert Take(run, step).1 + [] == Take(run, step).1;
  }

  /** After any sequence of steps, replaying the events gives the store's run state and every live service's state. */
  lemma {:induction false} EventReplay(m: Mirror, run: Run, steps: seq<Step>)
    requires Agrees(m, run) && Sequence(run, steps)
    ensures Agrees(Replay(m, TakeEach(run, steps).1), TakeEach(run, steps).0)
    decreases |steps|
  {
    hide Agrees;
    if steps != [] {
      var first := Take(run, steps[0]);
      StepReplays(m, run, steps[0]);
      EventReplay(Replay(m, first.1), first.0, steps[1..]);
      ReplayAppend(m, first.1, TakeEach(first.0, steps[1..]).1);
    }
  }

  /** From the creation event on. */
  lemma {:induction false} EventReplayFromCreation(m: Mirror, steps: seq<Step>)
    requires Sequence(Run(RunStarting, false, map[]), steps)
    ensures var out := TakeEach(Run(RunStarting, false, map[]), steps);
            Agrees(Replay(m, [RunCreated(RunStarting)] + out.1), out.0)
  {
    var run := Run(RunStarting, false, map[]);
    ReplayAppend(m, [RunCreated(RunStarting)], TakeEach(run, steps).1);
    ReplayOne(m, RunCreated(RunStarting));
    EventReplay(See(m, RunCreated(RunStarting)), run, steps);
  }

  /** A status taken from the record itself is never a silent stop: only a stale one can be. */
  lemma {:induction false} FreshStatusIsNotSilent(run: Run, units: Units, keys: seq<string>)
    ensures !SilentStop(run, Reconcile(StatusOf(run, units), keys))
  {
  }

  /** Steps that recompute leave the run stopped or equal to the aggregate of its services. */
  lemma {:induction false} RecomputedIsAggregate(run: Run, step: Step)
    requires Enabled(run, step) && Recomputes(step)
    ensures var out := Take(run, step).0;
            out.state == if run.state.RunStopped? then RunStopped else Aggregate(out.services)
  {
    hide Aggregate;
  }

  /** Which steps bring a run to rest, revive it, or leave it at what its services say. */
  lemma {:induction false} RunMoves(run: Run, step: Step)
    requires Enabled(run, step) && !step.Reconcile?
    ensures var out := Take(run, step).0;
            && (out.state == RunStopped <==> step.Down? || (run.state == RunStopped && !step.Revive?))
            && (out.stoppedAt <==> step.Down? || (run.stoppedAt && !(step.Revive? && run.state == RunStopped)))
            && (step.Revive? && run.state == RunStopped ==> out.state == RunStarting)
            && (!Recomputes(step) && !step.Down? && !(step.Revive? && run.state == RunStopped) ==> out.state == run.state)
            && (Recomputes(step) && run.state != RunStopped ==>
                  && (out.state == RunDegraded
                      <==> exists k :: k in out.services && out.services[k].state in {Degraded, Failed})
                  && (out.state == RunRunning <==> forall k :: k in out.services ==> out.services[k].state == Ready))
  {
    if step.Down? {
      StopAllKeepsRun(run.(state := RunStopped, stoppedAt := true), step.keys);
    } else if Recomputes(step) {
      RecomputedIsAggregate(run, step);
    }
  }

  /** The steps about a single service. */
  predicate OfService(step: Step) {
    !(step.Reconcile? || step.Down? || step.Revive? || step.RemoveServices? || step.FinishLaunch?)
  }

  predicate Concerns(step: Step, k: string) {
    OfService(step) && step.service == k
  }

  /** Which steps bring a service to a state it was not in; a reconciliation writes what its status says. */
  lemma {:induction false} ServiceMoves(run: Run, step: Step, k: string)
    requires Enabled(run, step) && !step.Reconcile? && k in Take(run, step).0.services
    ensures var now := Take(run, step).0.services[k];
            var was := if k in run.services then Some(run.services[k]) else None;
            var at := was.Some? && was.value.state == now.state;
            && (now.state == Ready && !at ==>
                  || step == MarkReady(k)
                  || (step == HealthRecovers(k) && was == Some(Service(Degraded, Some("health checks failing")))))
            && (now.state == Degraded && !at ==> step == HealthDegrades(k) && was.Some? && was.value.state == Ready)
            && (now.state == Failed && !at ==>
                  || (Concerns(step, k) && (step.MarkFailed? || step.HealthGivesUp? || step.InitFailed?))
                  || (step.LaunchResult? && step.service == k && step.failure.Some?))
            && (now.state == Starting && !at ==> step == RestartBegins(k) || step == LaunchResult(k, None))
            && (now.state == ServiceState.Stopped && !at ==> step.Down?)
  {
    StepSettles(run, step, k);
    if step.Down? {
      StopAllKeepsRun(run.(state := RunStopped, stoppedAt := true), step.keys);
    }
  }

  /** And these steps do bring it there, with the failure text that goes with it; no step touches another service. */
  lemma {:induction false} StepSettles(run: Run, step: Step, k: string)
    requires Enabled(run, step) && !step.Reconcile? && k in Take(run, step).0.services
    ensures var now := Take(run, step).0.services[k];
            && (step == MarkReady(k) ==> now == Service(Ready, None))
            && (step in {RestartBegins(k), LaunchResult(k, None)} ==> now == Service(Starting, None))
            && (step.MarkFailed? && step.service == k ==> now == Service(Failed, Some(step.reason)))
            && (step.InitFailed? && step.service == k ==> now == Service(Failed, Some(step.reason)))
            && (step.LaunchResult? && step.service == k && step.failure.Some? ==> now == Service(Failed, step.failure))
            && (step == HealthGivesUp(k) ==> now == Service(Failed, Some("health restart limit exceeded")))
            && (step == HealthDegrades(k) && run.services[k].state == Ready ==>
                  now == Service(Degraded, Some("health checks failing")))
            && (step == HealthRecovers(k) && run.services[k] == Service(Degraded, Some("health checks failing")) ==>
                  now == Service(Ready, None))
            && (step.Down? ==> k in run.services && now == Service(Stopped, run.services[k].lastFailure))
            && (OfService(step) && step.service != k ==> k in run.services && now == run.services[k])
            && (step.Revive? || step.RemoveServices? || step.FinishLaunch? ==> k in run.services && now == run.services[k])
  {
    if step.Down? {
      StopAllKeepsRun(run.(state := RunStopped, stoppedAt := true), step.keys);
    }
  }

  /** No service that is starting or ready carries a failure text. */
  ghost predicate Clean(services: map<string, Service>) {
    forall k :: k in services && services[k].state in {Starting, Ready} ==> services[k].lastFailure.None?
  }

  /** Statuses of clean runs are clean, and clean statuses and all other steps keep a run clean. */
  lemma {:induction false} CleanStep(run: Run, step: Step)
    requires Clean(run.services) && Enabled(run, step) && (step.Reconcile? ==> Clean(step.status.services))
    ensures Clean(Take(run, step).0.services)
    ensures forall units :: Clean(StatusOf(run, units).services)
  {
    forall k | k in Take(run, step).0.services && Take(run, step).0.services[k].state in {Starting, Ready}
      ensures Take(run, step).0.services[k].lastFailure.None?
    {
      if step.Reconcile? {
        ApplyAllResult(run, step.status, step.keys);
      } else {
        ServiceMoves(run, step, k);
        StepSettles(run, step, k);
      }
    }
  }

  ghost predicate CleanStatuses(steps: seq<Step>) {
    forall i :: 0 <= i < |steps| && steps[i].Reconcile? ==> Clean(steps[i].status.services)
  }

  /** Over whole runs: whatever became ready or starts again has lost its old failure text. */
  lemma {:induction false} CleanThroughout(run: Run, steps: seq<Step>)
    requires Clean(run.services) && Sequence(run, steps) && CleanStatuses(steps)
    ensures Clean(TakeEach(run, steps).0.services)
    decreases |steps|
  {
    if steps != [] {
      CleanStep(run, steps[0]);
      CleanThroughout(Take(run, steps[0]).0, steps[1..]);
    }
  }

  // ---- Reconciliation settles ----

  /** Applying a status to every service it names. */
  lemma {:induction false} ApplyAllResult(run: Run, status: Status, keys: seq<string>)
    ensures var out := ApplyAll(run, status, keys);
            && out.0.state == run.state && out.0.stoppedAt == run.stoppedAt
            && out.0.services.Keys == run.services.Keys
            && (forall k :: k in run.services ==>
                  out.0.services[k] == if k in keys && k in status.services then status.services[k] else run.services[k])
            && ((forall k :: k in keys && k in run.services && k in status.services
                             ==> status.services[k].state == run.services[k].state) ==> out.1 == [])
  {
    if keys != [] {
      ApplyAllResult(run, status, keys[..|keys| - 1]);
      HeadLast(keys);
    }
  }

  lemma {:induction false} ReconciledResult(run: Run, units: Units, keys: seq<string>)
    requires Elems(keys) == run.services.Keys
    ensures var status := StatusOf(run, units);
            var out := Reconciled(run, status, keys);
            && out.0 == Run(status.state, run.stoppedAt, status.services)
            && (status.services == run.services && status.state == run.state ==> out.1 == [])
  {
    hide AnyBroken;
    hide AllReady;
    hide Derived;
    var status := StatusOf(run, units);
    ApplyAllResult(run, status, keys);
    var applied := ApplyAll(run, status, keys);
    forall k | k in run.services
      ensures applied.0.services[k] == status.services[k]
    {
      assert k in Elems(keys);
    }
    assert applied.0.services == status.services;
  }

  /** Reconciling writes exactly that judgement into the record. */
  lemma {:induction false} ReconcileJudges(run: Run, units: Units, keys: seq<string>)
    requires Elems(keys) == run.services.Keys
    ensures var once := Reconciled(run, StatusOf(run, units), keys).0;
            once.stoppedAt == run.stoppedAt && Judged(run, units, Status(once.state, once.services))
  {
    ReconciledResult(run, units, keys);
    StatusJudges(run, units);
  }

  /** A second look at a service under the same unit status finds nothing new. */
  lemma {:induction false} DerivedTwice(run: Run, again: Run, name: string, units: Units)
    requires name in run.services && name in again.services
    requires again.services[name] == Derived(run, name, units)
    requires !run.state.RunStopped? && !again.state.RunStopped?
    ensures Derived(again, name, units) == Derived(run, name, units)
  {
  }

  /** Reconciling a run that is not stopped is idempotent: a second pass changes nothing and emits nothing. */
  lemma {:induction false} ReconcileIdempotent(run: Run, units: Units, keys: seq<string>)
    requires Elems(keys) == run.services.Keys && !run.state.RunStopped?
    ensures var once := Reconciled(run, StatusOf(run, units), keys).0;
            && !once.state.RunStopped?
            && Reconciled(once, StatusOf(once, units), keys) == (once, [])
  {
    hide Derived;
    hide AnyBroken;
    hide AllReady;
    var status := StatusOf(run, units);
    ReconciledResult(run, units, keys);
    var once := Reconciled(run, status, keys).0;
    forall k | k in once.services
      ensures Derived(once, k, units) == status.services[k]
    {
      DerivedTwice(run, once, k, units);
    }
    assert StatusOf(once, units).services == status.services;
    ReconciledResult(once, units, keys);
  }

  /** With no failed-looking unit and the run at its aggregate, even the first pass does nothing. */
  lemma {:induction false} ReconcileNoOp(run: Run, units: Units, keys: seq<string>)
    requires Elems(keys) == run.services.Keys
    requires forall k :: k in run.services && k in units ==> !LooksFailed(units[k])
    requires run.state == Aggregate(run.services)
    ensures Reconciled(run, StatusOf(run, units), keys) == (run, [])
  {
    assert StatusOf(run, units).services == run.services;
    ReconciledResult(run, units, keys);
  }

  /**
   * A stopped run keeps its services, but stays stopped exactly when no service is broken and some service is
   * not ready. A stopped run with no services at all is therefore set running.
   */
  lemma {:induction false} ReconcileStopped(run: Run, units: Units, keys: seq<string>)
    requires Elems(keys) == run.services.Keys && run.state.RunStopped?
    ensures var once := Reconciled(run, StatusOf(run, units), keys).0;
            && once.services == run.services
            && (once.state.RunStopped? <==> !AnyBroken(run.services) && !AllReady(run.services))
            && (run.services == map[] ==> once.state.RunRunning?)
  {
    assert StatusOf(run, units).services == run.services;
    ReconciledResult(run, units, keys);
  }

  /** A run with one service that never failed. */
  function Alone(name: string, state: RunLifecycle, stoppedAt: bool, service: ServiceState): Run {
    Run(state, stoppedAt, map[name := Service(service, None)])
  }

  /** A run with one service is brought up and stopped, its service is restarted, and a fresh status is written back. */
  function ComebackSteps(name: string): seq<Step> {
    [LaunchResult(name, None), Down([name]), RestartBegins(name), MarkReady(name),
     Reconcile(StatusOf(Alone(name, RunStopped, true, Ready), map[]), [name])]
  }

  /**
   * A status taken while a run was stopped, and written back after its service was restarted, stops the run again
   * behind the mirror's back: whatever the mirror held, it agrees before that step and disagrees after it. The
   * reconciliation before it used a status of the run as it was.
   */
  lemma {:induction false} StaleStatusSplitsMirror(m: Mirror, name: string)
    requires m.run == Some(RunStarting)
    ensures var run := Run(RunStarting, false, map[]);
            var halted := Alone(name, RunStopped, true, ServiceState.Stopped);
            var stale := Reconcile(StatusOf(halted, map[]), [name]);
            && Sequence(run, ComebackSteps(name)[..2]) && TakeEach(run, ComebackSteps(name)[..2]).0 == halted
            && Sequence(run, ComebackSteps(name)[..4])
            && ComebackSteps(name)[4] == Reconcile(StatusOf(TakeEach(run, ComebackSteps(name)[..4]).0, map[]), [name])
            && Sequence(run, ComebackSteps(name))
            && var back := TakeEach(run, ComebackSteps(name));
               var mirror := Replay(m, back.1);
               && back.0.state.RunRunning? && Enabled(back.0, stale)
               && Agrees(mirror, back.0)
               && !Agrees(Replay(mirror, Take(back.0, stale).1), Take(back.0, stale).0)
  {
    var run := Run(RunStarting, false, map[]);
    var halted := Alone(name, RunStopped, true, ServiceState.Stopped);
    var stale := Reconcile(StatusOf(halted, map[]), [name]);
    ComebackRuns(name);
    StaleIsSilent(name);
    hide Take;
    hide Enabled;
    EventReplay(m, run, ComebackSteps(name));
    var back := TakeEach(run, ComebackSteps(name));
    StepReplays(Replay(m, back.1), back.0, stale);
  }

  lemma {:induction false} StaleIsSilent(name: string)
    ensures var back := Alone(name, RunRunning, true, Ready);
            var stale := Reconcile(StatusOf(Alone(name, RunStopped, true, ServiceState.Stopped), map[]), [name]);
            Enabled(back, stale) && SilentStop(back, stale)
  {
    var halted := Alone(name, RunStopped, true, ServiceState.Stopped);
    assert name in StatusOf(halted, map[]).services && Elems([name]) == {name};
  }

  lemma {:induction false} ComebackRuns(name: string)
    ensures var run := Run(RunStarting, false, map[]);
            && Sequence(run, ComebackSteps(name)[..2])
            && TakeEach(run, ComebackSteps(name)[..2]).0 == Alone(name, RunStopped, true, ServiceState.Stopped)
            && Sequence(run, ComebackSteps(name)[..4])
            && TakeEach(run, ComebackSteps(name)[..4]).0 == Alone(name, RunStopped, true, Ready)
            && Sequence(run, ComebackSteps(name)) && TakeEach(run, ComebackSteps(name)).0 == Alone(name, RunRunning, true, Ready)
  {
    var run := Run(RunStarting, false, map[]);
    var steps := ComebackSteps(name);
    LaunchedStopped(name);
    RestartedStopped(name);
    ReconciledAlone(name);
    hide Take;
    hide Enabled;
    hide Alone;
    StepsSnoc(run, [], steps[0]);
    StepsSnoc(run, [steps[0]], steps[1]);
    assert steps[..1] == [steps[0]] && steps[..2] == steps[..1] + [steps[1]] && steps[..3] == steps[..2] + [steps[2]];
    assert steps[..4] == steps[..3] + [steps[3]] && steps == steps[..4] + [steps[4]];
    StepsSnoc(run, steps[..2], steps[2]);
    StepsSnoc(run, steps[..3], steps[3]);
    StepsSnoc(run, steps[..4], steps[4]);
  }

  lemma {:induction false} LaunchedStopped(name: string)
    ensures var run := Run(RunStarting, false, map[]);
            && Enabled(run, LaunchResult(name, None))
            && Take(run, LaunchResult(name, None)).0 == Alone(name, RunStarting, false, Starting)
    ensures var started := Alone(name, RunStarting, false, Starting);
            && Enabled(started, Down([name]))
            && Take(started, Down([name])).0 == Alone(name, RunStopped, true, ServiceState.Stopped)
  {
    assert [name][..0] == [] && Elems([name]) == {name};
    var marked := Alone(name, RunStopped, true, Starting);
    assert StopAll(marked, []) == (marked, []);
    assert marked.services[name := Service(Stopped, None)] == map[name := Service(Stopped, None)];
  }

  lemma {:induction false} RestartedStopped(name: string)
    ensures var halted := Alone(name, RunStopped, true, ServiceState.Stopped);
            Enabled(halted, RestartBegins(name)) && Take(halted, RestartBegins(name)).0 == Alone(name, RunStopped, true, Starting)
    ensures var begun := Alone(name, RunStopped, true, Starting);
            Enabled(begun, MarkReady(name)) && Take(begun, MarkReady(name)).0 == Alone(name, RunStopped, true, Ready)
  {
    assert map[name := Service(Stopped, None)][name := Service(Starting, None)] == map[name := Service(Starting, None)];
    assert map[name := Service(Starting, None)][name := Service(Ready, None)] == map[name := Service(Ready, None)];
  }

  lemma {:induction false} ReconciledAlone(name: string)
    ensures var ready := Alone(name, RunStopped, true, Ready);
            var renewed := Reconcile(StatusOf(ready, map[]), [name]);
            && Enabled(ready, renewed) && !SilentStop(ready, renewed)
            && Take(ready, renewed).0 == Alone(name, RunRunning, true, Ready)
  {
    var ready := Alone(name, RunStopped, true, Ready);
    assert Elems([name]) == {name};
    assert StatusOf(ready, map[]).services == ready.services;
    ReconciledResult(ready, map[], [name]);
  }

  lemma {:induction false} StepsSnoc(run: Run, steps: seq<Step>, step: Step)
    requires Sequence(run, steps)
    requires Enabled(TakeEach(run, steps).0, step) && !SilentStop(TakeEach(run, steps).0, step)
    ensures Sequence(run, steps + [step])
    ensures TakeEach(run, steps + [step]).0 == Take(TakeEach(run, steps).0, step).0
    decreases |steps|
  {
    hide Take;
    hide Enabled;
    hide SilentStop;
    if steps == [] {
      OneStep(run, step);
      assert [] + [step] == [step];
    } else {
      StepsSnoc(Take(run, steps[0]).0, steps[1..], step);
      ConsAppend(steps, [step]);
    }
  }

  /** A stopped run takes no notice of its services until it is revived; from then on it follows them. */
  lemma {:induction false} RevivedFollowsServices(run: Run, step: Step)
    requires run.state.RunStopped? && Enabled(run, step) && Recomputes(step)
    ensures Take(run, step).0.state.RunStopped?
    ensures var revived := Take(run, Revive).0;
            && revived.services == run.services && Enabled(revived, step)
            && Take(revived, step).0.state == Aggregate(Take(revived, step).0.services)
  {
    RecomputedIsAggregate(run, step);
    RecomputedIsAggregate(run.(state := RunStarting, stoppedAt := false), step);
    hide Aggregate;
    hide Put;
  }

  /** A failed init task degrades a live run at its next recomputation, whatever its other services do. */
  lemma {:induction false} FailedInitDegrades(run: Run, name: string, reason: string)
    requires !run.state.RunStopped?
    ensures var failed := Take(run, InitFailed(name, reason)).0;
            && Take(failed, FinishLaunch).0.state.RunDegraded?
            && (forall k :: k in run.services && k != name ==> k in failed.services && failed.services[k] == run.services[k])
  {
    var failed := Take(run, InitFailed(name, reason)).0;
    assert name in failed.services && Broken(failed.services[name].state);
  }
}
