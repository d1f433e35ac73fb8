/** What a run's records, its launch plan and its manifest on disk claim of the port registry. */
module RunRecords {
  import opened Common
  import opened PortRegistry
  import opened PortOwners
  import opened RunPorts
  import opened RunStates
  import Planner

  // ---- Configuration, records, manifests ----

  datatype ServiceConfig = ServiceConfig(
    port: Option<PortConfig>, scheme: Option<string>, captureApi: Option<bool>, httpReadiness: bool, hasInit: bool,
    deps: seq<string>)

  predicate CaptureEnabled(svc: ServiceConfig, hasPort: bool) {
    && svc.captureApi != Some(false)
    && hasPort
    && (svc.scheme.None? || svc.scheme.value == "http")
    && (svc.captureApi == Some(true) || svc.scheme == Some("http") || svc.httpReadiness)
  }

  /** A hash that covers both ports and everything else that is hashed, without collisions. */
  datatype WatchHash = WatchHash(port: Option<Port>, listen: Option<Port>, rest: string)

  datatype Record = Record(port: Option<Port>, listen: Option<Port>, capture: bool, hash: WatchHash, state: ServiceState)

  datatype Manifest = Manifest(restorable: bool, services: map<string, Record>)

  /** The two port maps a launch works from. */
  datatype Resources = Resources(ports: map<string, Option<Port>>, listens: map<string, Option<Port>>)

  function Get(m: map<string, Option<Port>>, name: string): Option<Port> {
    if name in m then m[name] else None
  }

  // ---- Claims that records and plans stand for ----

  /** A service with these ports claims its public port, and its listen port when that is another one. */
  predicate ClaimOf(c: Claim, port: Option<Port>, listen: Option<Port>) {
    match c.role
    case Public => port == Some(c.port)
    case Backend => listen == Some(c.port) && listen != port
  }

  /** The public claim of one service, if any. */
  ghost function PublicOf(name: string, port: Option<Port>): iset<Claim> {
    iset c: Claim | c.role.Public? && c.service == name && ClaimOf(c, port, None)
  }

  /** The backend claim of one service, if any. */
  ghost function BackendOf(name: string, port: Option<Port>, listen: Option<Port>): iset<Claim> {
    iset c: Claim | c.role.Backend? && c.service == name && ClaimOf(c, port, listen)
  }

  lemma {:induction false} SinglePublic(name: string, port: Option<Port>)
    ensures PublicOf(name, port) == if port.Some? then iset{Claim(port.value, Public, name)} else iset{}
  {
  }

  lemma {:induction false} SingleBackend(name: string, port: Option<Port>, listen: Option<Port>)
    ensures BackendOf(name, port, listen)
         == if listen.Some? && listen != port then iset{Claim(listen.value, Backend, name)} else iset{}
  {
  }

  ghost function Recorded(records: map<string, Record>): iset<Claim> {
    iset c: Claim | c.service in records && ClaimOf(c, records[c.service].port, records[c.service].listen)
  }

  ghost function Planned(r: Resources): iset<Claim> {
    iset c: Claim | c.service in r.ports && ClaimOf(c, r.ports[c.service], Get(r.listens, c.service))
  }

  ghost function BackendClaims(r: Resources): iset<Claim> {
    iset c: Claim | c.role.Backend? && c.service in r.listens && ClaimOf(c, Get(r.ports, c.service), r.listens[c.service])
  }

  /** The recorded claims that a port sync repeats: backends only of services marked as captured. */
  ghost function Marked(services: map<string, Record>): iset<Claim> {
    iset c: Claim | c in Recorded(services) && (c.role.Backend? ==> services[c.service].capture)
  }

  /** What the manifest on disk makes a port sync reserve. */
  ghost function ManifestClaims(m: Option<Manifest>): iset<Claim> {
    if m.Some? && m.value.restorable then Marked(m.value.services) else iset{}
  }

  /** Whether a manifest makes a port sync reserve this claim. */
  predicate Listed(m: Manifest, c: Claim) {
    && m.restorable && c.service in m.services
    && ClaimOf(c, m.services[c.service].port, m.services[c.service].listen)
    && (c.role.Backend? ==> m.services[c.service].capture)
  }

  /** Everything a sync may reserve that works from one of these manifests. */
  ghost function ExposedBy(written: seq<Manifest>): iset<Claim> {
    iset c: Claim | ListedByAny(written, c)
  }

  predicate ListedByAny(written: seq<Manifest>, c: Claim) {
    exists m :: m in written && Listed(m, c)
  }

  /** A stopped run's manifest lists nothing. */
  lemma {:induction false} StoppedExposesNothing(written: seq<Manifest>, services: map<string, Record>)
    ensures ExposedBy(written + [Manifest(false, services)]) == ExposedBy(written)
  {
    forall c: Claim
      ensures ListedByAny(written + [Manifest(false, services)], c) <==> ListedByAny(written, c)
    {
      if ListedByAny(written, c) {
        var n :| n in written && Listed(n, c);
        assert n in written + [Manifest(false, services)];
      }
    }
  }

  lemma {:induction false} ExposedGrow(written: seq<Manifest>, m: Manifest)
    ensures ExposedBy(written) <= ExposedBy(written + [m])
    ensures ExposedBy([m]) == ManifestClaims(Some(m))
    ensures ExposedBy([]) == iset{}
  {
    forall c: Claim
      ensures ListedByAny(written, c) ==> ListedByAny(written + [m], c)
      ensures ListedByAny([m], c) <==> Listed(m, c)
    {
      if ListedByAny(written, c) {
        var n :| n in written && Listed(n, c);
        assert n in written + [m];
      }
      assert m in [m];
    }
  }

  /** What other runs' syncs try to take back for this run in between. */
  ghost function SyncedIn(others: seq<Other>): iset<Claim> {
    iset c: Claim | SyncNames(others, c)
  }

  ghost predicate SyncNames(others: seq<Other>, c: Claim) {
    exists os: Os :: Sync(c, os) in others
  }

  /** The registry transactions among what happens in between: a sync can only repeat what some manifest lists. */
  function Slipped(others: seq<Other>, written: seq<Manifest>, runId: string, daemon: nat): seq<Transaction> {
    if others == [] then []
    else
      var before := Slipped(others[..|others| - 1], written, runId, daemon);
      match others[|others| - 1]
      case Elsewhere(t) => before + [t]
      case Sync(c, os) => if ListedByAny(written, c) then before + [SyncOf(c, os, runId, daemon)] else before
  }

  /** What happens in between takes nothing from a run, and adds nothing but claims that a sync names and a manifest lists. */
  lemma {:induction false} SlippedKeeps(stored: Registry, others: seq<Other>, written: seq<Manifest>, runId: string, daemon: nat)
    requires OwnedBy(stored, runId, daemon)
    requires forall o :: o in others ==> ProperOther(o, runId, daemon)
    requires forall m :: m in written ==> AllPlain(m.services.Keys)
    ensures var after := CommittedAll(stored, Slipped(others, written, runId, daemon));
            && OwnedBy(after, runId, daemon)
            && HeldBy(stored, runId) <= HeldBy(after, runId) <= HeldBy(stored, runId) + ExposedBy(written) * SyncedIn(others)
  {
    hide OwnedBy;
    hide HeldBy;
    hide Committed;
    hide Foreign;
    hide OwnerOf;
    if others != [] {
      var init, last := others[..|others| - 1], others[|others| - 1];
      SlippedKeeps(stored, init, written, runId, daemon);
      HeadLast(others);
      SyncedMore(init, last);
      var ts := Slipped(init, written, runId, daemon);
      var middle := CommittedAll(stored, ts);
      assert last in others;
      match last {
        case Elsewhere(t) =>
          CommittedSnoc(stored, ts, t);
          ForeignKeeps(middle, t, runId, daemon);
        case Sync(c, os) =>
          if ListedByAny(written, c) {
            var t := SyncOf(c, os, runId, daemon);
            ListedIsPlain(written, c);
            CommittedSnoc(stored, ts, t);
            OwnReserve(middle, t, runId, c);
            assert c in ExposedBy(written) && SyncNames(others, c);
          }
      }
    }
  }

  lemma {:induction false} SyncedMore(others: seq<Other>, last: Other)
    ensures SyncedIn(others) <= SyncedIn(others + [last])
  {
    forall c: Claim | SyncNames(others, c)
      ensures SyncNames(others + [last], c)
    {
      var os: Os :| Sync(c, os) in others;
      assert Sync(c, os) in others + [last];
    }
  }

  lemma {:induction false} CommittedSnoc(stored: Registry, ts: seq<Transaction>, t: Transaction)
    ensures CommittedAll(stored, ts + [t]) == Committed(CommittedAll(stored, ts), t)
  {
    hide Committed;
    assert (ts + [t])[..|ts|] == ts;
  }

  lemma {:induction false} ListedIsPlain(written: seq<Manifest>, c: Claim)
    requires ListedByAny(written, c) && forall m :: m in written ==> AllPlain(m.services.Keys)
    ensures Plain(c.service)
  {
  }

  /** A sync that comes between a release and the manifest write is enough: the claim is held again. */
  lemma {:induction false} SlippedSyncTakesBack(stored: Registry, written: seq<Manifest>, runId: string, c: Claim,
                                                release: Transaction, os: Os)
    requires Holds(stored, runId, c) && OwnedBy(stored, runId, release.daemon)
    requires release.daemon in release.os.alive && release.daemon in os.alive
    requires release.action == Release(c.port, OwnerOf(runId, c.role, c.service))
    requires ListedByAny(written, c)
    ensures var released := Committed(stored, release);
            && !Holds(released, runId, c)
            && Holds(CommittedAll(released, Slipped([Sync(c, os)], written, runId, release.daemon)), runId, c)
  {
    SyncTakesBack(stored, runId, c, release, os);
    hide Holds;
    var t := SyncOf(c, os, runId, release.daemon);
    assert [Sync(c, os)][..0] == [];
    CommittedSnoc(Committed(stored, release), [], t);
    assert [] + [t] == [t];
  }

  /** A record with a listen port of its own is marked as captured. */
  ghost predicate CaptureMarked(records: map<string, Record>) {
    forall s :: s in records && records[s].listen != records[s].port ==> records[s].capture
  }

  lemma {:induction false} MarkedIsRecorded(records: map<string, Record>)
    requires CaptureMarked(records)
    ensures Marked(records) == Recorded(records)
  {
  }

  /** Old claims of the named services that the new ports do not renew. */
  ghost function Obsolete(names: set<string>, existing: map<string, Record>, r: Resources): iset<Claim> {
    iset c: Claim |
      c.service in names && c.service in existing
      && ClaimOf(c, existing[c.service].port, existing[c.service].listen)
      && !ClaimOf(c, Get(r.ports, c.service), Get(r.listens, c.service))
  }

  /** What the clean-up of a failed launch gives up for one service, given the ports it wants to preserve. */
  predicate GivenUp(c: Claim, port: Option<Port>, listen: Option<Port>, keptPort: Option<Port>, keptListen: Option<Port>) {
    match c.role
    case Public => port == Some(c.port) && keptPort != port
    case Backend =>
      || (keptListen == Some(c.port) && keptListen != keptPort && keptListen != listen)
      || (listen == Some(c.port) && listen != port && keptListen != listen)
  }

  ghost function GivenUpOf(name: string, port: Option<Port>, listen: Option<Port>, keptPort: Option<Port>,
                           keptListen: Option<Port>): iset<Claim> {
    iset c: Claim | c.service == name && GivenUp(c, port, listen, keptPort, keptListen)
  }

  ghost function Unpreserved(names: set<string>, r: Resources, kept: map<string, Record>): iset<Claim> {
    iset c: Claim |
      c.service in names
      && GivenUp(c, Get(r.ports, c.service), Get(r.listens, c.service),
                 if c.service in kept then kept[c.service].port else None,
                 if c.service in kept then kept[c.service].listen else None)
  }

  /** The hash of every record covers the record's own ports. */
  ghost predicate HashesCover(records: map<string, Record>) {
    forall s :: s in records ==> records[s].hash.port == records[s].port && records[s].hash.listen == records[s].listen
  }

  function Restrict(records: map<string, Record>, names: set<string>): map<string, Record> {
    map s | s in records && s in names :: records[s]
  }

  lemma {:induction false} GivenUpParts(name: string, port: Option<Port>, listen: Option<Port>, keptPort: Option<Port>,
                                        keptListen: Option<Port>)
    ensures GivenUpOf(name, port, listen, keptPort, keptListen)
         == (if keptListen != listen then BackendOf(name, keptPort, keptListen) + BackendOf(name, port, listen) else iset{})
            + (if keptPort != port then PublicOf(name, port) else iset{})
  {
  }

  lemma {:induction false} UnpreservedGrow(names: set<string>, name: string, r: Resources, kept: map<string, Record>)
    ensures Unpreserved(names + {name}, r, kept)
         == Unpreserved(names, r, kept)
            + GivenUpOf(name, Get(r.ports, name), Get(r.listens, name),
                        if name in kept then kept[name].port else None, if name in kept then kept[name].listen else None)
  {
  }

  lemma {:induction false} RecordedGrow(snapshot: map<string, Record>, names: set<string>, name: string)
    requires name in snapshot
    ensures Recorded(Restrict(snapshot, names + {name}))
         == Recorded(Restrict(snapshot, names))
            + BackendOf(name, snapshot[name].port, snapshot[name].listen) + PublicOf(name, snapshot[name].port)
  {
  }

  /** Another living owner holds a port that a sync would reserve for this service. */
  predicate SyncBlocked(stored: Registry, runId: string, name: string, record: Record, alive: set<nat>) {
    || (record.port.Some? && TakenByOther(stored, record.port.value, OwnerOf(runId, Public, name), alive))
    || (record.listen.Some? && record.capture && record.listen != record.port
        && TakenByOther(stored, record.listen.value, OwnerOf(runId, Backend, name), alive))
  }

  /** What a port sync reserves for one service. */
  ghost function MarkedOf(name: string, record: Record): iset<Claim> {
    PublicOf(name, record.port) + (if record.capture then BackendOf(name, record.port, record.listen) else iset{})
  }

  lemma {:induction false} MarkedGrow(services: map<string, Record>, names: set<string>, name: string)
    requires name in services
    ensures Marked(Restrict(services, names + {name})) == Marked(Restrict(services, names)) + MarkedOf(name, services[name])
  {
  }

  lemma {:induction false} MarkedIncludes(services: map<string, Record>, names: set<string>)
    ensures Marked(Restrict(services, names)) <= Marked(services)
  {
  }

  lemma {:induction false} RestrictKeys(records: map<string, Record>, names: set<string>)
    ensures Restrict(records, names).Keys == records.Keys * names
  {
  }

  lemma {:induction false} RestrictAll(records: map<string, Record>)
    ensures Restrict(records, records.Keys) == records
    ensures Restrict(records, {}) == map[]
  {
  }

  /** The claims of a listed service are among those of any larger list. */
  lemma {:induction false} RecordedIncludes(snapshot: map<string, Record>, names: set<string>, name: string)
    requires name in snapshot && name in names
    ensures BackendOf(name, snapshot[name].port, snapshot[name].listen) + PublicOf(name, snapshot[name].port)
         <= Recorded(Restrict(snapshot, names))
  {
  }

  /** Claims of a service outside a list are not claimed by the list. */
  lemma {:induction false} RecordedExcludes(snapshot: map<string, Record>, names: set<string>, name: string)
    requires name in snapshot && name !in names
    ensures BackendOf(name, snapshot[name].port, snapshot[name].listen) !! Recorded(Restrict(snapshot, names))
    ensures PublicOf(name, snapshot[name].port) !! Recorded(Restrict(snapshot, names))
    ensures BackendOf(name, snapshot[name].port, snapshot[name].listen) !! PublicOf(name, snapshot[name].port)
  {
  }

  // ---- Replacing one service's claims ----

  /** Whether a prepared service has to be started again. */
  predicate NeedsRestart(force: bool, existing: map<string, Record>, name: string, hash: WatchHash) {
    || force
    || name !in existing
    || existing[name].hash != hash
    || existing[name].state.Stopped? || existing[name].state.Failed? || existing[name].state.Degraded?
  }

  /**
   * How a launch has left the services it got done: it attempted all but those that are on record as starting or ready
   * with the hash they have now, unless forced; these keep their state, and an attempt ends in no other state than
   * failed, or starting when the launch does not wait and ready when it does.
   */
  ghost predicate Relaunched(existing: map<string, Record>, before: map<string, Record>, records: map<string, Record>,
                             done: set<string>, attempted: set<string>, force: bool, noWait: bool) {
    forall s :: s in done ==>
      && s in records
      && (s !in attempted <==> !force && s in existing && existing[s].state in {Starting, Ready}
                               && existing[s].hash == records[s].hash)
      && (s !in attempted ==> s in before && records[s].state == before[s].state)
      && (s in attempted ==> records[s].state in {ServiceState.Failed, if noWait then Starting else Ready})
  }

  lemma {:induction false} RelaunchedStep(existing: map<string, Record>, before: map<string, Record>, now: map<string, Record>,
                                          records: map<string, Record>, done: set<string>, attempted: set<string>, name: string,
                                          attempt: bool, force: bool, noWait: bool)
    requires Relaunched(existing, before, now, done, attempted, force, noWait) && name !in done && name !in attempted
    requires name in records && records == now[name := records[name]]
    requires name in before ==> name in now && now[name] == before[name]
    requires attempt <==> !(!force && name in existing && existing[name].state in {Starting, Ready}
                            && existing[name].hash == records[name].hash)
    requires !attempt ==> name in before && records[name].state == before[name].state
    requires attempt ==> records[name].state in {ServiceState.Failed, if noWait then Starting else Ready}
    ensures Relaunched(existing, before, records, done + {name}, attempted + (if attempt then {name} else {}), force, noWait)
  {
  }

  /** An attempt that leaves no record changes nothing about those done. */
  lemma {:induction false} RelaunchedStay(existing: map<string, Record>, before: map<string, Record>, records: map<string, Record>,
                                          done: set<string>, attempted: set<string>, more: set<string>, name: string, force: bool,
                                          noWait: bool)
    requires Relaunched(existing, before, records, done, attempted, force, noWait) && name !in done
    requires attempted <= more <= attempted + {name}
    ensures Relaunched(existing, before, records, done, more, force, noWait)
  {
  }

  lemma {:induction false} NothingLaunched(existing: map<string, Record>, services: map<string, ServiceConfig>, r: Resources,
                                           records: map<string, Record>, force: bool, noWait: bool)
    ensures Obsolete({} - {}, existing, r) == iset{} && Replaced(records, records, {}, r)
    ensures AllFailed({}, services, records) && Relaunched(existing, records, records, {}, {}, force, noWait)
  {
    assert Obsolete({}, existing, r) == iset{};
  }

  /** After a refresh nothing is left stopped or degraded, and a failure on record is the outcome of a new attempt. */
  lemma {:induction false} NothingLeftBroken(existing: map<string, Record>, names: set<string>, records: map<string, Record>,
                                             attempted: set<string>, force: bool, noWait: bool)
    requires Relaunched(existing, Restrict(existing, names), records, names, attempted, force, noWait)
    requires records.Keys == names
    ensures forall s :: s in records ==> records[s].state in {Starting, Ready, ServiceState.Failed}
    ensures forall s :: s in records && records[s].state == ServiceState.Failed ==> s in attempted
  {
  }

  /** The services whose launch was begun are the first of the plan's order; only the last may be without a record. */
  ghost predicate Begun(launches: seq<string>, order: seq<string>, done: set<string>, all: bool) {
    && launches <= order
    && (all ==> launches == order)
    && (done == Elems(launches) || (!all && launches != [] && done == Elems(launches[..|launches| - 1])))
  }

  lemma {:induction false} BegunNext(order: seq<string>, i: nat)
    requires i < |order|
    ensures order[..i] + [order[i]] == order[..i + 1] && Elems(order[..i] + [order[i]]) == Elems(order[..i]) + {order[i]}
    ensures Begun(order[..i] + [order[i]], order, Elems(order[..i]), false)
    ensures Begun(order[..i] + [order[i]], order, Elems(order[..i]) + {order[i]}, false)
  {
    ElemsAppend(order[..i], order[i]);
    assert order[..i + 1][..i] == order[..i];
  }

  lemma {:induction false} BegunNone(order: seq<string>)
    ensures Begun(order, order, Elems(order), true) && order[..|order|] == order
  {
  }

  /** The dependencies of the planned services. */
  function PlanOf(services: map<string, ServiceConfig>): (plan: Planner.Services)
    ensures plan.Keys == services.Keys
  {
    map s | s in services :: Planner.Service(services[s].deps)
  }

  /** What a launch has done is closed under the dependencies within the plan. */
  ghost predicate DepsDone(services: map<string, ServiceConfig>, done: set<string>) {
    forall s, d :: s in done && s in services && d in services[s].deps && d in services ==> d in done
  }

  /** Each service launched had all its dependencies launched before it, successfully enough for the launch to go on. */
  ghost predicate DepsLaunched(services: map<string, ServiceConfig>, launches: seq<string>, done: set<string>) {
    forall i, d :: 0 <= i < |launches| && launches[i] in services && d in services[launches[i]].deps && d in services
                   ==> d in launches[..i] && d in done
  }

  /** With a dependency-first order that is so however far the launch got. */
  lemma {:induction false} LaunchedInOrder(services: map<string, ServiceConfig>, order: seq<string>, launches: seq<string>,
                                           done: set<string>, all: bool)
    requires Planner.IsTopoOrder(PlanOf(services), order) && Begun(launches, order, done, all)
    ensures DepsLaunched(services, launches, done) && DepsDone(services, done)
  {
    forall i, d | 0 <= i < |launches| && launches[i] in services && d in services[launches[i]].deps && d in services
      ensures d in launches[..i] && d in done
    {
      assert launches[i] == order[i] && launches[..i] == order[..i];
      assert d in PlanOf(services)[order[i]].deps;
      assert d in order[..i];
      var j :| 0 <= j < i && order[..i][j] == d;
      assert launches[j] == d && launches[..|launches| - 1][j] == d;
    }
    forall s, d | s in done && s in services && d in services[s].deps && d in services
      ensures d in done
    {
      var i :| 0 <= i < |launches| && launches[i] == s;
    }
  }

  /**
   * Every fixed port that a service asks for and does not have on record is one the system reported as free, or one
   * that this service held already or that a manifest lists for it.
   */
  ghost predicate FixedChecked(services: map<string, ServiceConfig>, existing: map<string, Record>, names: set<string>,
                               own: iset<Claim>, listed: iset<Claim>, free: iset<Port>) {
    forall s, p: Port ::
      s in names && s in services && services[s].port == Some(Fixed(p)) && PreviousPort(existing, s) != Some(p) ==>
        p in free || Claim(p, Public, s) in own || Claim(p, Public, s) in listed
  }

  lemma {:induction false} FixedCheckedNext(services: map<string, ServiceConfig>, existing: map<string, Record>,
                                            ports: map<string, Option<Port>>, name: string, own: iset<Claim>,
                                            listed: iset<Claim>, before: iset<Port>, free: iset<Port>)
    requires FixedChecked(services, existing, ports.Keys, own, listed, before) && before <= free && name !in ports
    requires name in services
    requires forall p: Port :: services[name].port == Some(Fixed(p)) && PreviousPort(existing, name) != Some(p) ==>
               p in free || Claim(p, Public, name) in own + PublicClaims(ports) || Claim(p, Public, name) in listed
    ensures FixedChecked(services, existing, ports.Keys + {name}, own, listed, free)
  {
  }

  lemma {:induction false} FixedCheckedMore(services: map<string, ServiceConfig>, existing: map<string, Record>, names: set<string>,
                                            own: iset<Claim>, listed: iset<Claim>, free: iset<Port>, more: iset<Claim>,
                                            later: iset<Port>)
    requires FixedChecked(services, existing, names, own, listed, free)
    requires own <= more + listed && free <= later
    ensures FixedChecked(services, existing, names, more, listed, later)
  {
  }

  /** What a launch releases of a service's previous ports. */
  ghost function Dropped(name: string, port: Option<Port>, listen: Option<Port>, existing: map<string, Record>): iset<Claim> {
    if name !in existing then iset{}
    else
      (if existing[name].port != port then PublicOf(name, existing[name].port) else iset{})
      + (if existing[name].listen != listen then BackendOf(name, existing[name].port, existing[name].listen) else iset{})
  }

  /** With the new ports held, what is released is all of the old ports that the new ones do not renew. */
  lemma {:induction false} DroppedIsObsolete(stored: Registry, runId: string, own: iset<Claim>, name: string, r: Resources,
                                             existing: map<string, Record>)
    requires own <= HeldBy(stored, runId) && name in r.ports && name in r.listens
    requires PublicOf(name, r.ports[name]) + BackendOf(name, r.ports[name], r.listens[name]) <= own
    ensures own - Dropped(name, r.ports[name], r.listens[name], existing) == own - Obsolete({name}, existing, r)
  {
    hide Holds;
    forall c: Claim | c in own
      ensures c in Dropped(name, r.ports[name], r.listens[name], existing) <==> c in Obsolete({name}, existing, r)
    {
      if r.ports[name].Some? {
        var public := Claim(r.ports[name].value, Public, name);
        assert public in PublicOf(name, r.ports[name]);
        if public.port == c.port {
          OneClaimPerPort(stored, runId, c, public);
        }
      }
    }
  }

  /** A service whose ports stay gives nothing up. */
  lemma {:induction false} SamePortsKeepAll(name: string, r: Resources, existing: map<string, Record>)
    requires name in existing && name in r.ports && name in r.listens
    requires existing[name].port == r.ports[name] && existing[name].listen == r.listens[name]
    ensures Obsolete({name}, existing, r) == iset{}
  {
  }

  /** For a new run, of which nothing is listed, every fixed port was free. */
  lemma {:induction false} FixedAllFree(services: map<string, ServiceConfig>, listed: iset<Claim>, free: iset<Port>)
    requires FixedChecked(services, map[], services.Keys, iset{}, listed, free) && listed == iset{}
    ensures forall s, p: Port :: s in services && services[s].port == Some(Fixed(p)) ==> p in free
  {
  }

  /** A service stays untouched exactly when it is live on record with the same hash, and then its ports stay. */
  lemma {:induction false} KeptService(force: bool, existing: map<string, Record>, name: string, hash: WatchHash, r: Resources)
    requires HashesCover(existing) && name in r.ports && name in r.listens
    requires hash.port == r.ports[name] && hash.listen == r.listens[name]
    ensures existing != map[] && !NeedsRestart(force, existing, name, hash)
       <==> !force && name in existing && existing[name].state in {Starting, Ready} && existing[name].hash == hash
    ensures name in existing && existing[name].hash == hash ==> Obsolete({name}, existing, r) == iset{}
  {
    if name in existing && existing[name].hash == hash {
      SamePortsKeepAll(name, r, existing);
    }
  }

  /** New claims are never obsolete, so what is held of them stays held. */
  lemma {:induction false} PlannedStay(name: string, names: set<string>, existing: map<string, Record>, r: Resources,
                                       held: iset<Claim>)
    requires Planned(r) <= held && name in r.ports && name in r.listens
    ensures PublicOf(name, r.ports[name]) + BackendOf(name, r.ports[name], r.listens[name])
         <= held - Obsolete(names, existing, r)
  {
  }

  /** A service's old claims are untouched while only others are launched. */
  lemma {:induction false} ExistingStay(name: string, names: set<string>, existing: map<string, Record>, r: Resources,
                                        keys: set<string>, held: iset<Claim>)
    requires name in keys && name !in names
    ensures Recorded(Restrict(existing, keys)) <= held && name in existing ==>
              PublicOf(name, existing[name].port) + BackendOf(name, existing[name].port, existing[name].listen)
              <= held - Obsolete(names, existing, r)
  {
  }

  lemma {:induction false} ObsoleteStep(done: set<string>, initFailed: set<string>, name: string, existing: map<string, Record>,
                                        r: Resources)
    requires initFailed <= done && name !in done
    ensures Obsolete(done + {name} - initFailed, existing, r)
         == Obsolete(done - initFailed, existing, r) + Obsolete({name}, existing, r)
    ensures done + {name} - (initFailed + {name}) == done - initFailed
  {
    assert done + {name} - initFailed == (done - initFailed) + {name};
  }

  lemma {:induction false} MinusTwice(a: iset<Claim>, b: iset<Claim>, c: iset<Claim>)
    ensures a - b - c == a - (b + c)
    ensures c == iset{} ==> a - (b + c) == a - b
  {
  }

  /** `done` services have their planned ports on record, all others what they had. */
  ghost predicate Replaced(before: map<string, Record>, after: map<string, Record>, done: set<string>, r: Resources) {
    && after.Keys == before.Keys + done
    && (forall s :: s in done ==> after[s].port == Get(r.ports, s) && after[s].listen == Get(r.listens, s))
    && (forall s :: s in before && s !in done ==> after[s] == before[s])
  }

  /** Every record has its planned ports. */
  ghost predicate Matches(records: map<string, Record>, r: Resources) {
    forall s :: s in records ==> records[s].port == Get(r.ports, s) && records[s].listen == Get(r.listens, s)
  }

  lemma {:induction false} ReplacedMatches(before: map<string, Record>, after: map<string, Record>, done: set<string>, r: Resources)
    requires Replaced(before, after, done, r)
    ensures after.Keys == before.Keys + done
    ensures before.Keys <= done ==> Matches(after, r)
  {
  }

  lemma {:induction false} ReplacedNew(records: map<string, Record>, done: set<string>, r: Resources)
    requires Replaced(map[], records, done, r)
    ensures records.Keys == done
  {
  }

  lemma {:induction false} ReplacedStep(before: map<string, Record>, now: map<string, Record>, done: set<string>, name: string,
                                        r: Resources)
    requires Replaced(before, now, done, r)
    ensures before.Keys <= now.Keys
    ensures forall record: Record :: record.port == Get(r.ports, name) && record.listen == Get(r.listens, name) ==>
              Replaced(before, now[name := record], done + {name}, r)
    ensures name in before && name !in done ==> name in now && now[name] == before[name]
  {
  }

  /** Services whose init tasks failed: they have some, and their records say failed. */
  ghost predicate AllFailed(names: set<string>, services: map<string, ServiceConfig>, records: map<string, Record>) {
    forall s :: s in names ==> s in services && services[s].hasInit && s in records && records[s].state.Failed?
  }

  lemma {:induction false} AllFailedStep(names: set<string>, services: map<string, ServiceConfig>, before: map<string, Record>,
                                         after: map<string, Record>, name: string)
    requires AllFailed(names, services, before) && name !in names
    requires name in after && after == before[name := after[name]]
    ensures AllFailed(names, services, after)
    ensures name in services && services[name].hasInit && after[name].state.Failed? ==> AllFailed(names + {name}, services, after)
  {
  }

  // ---- Owned and taken-back claims ----

  /** More is held, and what is new counts as taken back: the rest is as before. */
  lemma {:induction false} AskedOwn(before: iset<Claim>, after: iset<Claim>, back: iset<Claim>)
    requires before <= after && back <= before
    ensures after - (back + (after - before)) == before - back
    ensures back + (after - before) <= after
    ensures after - before == iset{} <==> after == before
    ensures back + (after - before) == back <==> after == before
  {
    if after != before {
      var c :| c in after && c !in before;
      assert c in back + (after - before) && c !in back;
    }
  }

  lemma {:induction false} TakenOwn(held: iset<Claim>, back: iset<Claim>, more: iset<Claim>)
    requires back <= held
    ensures (held + more) - (back - more) == (held - back) + more
    ensures back - more <= held + more
  {
  }

  lemma {:induction false} DroppedOwn(held: iset<Claim>, back: iset<Claim>, less: iset<Claim>)
    requires back <= held
    ensures (held - less) - (back - less) == (held - back) - less
    ensures back - less <= held - less
    ensures less <= held - back ==> back - less == back
  {
  }

  /** Nothing taken back was lost again, and more was taken back exactly when it happened more often. */
  ghost predicate Grown(back: iset<Claim>, times: nat, backAfter: iset<Claim>, timesAfter: nat) {
    && back <= backAfter && times <= timesAfter
    && (back == backAfter <==> times == timesAfter)
  }

  lemma {:induction false} Overwritten(records: map<string, Record>, name: string, first: Record, second: Record)
    ensures records[name := first][name := second] == records[name := second]
    ensures name in records[name := second] && records[name := second][name] == second
  {
  }

  // ---- A whole refresh or first launch ----

  /**
   * What a refresh holds when it starts to launch: removed services' ports are released first, then the manifest
   * still on disk is synced, then the new ports are taken.
   */
  ghost function BeforeLaunch(held: iset<Claim>, existing: map<string, Record>, keys: set<string>, manifest: Option<Manifest>,
                              r: Resources): iset<Claim> {
    held - Recorded(Restrict(existing, existing.Keys - keys)) + ManifestClaims(manifest) + Planned(r)
  }

  /** With every service replaced, the records claim exactly the plan. */
  lemma {:induction false} ReplacedClaims(before: map<string, Record>, after: map<string, Record>, r: Resources)
    requires r.ports.Keys == r.listens.Keys && before.Keys <= r.ports.Keys
    requires Replaced(before, after, r.ports.Keys, r)
    ensures Recorded(after) == Planned(r)
  {
  }

  /** A first launch gives up nothing old, and cleaning up after it leaves what the services recorded so far claim. */
  lemma {:induction false} FirstLaunchClaims(records: map<string, Record>, done: set<string>, names: set<string>, r: Resources)
    requires r.ports.Keys == r.listens.Keys && done <= r.ports.Keys
    requires Replaced(map[], records, done, r)
    ensures Planned(r) - Obsolete(names, map[], r) == Planned(r)
    ensures Planned(r) - Obsolete(names, map[], r) - Unpreserved(r.ports.Keys, r, records) == Recorded(records)
  {
  }

  /** Clean-up before anything is recorded leaves nothing. */
  lemma {:induction false} NothingPreserved(r: Resources)
    requires r.listens == map[] || r.listens.Keys == r.ports.Keys
    ensures PublicClaims(r.ports) + BackendClaims(r) - Unpreserved(r.ports.Keys, r, map[]) == iset{}
    ensures BackendClaims(Resources(r.ports, map[])) == iset{}
  {
  }

  /** Old claims of services that stay are held when the launch starts. */
  lemma {:induction false} StayingAreHeld(held: iset<Claim>, existing: map<string, Record>, keys: set<string>,
                                          manifest: Option<Manifest>, r: Resources)
    requires Recorded(existing) <= held
    ensures Recorded(Restrict(existing, keys)) <= BeforeLaunch(held, existing, keys, manifest, r)
    ensures Recorded(Restrict(existing, existing.Keys - keys)) <= held
  {
  }

  lemma {:induction false} BeforeLaunchIs(held: iset<Claim>, existing: map<string, Record>, keys: set<string>,
                                          manifest: Option<Manifest>, r: Resources)
    ensures BeforeLaunch(held, existing, keys, manifest, r)
         == held - Recorded(Restrict(existing, existing.Keys - keys)) + ManifestClaims(manifest) + Planned(r)
  {
  }

  /** No port occurs in two of these claims. */
  ghost predicate OnePerPort(claims: iset<Claim>) {
    forall c: Claim, d: Claim :: c in claims && d in claims && c.port == d.port ==> c == d
  }

  lemma {:induction false} HeldOnePerPort(stored: Registry, runId: string, claims: iset<Claim>)
    requires claims <= HeldBy(stored, runId)
    ensures OnePerPort(claims)
  {
    hide Holds;
    forall c: Claim, d: Claim | c in claims && d in claims && c.port == d.port
      ensures c == d
    {
      OneClaimPerPort(stored, runId, c, d);
    }
  }

  /** A configuration asks for a fixed port that is on record for another service, or as its own backend port. */
  ghost predicate TakesOver(services: map<string, ServiceConfig>, existing: map<string, Record>) {
    exists c: Claim, name: string :: c in Recorded(existing) && AsksFor(services, name, c)
  }

  predicate AsksFor(services: map<string, ServiceConfig>, name: string, c: Claim) {
    name in services && services[name].port == Some(Fixed(c.port)) && c != Claim(c.port, Public, name)
  }

  /** While a live run's manifest is synced, such a plan cannot be held. */
  lemma {:induction false} TakeoverClashes(held: iset<Claim>, services: map<string, ServiceConfig>, existing: map<string, Record>,
                                           manifest: Option<Manifest>, r: Resources)
    requires ManifestClaims(manifest) == Recorded(existing) && Resolved(services, r) && TakesOver(services, existing)
    ensures !OnePerPort(BeforeLaunch(held, existing, services.Keys, manifest, r))
  {
    hide Distinct;
    hide ManifestClaims;
    hide ListenFits;
    var c: Claim, name: string :| c in Recorded(existing) && AsksFor(services, name, c);
    hide Recorded;
    var d := Claim(c.port, Public, name);
    assert PortFits(services[name].port, r.ports[name]);
    assert d in Planned(r);
    assert c in BeforeLaunch(held, existing, services.Keys, manifest, r);
  }

  lemma {:induction false} PlannedIsHeld(held: iset<Claim>, existing: map<string, Record>, keys: set<string>,
                                         manifest: Option<Manifest>, r: Resources, names: set<string>)
    requires r.ports.Keys == r.listens.Keys
    ensures Planned(r) <= BeforeLaunch(held, existing, keys, manifest, r) - Obsolete(names, existing, r)
  {
  }

  lemma {:induction false} Balance(recorded: iset<Claim>, leftover: iset<Claim>, back: iset<Claim>, held: iset<Claim>)
    requires back <= held && recorded !! leftover && held - back == recorded + leftover
    ensures held == recorded + leftover + back
    ensures held == recorded <==> leftover == iset{} && back == iset{}
  {
    if leftover != iset{} {
      var c :| c in leftover;
      assert c in held - back;
    }
    if back != iset{} {
      var c :| c in back;
      assert c !in held - back;
    }
  }

  lemma {:induction false} AllBack(before: iset<Claim>, held: iset<Claim>, back: iset<Claim>)
    ensures back <= held && held - back == before - before ==> held == back
  {
    assert before - before == iset{};
    if held - back == iset{} {
      assert forall c: Claim :: c in held && c !in back ==> c in held - back;
    }
  }

  lemma {:induction false} ManifestOfLive(m: Option<Manifest>, records: map<string, Record>)
    ensures m == Some(Manifest(true, records)) ==> ManifestClaims(m) == Marked(records)
  {
  }

  lemma {:induction false} NothingBefore(keys: set<string>)
    ensures Recorded(Restrict(map[], keys)) == iset{}
  {
  }

  /**
   * What a completed refresh of a balanced run leaves over and above the plan: ports of removed services that the
   * manifest brought back, and old ports of services whose init failed.
   */
  lemma {:induction false} RefreshLeftovers(existing: map<string, Record>, keys: set<string>, manifest: Option<Manifest>, r: Resources,
                                            initFailed: set<string>)
    requires r.ports.Keys == r.listens.Keys == keys && initFailed <= keys
    requires ManifestClaims(manifest) == Recorded(existing)
    ensures BeforeLaunch(Recorded(existing), existing, keys, manifest, r) - Obsolete(keys - initFailed, existing, r)
         == Planned(r) + (Recorded(Restrict(existing, existing.Keys - keys)) + Obsolete(initFailed, existing, r))
    ensures Planned(r) !! Recorded(Restrict(existing, existing.Keys - keys)) + Obsolete(initFailed, existing, r)
  {
  }

  /** A refresh of a stopped run starts from nothing and leaves exactly the plan. */
  lemma {:induction false} RestartLeavesNothing(existing: map<string, Record>, keys: set<string>, manifest: Option<Manifest>,
                                                r: Resources, initFailed: set<string>)
    requires r.ports.Keys == r.listens.Keys == keys
    requires ManifestClaims(manifest) == iset{}
    ensures BeforeLaunch(iset{}, existing, keys, manifest, r) - Obsolete(keys - initFailed, existing, r) == Planned(r)
  {
  }

  /** Every named service with a backend port on record listens on the same port in the plan. */
  ghost predicate KeepsBackends(existing: map<string, Record>, names: set<string>, r: Resources) {
    forall s :: s in existing && s in names && existing[s].listen.Some? ==>
      existing[s].listen == existing[s].port || existing[s].listen == Get(r.listens, s)
  }

  /**
   * After a refresh whose launch failed, every recorded port is still held exactly when each recorded service that was
   * not launched again was planned to keep its backend port: the clean-up gives up the recorded one otherwise.
   */
  lemma {:induction false} FailedRefreshCovers(held: iset<Claim>, existing: map<string, Record>, keys: set<string>,
                                               manifest: Option<Manifest>, r: Resources, records: map<string, Record>,
                                               done: set<string>, initFailed: set<string>)
    requires r.ports.Keys == r.listens.Keys == keys && initFailed <= done <= keys
    requires Recorded(existing) <= held && Replaced(Restrict(existing, keys), records, done, r)
    ensures Recorded(records)
            <= BeforeLaunch(held, existing, keys, manifest, r) - Obsolete(done - initFailed, existing, r)
               - Unpreserved(keys, r, records)
       <==> KeepsBackends(existing, keys - done, r)
  {
    var after := BeforeLaunch(held, existing, keys, manifest, r) - Obsolete(done - initFailed, existing, r)
                 - Unpreserved(keys, r, records);
    hide BeforeLaunch;
    forall c: Claim | c in Recorded(records)
      ensures c in after <==>
                c.role.Public? || c.service in done || existing[c.service].listen == existing[c.service].port
                || existing[c.service].listen == r.listens[c.service]
    {
      RecordedSurvives(held, existing, keys, manifest, r, records, done, initFailed, c);
    }
    forall s | s in existing && s in keys && s !in done && existing[s].listen.Some? && existing[s].listen != existing[s].port
      ensures Claim(existing[s].listen.value, Backend, s) in Recorded(records)
    {
    }
  }

  lemma {:induction false} RecordedSurvives(held: iset<Claim>, existing: map<string, Record>, keys: set<string>,
                                            manifest: Option<Manifest>, r: Resources, records: map<string, Record>,
                                            done: set<string>, initFailed: set<string>, c: Claim)
    requires r.ports.Keys == r.listens.Keys == keys && initFailed <= done <= keys
    requires Recorded(existing) <= held && Replaced(Restrict(existing, keys), records, done, r)
    requires c in Recorded(records)
    ensures c.service in done || c.service in existing
    ensures c in BeforeLaunch(held, existing, keys, manifest, r) - Obsolete(done - initFailed, existing, r)
                 - Unpreserved(keys, r, records)
       <==> c.role.Public? || c.service in done || existing[c.service].listen == existing[c.service].port
            || existing[c.service].listen == r.listens[c.service]
  {
  }

  /** Every record stopped, and otherwise as it was. */
  function AllStopped(records: map<string, Record>): (r: map<string, Record>)
    ensures r.Keys == records.Keys
    ensures forall s :: s in r ==> r[s].state == ServiceState.Stopped && r[s].(state := records[s].state) == records[s]
  {
    map s | s in records :: records[s].(state := Stopped)
  }

  lemma {:induction false} ExposedIsRecorded(before: seq<Manifest>, after: seq<Manifest>, failed: bool, stopped: bool,
                                             records: map<string, Record>)
    requires before == [] && Unwritten(before, after, failed, stopped, records)
    ensures ExposedBy(after) <= Recorded(records)
  {
    ExposedGrow([], Manifest(!stopped, records));
    assert [] + [Manifest(!stopped, records)] == [Manifest(!stopped, records)];
  }

  /** At most the failure of a service has written a manifest, which then lists the records as they are. */
  ghost predicate Unwritten(before: seq<Manifest>, after: seq<Manifest>, failed: bool, stopped: bool, records: map<string, Record>) {
    after == before || (failed && after == before + [Manifest(!stopped, records)])
  }

  // ---- Pieces of the port choice ----

  /** What a service gets for its configured port. */
  predicate PortFits(config: Option<PortConfig>, port: Option<Port>) {
    match config
    case None => port.Some?
    case Some(Fixed(value)) => port == Some(value)
    case Some(Text(_)) => port.None?
  }

  /** A captured service listens on a port of its own, any other on its public port. */
  predicate ListenFits(svc: ServiceConfig, publicPort: Option<Port>, listen: Option<Port>) {
    if CaptureEnabled(svc, publicPort.Some?) then listen.Some? && listen != publicPort else listen == publicPort
  }

  function PreviousPort(existing: map<string, Record>, name: string): Option<Port> {
    if name in existing then existing[name].port else None
  }

  function PreviousListen(existing: map<string, Record>, name: string): Option<Port> {
    if name in existing then existing[name].listen else None
  }

  /** A service that leaves its port open keeps the one it had. */
  predicate PortKept(config: Option<PortConfig>, previous: Option<Port>, port: Option<Port>) {
    config.None? && previous.Some? ==> port == previous
  }

  /** A captured service keeps its listen port, unless that is its public port now. */
  predicate ListenKept(svc: ServiceConfig, publicPort: Option<Port>, previous: Option<Port>, listen: Option<Port>) {
    CaptureEnabled(svc, publicPort.Some?) && previous.Some? && previous != publicPort ==> listen == previous
  }

  /** A refresh of a live run changes no port it need not change. */
  ghost predicate Reuses(services: map<string, ServiceConfig>, existing: map<string, Record>, r: Resources) {
    forall s :: s in services ==>
      && PortKept(services[s].port, PreviousPort(existing, s), Get(r.ports, s))
      && ListenKept(services[s], Get(r.ports, s), PreviousListen(existing, s), Get(r.listens, s))
  }

  /** A service that is to be given any port: it asks for none in particular and has none to keep. */
  predicate Asks(config: Option<PortConfig>, previous: Option<Port>, reusePorts: bool) {
    config.None? && !(reusePorts && previous.Some?)
  }

  predicate PortChoice(config: Option<PortConfig>, previous: Option<Port>, reusePorts: bool, port: Option<Port>) {
    PortFits(config, port) && (reusePorts ==> PortKept(config, previous, port))
  }

  predicate ListenChoice(svc: ServiceConfig, publicPort: Option<Port>, previous: Option<Port>, reusePorts: bool,
                         listen: Option<Port>) {
    ListenFits(svc, publicPort, listen) && (reusePorts ==> ListenKept(svc, publicPort, previous, listen))
  }

  /** What stands against the port a service asks for: another owner, or that it is new to the service and in use. */
  ghost predicate PortRefused(config: Option<PortConfig>, previous: Option<Port>, stored: Registry, owner: string, os: Os) {
    exists p: Port ::
      && (config == Some(Fixed(p)) || (config == None && previous == Some(p)))
      && (TakenByOther(stored, p, owner, os.alive) || (previous != Some(p) && p !in os.free))
  }

  /** What stands against a captured service's backend port: another owner of the one it had, or that none is on offer. */
  predicate ListenRefused(svc: ServiceConfig, publicPort: Option<Port>, previous: Option<Port>, reusePorts: bool, stored: Registry,
                          owner: string, os: Os) {
    && CaptureEnabled(svc, publicPort.Some?)
    && if reusePorts && previous.Some? && previous != publicPort then TakenByOther(stored, previous.value, owner, os.alive)
       else NoOffer(stored, os)
  }

  /** An allocation for some of the services would be refused at this moment. */
  ghost predicate AllocationRefused(services: map<string, ServiceConfig>, stored: Registry, runId: string, pid: nat, os: Os) {
    exists keys: seq<string> ::
      NoDup(keys) && Elems(keys) <= services.Keys
      && Answered(stored, Transaction(Allocate(BuildRequests(services, keys, runId)), pid, os)).Failure?
  }

  /** The ports chosen so far, with those still to be granted left open. */
  ghost predicate Choosing(services: map<string, ServiceConfig>, existing: map<string, Record>, reusePorts: bool,
                           ports: map<string, Option<Port>>, open: set<string>) {
    && open <= ports.Keys <= services.Keys
    && (forall s :: s in open ==> ports[s].None? && Asks(services[s].port, PreviousPort(existing, s), reusePorts))
    && (forall s :: s in ports && s !in open ==> PortChoice(services[s].port, PreviousPort(existing, s), reusePorts, ports[s]))
  }

  lemma {:induction false} NothingChosen(services: map<string, ServiceConfig>, existing: map<string, Record>, reusePorts: bool,
                                         own: iset<Claim>, listed: iset<Claim>, free: iset<Port>)
    ensures Choosing(services, existing, reusePorts, map[], {}) && FixedChecked(services, existing, {}, own, listed, free)
    ensures own + PublicClaims(map[]) == own
  {
  }

  lemma {:induction false} ChoosingNext(services: map<string, ServiceConfig>, existing: map<string, Record>, reusePorts: bool,
                                        ports: map<string, Option<Port>>, open: set<string>, name: string, port: Option<Port>,
                                        wantsAny: bool)
    requires Choosing(services, existing, reusePorts, ports, open)
    requires name in services && name !in ports
    requires if wantsAny then port.None? && Asks(services[name].port, PreviousPort(existing, name), reusePorts)
             else PortChoice(services[name].port, PreviousPort(existing, name), reusePorts, port)
    ensures Choosing(services, existing, reusePorts, ports[name := port], if wantsAny then open + {name} else open)
    ensures name !in open
  {
    hide PortChoice;
    hide Asks;
  }

  lemma {:induction false} ChoosingDone(services: map<string, ServiceConfig>, existing: map<string, Record>, reusePorts: bool,
                                        ports: map<string, Option<Port>>, open: set<string>, granted: map<string, Option<Port>>)
    requires Choosing(services, existing, reusePorts, ports, open) && granted.Keys == open
    requires forall s :: s in granted ==> PortFits(services[s].port, granted[s])
    ensures Choosing(services, existing, reusePorts, ports + granted, {})
  {
    hide PortFits;
  }

  lemma {:induction false} OpenIsUnset(services: map<string, ServiceConfig>, existing: map<string, Record>, reusePorts: bool,
                                       ports: map<string, Option<Port>>, open: set<string>)
    requires Choosing(services, existing, reusePorts, ports, open)
    ensures open <= ports.Keys && forall s :: s in open ==> ports[s].None?
  {
  }

  lemma {:induction false} NewChoice(services: map<string, ServiceConfig>, ports: map<string, Option<Port>>)
    requires ports.Keys == services.Keys && forall s :: s in ports ==> PortFits(services[s].port, ports[s])
    ensures Choosing(services, map[], false, ports, {})
  {
    hide PortFits;
  }

  lemma {:induction false} ReusesParts(services: map<string, ServiceConfig>, existing: map<string, Record>, reusePorts: bool,
                                       r: Resources)
    requires r.ports.Keys == r.listens.Keys == services.Keys
    requires Choosing(services, existing, reusePorts, r.ports, {})
    requires forall s :: s in services ==>
               ListenChoice(services[s], r.ports[s], PreviousListen(existing, s), reusePorts, r.listens[s])
    ensures reusePorts ==> Reuses(services, existing, r)
    ensures forall s :: s in services ==> PortFits(services[s].port, r.ports[s]) && ListenFits(services[s], r.ports[s], r.listens[s])
  {
    hide PortKept;
    hide PortFits;
    hide ListenKept;
    hide ListenFits;
    hide PreviousPort;
    hide PreviousListen;
  }

  function BuildRequests(services: map<string, ServiceConfig>, keys: seq<string>, runId: string): (r: seq<Request>)
    requires Elems(keys) <= services.Keys
    ensures |r| == |keys|
  {
    if keys == [] then []
    else
      assert keys[0] in Elems(keys);
      assert Elems(keys[1..]) <= Elems(keys);
      [Request(keys[0], services[keys[0]].port, PortOwner(runId, keys[0]))] + BuildRequests(services, keys[1..], runId)
  }

  lemma {:induction false} BuiltAt(services: map<string, ServiceConfig>, keys: seq<string>, runId: string, i: nat)
    requires Elems(keys) <= services.Keys && i < |keys|
    ensures keys[i] in services
    ensures BuildRequests(services, keys, runId)[i] == Request(keys[i], services[keys[i]].port, PortOwner(runId, keys[i]))
  {
    hide PortOwner;
    assert keys[i] in Elems(keys);
    if i > 0 {
      assert Elems(keys[1..]) <= Elems(keys);
      BuiltAt(services, keys[1..], runId, i - 1);
    }
  }

  lemma {:induction false} BuiltRequests(services: map<string, ServiceConfig>, keys: seq<string>, runId: string)
    requires Elems(keys) <= services.Keys && NoDup(keys)
    ensures RequestsOf(BuildRequests(services, keys, runId), runId, Elems(keys))
  {
    hide PortOwner;
    var requests := BuildRequests(services, keys, runId);
    forall i | 0 <= i < |keys|
      ensures keys[i] in services && requests[i] == Request(keys[i], services[keys[i]].port, PortOwner(runId, keys[i]))
    {
      BuiltAt(services, keys, runId, i);
    }
    hide BuildRequests;
    forall s | s in Elems(keys)
      ensures exists q :: q in requests && q.service == s
    {
      var i :| 0 <= i < |keys| && keys[i] == s;
      assert requests[i] in requests;
    }
  }

  lemma {:induction false} RequestOfService(services: map<string, ServiceConfig>, keys: seq<string>, runId: string, s: string)
    requires Elems(keys) <= services.Keys && s in Elems(keys)
    ensures s in services
    ensures Request(s, services[s].port, PortOwner(runId, s)) in BuildRequests(services, keys, runId)
  {
    var i :| 0 <= i < |keys| && keys[i] == s;
    BuiltAt(services, keys, runId, i);
  }

  /** An allocation for services of a run gives each what fits, and a fixed port only when it is free or held already. */
  lemma {:induction false} AllocationAnswers(stored: Registry, t: Transaction, services: map<string, ServiceConfig>, keys: seq<string>,
                                             runId: string, listed: iset<Claim>)
    requires Elems(keys) <= services.Keys && AllPlain(Elems(keys)) && NoDup(keys)
    requires t.action == Allocate(BuildRequests(services, keys, runId)) && Answered(stored, t).Success?
    requires Answered(stored, t).value.ThePorts? && Answered(stored, t).value.ports.Keys == Elems(keys)
    ensures var ports := Answered(stored, t).value.ports;
            && (forall s :: s in ports ==> PortFits(services[s].port, ports[s]))
            && FixedChecked(services, map[], Elems(keys), HeldBy(stored, runId), listed, FreeIn(t.os))
  {
    hide PortOwner;
    hide Holds;
    BuiltRequests(services, keys, runId);
    forall s | s in Elems(keys)
      ensures PortFits(services[s].port, Answered(stored, t).value.ports[s])
      ensures forall p: Port :: services[s].port == Some(Fixed(p)) ==> p in t.os.free || Holds(stored, runId, Claim(p, Public, s))
    {
      var q := Request(s, services[s].port, PortOwner(runId, s));
      RequestOfService(services, keys, runId, s);
      AllocatedConfigs(stored, t, runId, Elems(keys), q);
      if q.config.Some? && q.config.value.Fixed? {
        OwnFixedWasFree(stored, t, runId, Elems(keys), q, q.config.value.port);
      }
    }
  }

  lemma {:induction false} NextKey(keys: seq<string>, i: nat, names: set<string>)
    requires Enumerates(keys, names) && i < |keys|
    ensures keys[i] in names && keys[i] !in Elems(keys[..i])
    ensures Elems(keys[..i + 1]) == Elems(keys[..i]) + {keys[i]}
  {
    assert keys[i] in Elems(keys);
    TakeNext(keys, i);
    ElemsAppend(keys[..i], keys[i]);
  }

  lemma {:induction false} PublicGrow(ports: map<string, Option<Port>>, name: string, port: Option<Port>)
    requires name !in ports
    ensures PublicClaims(ports[name := port])
         == PublicClaims(ports) + PublicOf(name, port)
  {
  }

  lemma {:induction false} PublicMerge(ports: map<string, Option<Port>>, more: map<string, Option<Port>>)
    requires more.Keys <= ports.Keys && forall s :: s in more ==> ports[s].None?
    ensures PublicClaims(ports + more) == PublicClaims(ports) + PublicClaims(more)
  {
  }

  lemma {:induction false} BackendGrow(ports: map<string, Option<Port>>, listens: map<string, Option<Port>>, name: string,
                                       listen: Option<Port>)
    requires name !in listens && name in ports
    ensures BackendClaims(Resources(ports, listens[name := listen]))
         == BackendClaims(Resources(ports, listens))
            + BackendOf(name, ports[name], listen)
  {
  }

  lemma {:induction false} PlannedParts(r: Resources)
    requires r.ports.Keys == r.listens.Keys
    ensures Planned(r) == PublicClaims(r.ports) + BackendClaims(r)
  {
  }

  /** No two different services share a port in any role. */
  ghost predicate Distinct(r: Resources) {
    forall s1, s2 :: s1 in r.ports && s2 in r.ports && s1 != s2 ==>
      && (Get(r.ports, s1).Some? ==> Get(r.ports, s1) != Get(r.ports, s2) && Get(r.ports, s1) != Get(r.listens, s2))
      && (Get(r.listens, s1).Some? ==> Get(r.listens, s1) != Get(r.listens, s2))
  }

  /** A port choice that fits the configuration: every service has what it asked for, and no port is used twice. */
  ghost predicate Resolved(services: map<string, ServiceConfig>, r: Resources) {
    && r.ports.Keys == r.listens.Keys == services.Keys
    && (forall s :: s in services ==> PortFits(services[s].port, r.ports[s]) && ListenFits(services[s], r.ports[s], r.listens[s]))
    && Distinct(r)
  }

  lemma {:induction false} ResolvedKeys(services: map<string, ServiceConfig>, r: Resources)
    requires Resolved(services, r)
    ensures r.ports.Keys == r.listens.Keys == services.Keys
  {
  }

  /**
   * A plan puts a service behind a backend port of its own exactly when it has a public port, its scheme is http (given
   * or by default), capturing is not switched off, and it is asked for, explicitly or by an http scheme or an http
   * readiness check. Every other service listens on its public port, or on none.
   */
  lemma {:induction false} BackendIff(services: map<string, ServiceConfig>, r: Resources, name: string)
    requires Resolved(services, r) && name in services
    ensures var svc := services[name];
            r.listens[name] != r.ports[name]
            <==> && r.ports[name].Some?
                 && svc.scheme in {None, Some("http")}
                 && svc.captureApi != Some(false)
                 && (svc.captureApi == Some(true) || svc.scheme == Some("http") || svc.httpReadiness)
    ensures r.ports[name].Some? <==> services[name].port.None? || services[name].port.value.Fixed?
    ensures r.listens[name].Some? <==> r.ports[name].Some?
  {
    hide Distinct;
    assert PortFits(services[name].port, r.ports[name]) && ListenFits(services[name], r.ports[name], r.listens[name]);
  }

  /** Ports that are all held for the run under their services' owners are pairwise distinct. */
  lemma {:induction false} ResolvedIsDistinct(stored: Registry, runId: string, services: map<string, ServiceConfig>, r: Resources)
    requires r.ports.Keys == r.listens.Keys == services.Keys
    requires Planned(r) <= HeldBy(stored, runId)
    ensures Distinct(r)
  {
    hide Holds;
    forall s1, s2 | s1 in r.ports && s2 in r.ports && s1 != s2
      ensures Get(r.ports, s1).Some? ==> Get(r.ports, s1) != Get(r.ports, s2) && Get(r.ports, s1) != Get(r.listens, s2)
      ensures Get(r.listens, s1).Some? ==> Get(r.listens, s1) != Get(r.listens, s2)
    {
      DistinctPair(stored, runId, r, s1, r.ports[s1], s2, r.ports[s2]);
      DistinctPair(stored, runId, r, s1, r.ports[s1], s2, r.listens[s2]);
      DistinctPair(stored, runId, r, s1, r.listens[s1], s2, r.listens[s2]);
      DistinctPair(stored, runId, r, s1, r.listens[s1], s2, r.ports[s2]);
    }
  }

  lemma {:induction false} DistinctPair(stored: Registry, runId: string, r: Resources, s1: string, p1: Option<Port>, s2: string,
                                        p2: Option<Port>)
    requires r.ports.Keys == r.listens.Keys && s1 in r.ports && s2 in r.ports && s1 != s2
    requires p1 in {r.ports[s1], r.listens[s1]} && p2 in {r.ports[s2], r.listens[s2]}
    requires Planned(r) <= HeldBy(stored, runId)
    ensures p1.Some? ==> p1 != p2
  {
    hide Holds;
    if p1.Some? && p1 == p2 {
      var c1 := Claim(p1.value, if p1 == r.ports[s1] then Public else Backend, s1);
      var c2 := Claim(p2.value, if p2 == r.ports[s2] then Public else Backend, s2);
      assert c1 in Planned(r) && c2 in Planned(r);
      OneClaimPerPort(stored, runId, c1, c2);
      assert false;
    }
  }

  /** Whether a configuration gives a service a port at all. */
  predicate HasPort(svc: ServiceConfig) {
    !(svc.port.Some? && svc.port.value.Text?)
  }

  predicate OwnListen(record: Record) {
    record.listen.Some? && record.listen != record.port
  }

  /**
   * Whether a configuration takes a port away from a recorded service: it names another port, or none, or the service
   * is no longer captured.
   */
  predicate LosesPort(svc: ServiceConfig, record: Record) {
    || (record.port.Some? && svc.port.Some? && svc.port != Some(Fixed(record.port.value)))
    || (OwnListen(record) && !CaptureEnabled(svc, HasPort(svc)))
  }

  /** No service's old backend port is its new public port. */
  ghost predicate Apart(existing: map<string, Record>, r: Resources) {
    forall s :: s in existing && s in r.ports && OwnListen(existing[s]) ==> existing[s].listen != r.ports[s]
  }

  /** That is so when old and new ports are held together. */
  lemma {:induction false} HeldTogetherApart(stored: Registry, runId: string, existing: map<string, Record>, keys: set<string>,
                                             r: Resources)
    requires Recorded(Restrict(existing, keys)) <= HeldBy(stored, runId) && Planned(r) <= HeldBy(stored, runId)
    requires r.ports.Keys == keys
    ensures Apart(existing, r)
  {
    hide Holds;
    forall s | s in existing && s in r.ports && OwnListen(existing[s])
      ensures existing[s].listen != r.ports[s]
    {
      if existing[s].listen == r.ports[s] {
        var backend, public := Claim(existing[s].listen.value, Backend, s), Claim(existing[s].listen.value, Public, s);
        assert backend in Recorded(Restrict(existing, keys)) && public in Planned(r);
        OneClaimPerPort(stored, runId, backend, public);
        assert false;
      }
    }
  }

  /** In a live refresh a service keeps its backend port exactly when it is still captured. */
  lemma {:induction false} BackendKept(services: map<string, ServiceConfig>, existing: map<string, Record>, r: Resources, s: string)
    requires Resolved(services, r) && Reuses(services, existing, r) && Apart(existing, r)
    requires s in existing && s in services && OwnListen(existing[s])
    ensures existing[s].listen == r.listens[s] <==> CaptureEnabled(services[s], HasPort(services[s]))
    ensures existing[s].listen == r.listens[s] ==> r.listens[s] != r.ports[s]
  {
    hide Distinct;
    hide CaptureEnabled;
    assert PortFits(services[s].port, r.ports[s]) && ListenFits(services[s], r.ports[s], r.listens[s]);
    assert ListenKept(services[s], Get(r.ports, s), PreviousListen(existing, s), Get(r.listens, s));
  }

  /** In a live refresh a service gives an old port up exactly when its configuration takes it away. */
  lemma {:induction false} ObsoleteIsLost(services: map<string, ServiceConfig>, existing: map<string, Record>, r: Resources, s: string)
    requires Resolved(services, r) && Reuses(services, existing, r) && Apart(existing, r)
    requires s in existing && s in services
    ensures Obsolete({s}, existing, r) == iset{} <==> !LosesPort(services[s], existing[s])
  {
    var record := existing[s];
    if OwnListen(record) {
      BackendKept(services, existing, r, s);
    }
    PublicKept(services, existing, r, s);
    hide Resolved;
    hide Reuses;
    hide Apart;
    hide CaptureEnabled;
    if record.port.Some? && record.port != r.ports[s] {
      assert Claim(record.port.value, Public, s) in Obsolete({s}, existing, r);
    }
    if OwnListen(record) && record.listen != r.listens[s] {
      assert Claim(record.listen.value, Backend, s) in Obsolete({s}, existing, r);
    }
  }

  lemma {:induction false} PublicKept(services: map<string, ServiceConfig>, existing: map<string, Record>, r: Resources, s: string)
    requires Resolved(services, r) && Reuses(services, existing, r)
    requires s in existing && s in services
    ensures s in r.ports && s in r.listens
    ensures existing[s].port.Some? ==>
              (existing[s].port == r.ports[s] <==> services[s].port.None? || services[s].port == Some(Fixed(existing[s].port.value)))
  {
    hide Distinct;
    hide CaptureEnabled;
    assert PortFits(services[s].port, r.ports[s]);
    assert PortKept(services[s].port, PreviousPort(existing, s), Get(r.ports, s));
  }

  /** No removed service has a port on record, and no service whose init failed is to lose one. */
  ghost predicate LeavesClean(services: map<string, ServiceConfig>, existing: map<string, Record>, initFailed: set<string>) {
    && (forall s :: s in existing && s !in services ==> existing[s].port.None? && existing[s].listen.None?)
    && (forall s :: s in existing && s in services && s in initFailed ==> !LosesPort(services[s], existing[s]))
  }

  /** What a completed refresh of a live run leaves over is nothing exactly under that condition. */
  lemma {:induction false} LeftoverIff(services: map<string, ServiceConfig>, existing: map<string, Record>, r: Resources,
                                       initFailed: set<string>)
    requires Resolved(services, r) && Reuses(services, existing, r) && Apart(existing, r) && initFailed <= services.Keys
    ensures Recorded(Restrict(existing, existing.Keys - services.Keys)) + Obsolete(initFailed, existing, r) == iset{}
       <==> LeavesClean(services, existing, initFailed)
  {
    var removed, replaced := Recorded(Restrict(existing, existing.Keys - services.Keys)), Obsolete(initFailed, existing, r);
    forall s | s in existing && s in services
      ensures Obsolete({s}, existing, r) == iset{} <==> !LosesPort(services[s], existing[s])
      ensures s in initFailed ==> Obsolete({s}, existing, r) <= replaced
    {
      ObsoleteIsLost(services, existing, r, s);
    }
    hide Resolved;
    hide Reuses;
    hide Apart;
    hide LosesPort;
    forall c: Claim | c in replaced
      ensures c.service in existing && c.service in initFailed && c in Obsolete({c.service}, existing, r)
    {
    }
    hide Obsolete;
    forall s | s in existing && s !in services
      ensures existing[s].port.Some? ==> Claim(existing[s].port.value, Public, s) in removed
      ensures existing[s].port.None? && existing[s].listen.Some? ==> Claim(existing[s].listen.value, Backend, s) in removed
    {
    }
    assert removed + replaced == iset{} <==> removed == iset{} && replaced == iset{};
  }

  /** Every named service with a backend port on record is still captured. */
  ghost predicate StaysCaptured(services: map<string, ServiceConfig>, existing: map<string, Record>, names: set<string>) {
    forall s :: s in existing && s in names && s in services && OwnListen(existing[s]) ==>
      CaptureEnabled(services[s], HasPort(services[s]))
  }

  /**
   * For a run that was live, the condition of `FailedRefreshCovers` is about the configuration alone: every recorded
   * service with a backend port that was not launched again is still captured.
   */
  lemma {:induction false} FailedLiveRefreshCovers(services: map<string, ServiceConfig>, held: iset<Claim>,
                                                   existing: map<string, Record>, manifest: Option<Manifest>, r: Resources,
                                                   records: map<string, Record>, done: set<string>, initFailed: set<string>)
    requires Resolved(services, r) && Reuses(services, existing, r) && Apart(existing, r)
    requires initFailed <= done <= services.Keys
    requires Recorded(existing) <= held && Replaced(Restrict(existing, services.Keys), records, done, r)
    ensures Recorded(records)
            <= BeforeLaunch(held, existing, services.Keys, manifest, r) - Obsolete(done - initFailed, existing, r)
               - Unpreserved(services.Keys, r, records)
       <==> StaysCaptured(services, existing, services.Keys - done)
  {
    FailedRefreshCovers(held, existing, services.Keys, manifest, r, records, done, initFailed);
    forall s | s in existing && s in services && OwnListen(existing[s])
      ensures s in r.listens
      ensures existing[s].listen == r.listens[s] <==> CaptureEnabled(services[s], HasPort(services[s]))
    {
      BackendKept(services, existing, r, s);
    }
    hide Resolved;
    hide Reuses;
    hide Apart;
    hide BeforeLaunch;
    hide Obsolete;
    hide Unpreserved;
    hide Recorded;
    hide Replaced;
    hide CaptureEnabled;
  }
}
