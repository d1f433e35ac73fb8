/**
 * The port ledger of one run through `up`, refresh, `down` and `kill`: what the registry holds for the run against
 * what the run's records say.
 */
module RunLifecycle {
  import opened Common
  import opened PortRegistry
  import opened PortOwners
  import opened RunPorts
  import opened RunRecords
  import opened RunStates
  import Planner

  // ---- The daemon ----

  /**
   * One answer of the outside world: the operating system's answers to a registry transaction, what other daemons and
   * commands on other runs do to the registry before it, and the outcome of a unit start, task, check, render or
   * write; `late` says of a failed manifest write that only the daemon state written after it failed.
   */
  datatype Turn = Turn(os: Os, others: seq<Other>, ok: bool, late: bool, rest: string)

  ghost predicate ProperTurn(turn: Turn, runId: string, pid: nat) {
    pid in turn.os.alive && forall o :: o in turn.others ==> ProperOther(o, runId, pid)
  }

  /** What other runs' syncs try to take back during some turns. */
  ghost function SyncedBetween(script: nat -> Turn, from: nat, to: nat): iset<Claim> {
    iset c: Claim | SyncNamesBetween(script, from, to, c)
  }

  ghost predicate SyncNamesBetween(script: nat -> Turn, from: nat, to: nat, c: Claim) {
    exists n: nat :: from <= n < to && SyncNames(script(n).others, c)
  }

  /** The ports the system reported as free in one of these turns. */
  ghost function FreeBetween(script: nat -> Turn, from: nat, to: nat): iset<Port> {
    iset p: Port | FreeInTurns(script, from, to, p)
  }

  ghost predicate FreeInTurns(script: nat -> Turn, from: nat, to: nat, p: Port) {
    exists n: nat :: from <= n < to && p in script(n).os.free
  }

  lemma {:induction false} FreeLater(script: nat -> Turn, from: nat, to: nat)
    requires from <= to
    ensures FreeBetween(script, from, to) <= FreeBetween(script, from, to + 1)
    ensures FreeIn(script(to).os) <= FreeBetween(script, from, to + 1)
  {
    forall p: Port
      ensures FreeInTurns(script, from, to, p) ==> FreeInTurns(script, from, to + 1, p)
      ensures p in script(to).os.free ==> FreeInTurns(script, from, to + 1, p)
    {
      if FreeInTurns(script, from, to, p) {
        var n: nat :| from <= n < to && p in script(n).os.free;
        assert from <= n < to + 1;
      }
      if p in script(to).os.free {
        assert from <= to < to + 1;
      }
    }
  }

  /** During these turns no other run's sync names a port that one of these manifests lists. */
  ghost predicate Silent(script: nat -> Turn, from: nat, to: nat, written: seq<Manifest>) {
    forall n: nat, c: Claim :: from <= n < to && SyncNames(script(n).others, c) ==> !ListedByAny(written, c)
  }

  lemma {:induction false} SilentTakesNothing(script: nat -> Turn, from: nat, to: nat, written: seq<Manifest>)
    ensures Silent(script, from, to, written) <==> ExposedBy(written) * SyncedBetween(script, from, to) == iset{}
  {
    var taken := ExposedBy(written) * SyncedBetween(script, from, to);
    forall n: nat, c: Claim | from <= n < to && SyncNames(script(n).others, c) && ListedByAny(written, c)
      ensures c in taken
    {
      assert SyncNamesBetween(script, from, to, c);
    }
    if Silent(script, from, to, written) {
      assert forall c: Claim :: c !in taken;
    }
  }

  lemma {:induction false} SyncedNext(script: nat -> Turn, from: nat, to: nat)
    requires from <= to
    ensures SyncedBetween(script, from, to + 1) == SyncedBetween(script, from, to) + SyncedIn(script(to).others)
    ensures SyncedBetween(script, from, from) == iset{}
  {
    forall c: Claim
      ensures SyncNamesBetween(script, from, to + 1, c) <==> SyncNamesBetween(script, from, to, c) || SyncNames(script(to).others, c)
    {
      if SyncNamesBetween(script, from, to, c) {
        var n: nat :| from <= n < to && SyncNames(script(n).others, c);
        assert from <= n < to + 1;
      }
    }
  }

  lemma {:induction false} SyncedLater(script: nat -> Turn, from: nat, later: nat, to: nat)
    requires from <= later
    ensures SyncedBetween(script, later, to) <= SyncedBetween(script, from, to)
  {
    forall c: Claim | SyncNamesBetween(script, later, to, c)
      ensures SyncNamesBetween(script, from, to, c)
    {
      var n: nat :| later <= n < to && SyncNames(script(n).others, c);
      assert from <= n < to;
    }
  }

  /** What one more turn adds to what was taken back stays within what syncs named and manifests listed. */
  lemma {:induction false} BackNext(script: nat -> Turn, from: nat, to: nat, written: seq<Manifest>, back: iset<Claim>,
                                    before: iset<Claim>, after: iset<Claim>)
    requires from <= to && back <= ExposedBy(written) && back <= SyncedBetween(script, from, to)
    requires after <= before + ExposedBy(written) * SyncedIn(script(to).others)
    ensures back + (after - before) <= ExposedBy(written)
    ensures back + (after - before) <= SyncedBetween(script, from, to + 1)
    ensures written == [] ==> after <= before
  {
    hide ExposedBy;
    hide SyncedIn;
    SyncedNext(script, from, to);
    hide SyncedBetween;
    ExposedGrow([], Manifest(false, map[]));
  }

  /** How bringing a run up, or refreshing it, ended. */
  datatype RunResult =
    | RunNotFound | RemoveFailed | SyncFailed | PortsFailed | GlobalsFailed | ListensFailed | EnvFailed | LaunchFailed
    | NotPersisted | Completed

  datatype StopResult = StopNotFound | StopRefused | StopNotPersisted | StopDone

  /** How launching one service ended. `Stored` covers a unit that did not start: its record says so. */
  datatype Launch = Unprepared | ReleaseRefused | Unchanged | InitBroken | Stored | Unready

  class Daemon {
    const runId: string
    const pid: nat
    /** What the outside world will answer, one turn per question. */
    const script: nat -> Turn
    const file: RegistryFile
    var clock: nat
    var known: bool
    var stopped: bool
    var records: map<string, Record>
    var manifest: Option<Manifest>
    /** Every manifest the run has had on disk: another run's port sync may still be working from an older one. */
    var written: seq<Manifest>
    /** What other runs' syncs have taken back for this run and the current command has not dealt with since. */
    ghost var back: iset<Claim>
    /** How many times that has happened. */
    ghost var takebacks: nat
    /** That number, and the turn, when the current command began. */
    ghost var calm: nat
    ghost var began: nat
    /** Ports the system reported as free in a turn of the current command. */
    ghost var checked: iset<Port>
    /** The services whose launch the current command has begun, in order, and those it attempted to start. */
    ghost var launches: seq<string>
    ghost var attempted: set<string>

    constructor (runId: string, pid: nat, script: nat -> Turn, file: RegistryFile)
      requires OwnedBy(file.stored, runId, pid)
      requires forall n: nat :: ProperTurn(script(n), runId, pid)
      ensures Valid() && !known && records == map[] && manifest == None && written == [] && takebacks == 0
      ensures this.file == file && this.runId == runId
    {
      this.runId, this.pid, this.script, this.file := runId, pid, script, file;
      clock, known, stopped, records, manifest, written := 0, false, false, map[], None, [];
      back, takebacks, calm, began := iset{}, 0, 0, 0;
      checked, launches, attempted := iset{}, [], {};
    }

    ghost predicate Valid()
      reads `clock, `records, `manifest, `written, `back, `takebacks, `calm, `began, `checked, file
    {
      && (forall n: nat :: ProperTurn(script(n), runId, pid))
      && OwnedBy(file.stored, runId, pid)
      && AllPlain(records.Keys)
      && HashesCover(records) && CaptureMarked(records)
      && (manifest.Some? ==> manifest.value in written)
      && (forall m :: m in written ==> AllPlain(m.services.Keys))
      && back <= Held() && back <= ExposedBy(written)
      && began <= clock && back <= SyncedBetween(script, began, clock)
      && checked <= FreeBetween(script, began, clock)
      && calm <= takebacks && (takebacks == calm ==> back == iset{})
      && (written == [] ==> takebacks == 0)
    }

    /** Everything the registry holds for the run. */
    ghost function Held(): iset<Claim>
      reads file
    {
      HeldBy(file.stored, runId)
    }

    /** What is held for the run, apart from what other runs' syncs have taken back. */
    ghost function Own(): iset<Claim>
      reads `back, file
    {
      Held() - back
    }

    /** The ledger balances: the registry holds for the run exactly what its records claim. */
    ghost predicate Conserved()
      reads `records, file
    {
      Held() == Recorded(records)
    }

    /** Whatever a sync could take back is the run's own anyway. */
    ghost predicate Steady()
      reads `written, `back, file
    {
      ExposedBy(written) <= Own()
    }

    lemma {:induction false} ValidParts()
      requires Valid()
      ensures AllPlain(records.Keys) && HashesCover(records) && CaptureMarked(records)
      ensures manifest.Some? ==> AllPlain(manifest.value.services.Keys)
      ensures Own() <= HeldBy(file.stored, runId) && Held() == Own() + back && Own() == Held() - back && back <= Held()
      ensures Steady() ==> back == iset{}
      ensures written == [] ==> back == iset{} && takebacks == 0
      ensures takebacks == calm ==> back == iset{}
      ensures began <= clock && back <= ExposedBy(written) * SyncedBetween(script, began, clock)
      ensures checked <= FreeBetween(script, began, clock)
    {
      ExposedGrow([], Manifest(false, map[]));
    }

    lemma {:induction false} ManifestExposed()
      requires Valid()
      ensures ManifestClaims(manifest) <= ExposedBy(written)
    {
    }

    /** As long as nothing was ever taken back, all that is held is the run's own. */
    lemma {:induction false} ClearWhenCalm()
      requires Valid()
      ensures takebacks == 0 ==> Held() == Own() && back == iset{}
    {
    }

    /** A new command: what is held now is what it starts from. */
    ghost method Begin()
      requires Valid()
      modifies this`back, this`calm, this`began, this`checked, this`launches, this`attempted, this`checked,
               this`launches, this`attempted
      ensures Valid() && back == iset{} && calm == takebacks && began == clock && Own() == Held()
      ensures checked == iset{} && launches == [] && attempted == {}
    {
      back, calm, began := iset{}, takebacks, clock;
      checked, launches, attempted := iset{}, [], {};
    }

    /** What the last answer reported as free has been looked at for this command. */
    ghost method Check(free: iset<Port>)
      requires Valid() && 0 < clock && began < clock && free <= FreeIn(script(clock - 1).os)
      modifies this`checked
      ensures Valid() && checked == old(checked) + free
    {
      hide FreeBetween;
      FreeLater(script, began, clock - 1);
      checked := checked + free;
    }

    // ---- Questions to the outside world ----

    /** The next answer. Others may have acted first: they take nothing, but their syncs may take ports back. */
    method Ask() returns (turn: Turn)
      requires Valid()
      modifies this`clock, this`back, this`takebacks, file
      ensures Valid() && pid in turn.os.alive
      ensures Own() == old(Own())
      ensures turn == script(old(clock)) && clock == old(clock) + 1
      ensures old(Held()) <= Held() <= old(Held()) + ExposedBy(written) * SyncedIn(turn.others)
      ensures back == old(back) + (Held() - old(Held()))
      ensures takebacks == old(takebacks) + (if Held() == old(Held()) then 0 else 1)
      ensures Grown(old(back), old(takebacks), back, takebacks)
      ensures Steady() ==> takebacks == old(takebacks)
    {
      hide FreeBetween;
      hide SyncedBetween;
      hide SyncedIn;
      hide ExposedBy;
      hide Slipped;
      hide HeldBy;
      hide OwnedBy;
      hide CommittedAll;
      hide ProperOther;
      hide AllPlain;
      hide HashesCover;
      hide CaptureMarked;
      turn := script(clock);
      assert ProperTurn(script(clock), runId, pid);
      ghost var before := Held();
      SlippedKeeps(file.stored, turn.others, written, runId, pid);
      file.Interfere(Slipped(turn.others, written, runId, pid));
      BackNext(script, began, clock, written, back, before, Held());
      AskedOwn(before, Held(), back);
      FreeLater(script, began, clock);
      clock := clock + 1;
      back := back + (Held() - before);
      if Held() != before {
        takebacks := takebacks + 1;
      }
    }

    method Reserve(port: Port, role: Role, service: string, requireAvailable: bool) returns (ok: bool)
      requires Valid() && Plain(service)
      modifies this`clock, this`back, this`takebacks, file
      ensures Valid()
      ensures Own() == if ok then old(Own()) + iset{Claim(port, role, service)} else old(Own())
      ensures Claim(port, role, service) in old(Own()) ==> ok
      ensures ok && requireAvailable ==>
                || port in script(old(clock)).os.free
                || Claim(port, role, service) in old(Own()) || Claim(port, role, service) in ExposedBy(written)
      ensures !ok ==>
                || TakenByOther(file.stored, port, OwnerOf(runId, role, service), script(old(clock)).os.alive)
                || (requireAvailable && port !in script(old(clock)).os.free)
      ensures clock == old(clock) + 1
    {
      hide FreeBetween;
      hide OwnerOf;
      hide SyncedBetween;
      hide SyncedIn;
      hide ExposedBy;
      hide AllPlain;
      hide HashesCover;
      hide CaptureMarked;
      var turn := Ask();
      var owner := OwnerOf(runId, role, service);
      OwnReserve(file.stored, Transaction(PortRegistry.Reserve(port, owner, requireAvailable), pid, turn.os), runId,
                 Claim(port, role, service));
      OwnReserveAnswer(file.stored, Transaction(PortRegistry.Reserve(port, owner, requireAvailable), pid, turn.os), runId,
                       Claim(port, role, service));
      ghost var held := Held();
      TakenOwn(held, back, iset{Claim(port, role, service)});
      var error := file.ReservePort(port, owner, requireAvailable, pid, turn.os);
      ok := error.None?;
      if ok {
        back := back - iset{Claim(port, role, service)};
      }
    }

    method ReserveAnyPort(role: Role, service: string) returns (port: Option<Port>)
      requires Valid() && Plain(service)
      modifies this`clock, this`back, this`takebacks, file
      ensures Valid()
      ensures clock == old(clock) + 1
      ensures port.None? ==> Own() == old(Own()) && NoOffer(file.stored, script(old(clock)).os)
      ensures port.Some? ==>
                && Own() == old(Own()) + iset{Claim(port.value, role, service)}
                && (forall d: Claim :: d in old(Own()) ==> d.port != port.value)
    {
      hide SyncedBetween;
      hide SyncedIn;
      hide ExposedBy;
      hide AllPlain;
      hide HashesCover;
      hide CaptureMarked;
      var turn := Ask();
      var owner := OwnerOf(runId, role, service);
      OwnEphemeral(file.stored, Transaction(PortRegistry.ReserveEphemeral(owner), pid, turn.os), runId, role, service);
      OwnEphemeralAnswer(file.stored, Transaction(PortRegistry.ReserveEphemeral(owner), pid, turn.os));
      ghost var held := Held();
      var r := file.ReserveEphemeralPort(owner, pid, turn.os);
      port := if r.Success? then Some(r.value) else None;
      if port.Some? {
        TakenOwn(held, back, iset{Claim(port.value, role, service)});
        back := back - iset{Claim(port.value, role, service)};
      }
    }

    method ReleaseClaim(port: Port, role: Role, service: string) returns (ok: bool)
      requires Valid() && Plain(service)
      modifies this`clock, this`back, this`takebacks, file
      ensures Valid()
      ensures Own() == old(Own()) - iset{Claim(port, role, service)}
      ensures Claim(port, role, service) in old(Own()) ==> ok && Grown(old(back), old(takebacks), back, takebacks)
      ensures Steady() ==> takebacks == old(takebacks)
    {
      hide SyncedBetween;
      hide SyncedIn;
      hide ExposedBy;
      hide AllPlain;
      hide HashesCover;
      hide CaptureMarked;
      var turn := Ask();
      var owner := OwnerOf(runId, role, service);
      OwnRelease(file.stored, Transaction(PortRegistry.Release(port, owner), pid, turn.os), runId, Claim(port, role, service));
      DroppedOwn(Held(), back, iset{Claim(port, role, service)});
      var error := file.ReleasePort(port, owner, pid, turn.os);
      ok := error.None?;
      back := back - iset{Claim(port, role, service)};
    }

    method ReleaseServicePort(service: string, port: Option<Port>) returns (ok: bool)
      requires Valid() && Plain(service)
      modifies this`clock, this`back, this`takebacks, file
      ensures Valid()
      ensures Own() == old(Own()) - PublicOf(service, port)
      ensures PublicOf(service, port) <= old(Own()) ==> ok && Grown(old(back), old(takebacks), back, takebacks)
      ensures Steady() ==> takebacks == old(takebacks)
    {
      ok := true;
      if port.Some? {
        ok := ReleaseClaim(port.value, Public, service);
        SinglePublic(service, port);
      }
    }

    method ReleaseBackendPort(service: string, port: Option<Port>, publicPort: Option<Port>) returns (ok: bool)
      requires Valid() && Plain(service)
      modifies this`clock, this`back, this`takebacks, file
      ensures Valid()
      ensures Own() == old(Own()) - BackendOf(service, publicPort, port)
      ensures BackendOf(service, publicPort, port) <= old(Own()) ==> ok && Grown(old(back), old(takebacks), back, takebacks)
      ensures Steady() ==> takebacks == old(takebacks)
    {
      ok := true;
      if port.Some? && port != publicPort {
        ok := ReleaseClaim(port.value, Backend, service);
        SingleBackend(service, publicPort, port);
      }
    }

    // ---- Choosing ports ----

    /** One transaction for all the named services; a text config means no port, no config means any port. */
    method AllocateInTurn(services: map<string, ServiceConfig>, keys: seq<string>)
      returns (ports: Option<map<string, Option<Port>>>)
      requires Valid() && AllPlain(services.Keys) && NoDup(keys) && Elems(keys) <= services.Keys
      modifies this`clock, this`back, this`takebacks, file
      ensures Valid() && began < clock == old(clock) + 1
      ensures ports.None? ==> Own() == old(Own())
      ensures ports.None? ==> 0 < clock && AllocationRefused(services, file.stored, runId, pid, script(clock - 1).os)
      ensures ports.Some? ==> FixedChecked(services, map[], Elems(keys), old(Own()), ExposedBy(written),
                                      FreeIn(script(clock - 1).os))
      ensures ports.Some? ==>
                && ports.value.Keys == Elems(keys)
                && Own() == old(Own()) + PublicClaims(ports.value)
                && (forall s :: s in ports.value ==> PortFits(services[s].port, ports.value[s]))
    {
      hide FreeBetween;
      hide SyncedBetween;
      hide SyncedIn;
      hide FixedChecked;
      hide HeldBy;
      hide OwnedBy;
      hide HashesCover;
      hide CaptureMarked;
      hide Committed;
      hide Answered;
      hide RequestsOf;
      hide PublicClaims;
      hide Grown;
      hide Steady;
      hide ExposedBy;
      ValidParts();
      var turn := Ask();
      var requests := BuildRequests(services, keys, runId);
      BuiltRequests(services, keys, runId);
      var t := Transaction(Allocate(requests), pid, turn.os);
      OwnAllocate(file.stored, t, runId, Elems(keys));
      ghost var held := Held();
      if Answered(file.stored, t).Success? {
        AllocationAnswers(file.stored, t, services, keys, runId, ExposedBy(written));
      }
      hide PortFits;
      var r := file.AllocatePorts(requests, pid, turn.os);
      if r.Failure? {
        return None;
      }
      TakenOwn(held, back, PublicClaims(r.value));
      back := back - PublicClaims(r.value);
      ghost var free := FreeIn(turn.os);
      FixedCheckedMore(services, map[], Elems(keys), held, ExposedBy(written), free, old(Own()), free);
      return Some(r.value);
    }

    /** The same, and the ports reported free in that transaction count as looked at. */
    method AllocatePorts(services: map<string, ServiceConfig>, keys: seq<string>)
      returns (ports: Option<map<string, Option<Port>>>)
      requires Valid() && AllPlain(services.Keys) && NoDup(keys) && Elems(keys) <= services.Keys
      modifies this`clock, this`back, this`takebacks, this`checked, file
      ensures Valid() && old(checked) <= checked
      ensures ports.None? ==> Own() == old(Own())
      ensures ports.None? ==> 0 < clock && AllocationRefused(services, file.stored, runId, pid, script(clock - 1).os)
      ensures ports.Some? ==> FixedChecked(services, map[], Elems(keys), old(Own()), ExposedBy(written), checked)
      ensures ports.Some? ==>
                && ports.value.Keys == Elems(keys)
                && Own() == old(Own()) + PublicClaims(ports.value)
                && (forall s :: s in ports.value ==> PortFits(services[s].port, ports.value[s]))
    {
      hide Valid;
      hide Held;
      hide Own;
      hide AllPlain;
      hide NoDup;
      hide FixedChecked;
      hide AllocationRefused;
      hide PortFits;
      hide PublicClaims;
      hide ExposedBy;
      ports := AllocateInTurn(services, keys);
      if ports.Some? {
        ghost var free := FreeIn(script(clock - 1).os);
        Check(free);
        FixedCheckedMore(services, map[], Elems(keys), old(Own()), ExposedBy(written), free, old(Own()), checked);
      }
    }

    /** The port of one service during a refresh, or the wish to have one granted. */
    method ResolvePort(name: string, config: Option<PortConfig>, existing: map<string, Record>, reusePorts: bool)
      returns (ok: bool, port: Option<Port>, wantsAny: bool)
      requires Valid() && Plain(name)
      modifies this`clock, this`back, this`takebacks, this`checked, file
      ensures Valid() && old(checked) <= checked
      ensures forall p: Port :: ok && config == Some(Fixed(p)) && PreviousPort(existing, name) != Some(p) ==>
                p in checked || Claim(p, Public, name) in old(Own()) || Claim(p, Public, name) in ExposedBy(written)
      ensures !ok ==>
                && 0 < clock
                && PortRefused(config, PreviousPort(existing, name), file.stored, OwnerOf(runId, Public, name),
                               script(clock - 1).os)
      ensures ok ==> Own() == old(Own()) + PublicOf(name, port)
      ensures ok ==> if wantsAny then port.None? && Asks(config, PreviousPort(existing, name), reusePorts)
                     else PortChoice(config, PreviousPort(existing, name), reusePorts, port)
    {
      ok, port, wantsAny := true, None, false;
      var previous := PreviousPort(existing, name);
      match config
      case Some(Text(_)) =>
      case Some(Fixed(value)) =>
        ghost var free := script(clock).os.free;
        ok := Reserve(value, Public, name, previous != Some(value));
        port := Some(value);
        if value in free {
          Check(iset{value});
        }
      case None =>
        if reusePorts && previous.Some? {
          ok := Reserve(previous.value, Public, name, false);
          port := previous;
        } else {
          wantsAny := true;
        }
      SinglePublic(name, port);
    }

    /** Ports for the services still without one, in one transaction. */
    method GrantOpen(services: map<string, ServiceConfig>, existing: map<string, Record>, reusePorts: bool,
                     portMap: map<string, Option<Port>>, needsAlloc: seq<string>)
      returns (ports: Option<map<string, Option<Port>>>)
      requires Valid() && AllPlain(services.Keys) && NoDup(needsAlloc)
      requires Choosing(services, existing, reusePorts, portMap, Elems(needsAlloc))
      requires PublicClaims(portMap) <= Own()
      modifies this`clock, this`back, this`takebacks, this`checked, file
      ensures Valid() && old(checked) <= checked
      ensures ports.None? ==> 0 < clock && AllocationRefused(services, file.stored, runId, pid, script(clock - 1).os)
      ensures ports.Some? ==>
                && ports.value.Keys == portMap.Keys
                && PublicClaims(portMap) <= PublicClaims(ports.value)
                && Own() == old(Own()) + PublicClaims(ports.value)
                && Choosing(services, existing, reusePorts, ports.value, {})
    {
      hide AllocationRefused;
      hide Held;
      hide Own;
      hide Valid;
      hide AllPlain;
      hide PublicClaims;
      OpenIsUnset(services, existing, reusePorts, portMap, Elems(needsAlloc));
      hide Choosing;
      ports := Some(portMap);
      if needsAlloc != [] {
        ports := AllocatePorts(services, needsAlloc);
        if ports.Some? {
          PublicMerge(portMap, ports.value);
          ChoosingDone(services, existing, reusePorts, portMap, Elems(needsAlloc), ports.value);
          ports := Some(portMap + ports.value);
        }
      }
    }

    method ResolvePortsForRefresh(services: map<string, ServiceConfig>, keys: seq<string>, existing: map<string, Record>,
                                  reusePorts: bool)
      returns (ports: Option<map<string, Option<Port>>>)
      requires Valid() && AllPlain(services.Keys) && Enumerates(keys, services.Keys)
      modifies this`clock, this`back, this`takebacks, this`checked, file
      ensures Valid() && old(checked) <= checked
      ensures ports.Some? ==> FixedChecked(services, existing, services.Keys, old(Own()), ExposedBy(written), checked)
      ensures ports.None? ==>
                && 0 < clock
                && (|| AllocationRefused(services, file.stored, runId, pid, script(clock - 1).os)
                    || exists s :: s in services && PortRefused(services[s].port, PreviousPort(existing, s), file.stored,
                                                               OwnerOf(runId, Public, s), script(clock - 1).os))
      ensures ports.Some? ==>
                && ports.value.Keys == services.Keys
                && Own() == old(Own()) + PublicClaims(ports.value)
                && Choosing(services, existing, reusePorts, ports.value, {})
    {
      hide Held;
      hide Own;
      hide Valid;
      hide Plain;
      hide PublicOf;
      hide PortChoice;
      hide Asks;
      hide AllocationRefused;
      hide Choosing;
      hide FixedChecked;
      hide FreeBetween;
      hide ExposedBy;
      hide PortRefused;
      hide OwnerOf;
      hide Grown;
      hide Steady;
      NothingChosen(services, existing, reusePorts, Own(), ExposedBy(written), checked);
      hide PublicClaims;
      var portMap: map<string, Option<Port>> := map[];
      var needsAlloc: seq<string> := [];
      TakeAll(keys);
      assert Elems<string>([]) == {};
      for i := 0 to |keys|
        invariant Valid()
        invariant portMap.Keys == Elems(keys[..i])
        invariant NoDup(needsAlloc) && Elems(needsAlloc) <= services.Keys
        invariant Choosing(services, existing, reusePorts, portMap, Elems(needsAlloc))
        invariant Own() == old(Own()) + PublicClaims(portMap) && old(checked) <= checked
        invariant FixedChecked(services, existing, Elems(keys[..i]), old(Own()), ExposedBy(written), checked)
      {
        NextKey(keys, i, services.Keys);
        ghost var own, before := Own(), checked;
        var ok, port, wantsAny := ResolvePort(keys[i], services[keys[i]].port, existing, reusePorts);
        if !ok {
          return None;
        }
        FixedCheckedNext(services, existing, portMap, keys[i], old(Own()), ExposedBy(written), before, checked);
        ChoosingNext(services, existing, reusePorts, portMap, Elems(needsAlloc), keys[i], port, wantsAny);
        if wantsAny {
          ElemsAppend(needsAlloc, keys[i]);
          NoDupSnoc(needsAlloc, keys[i]);
          needsAlloc := needsAlloc + [keys[i]];
        }
        PublicGrow(portMap, keys[i], port);
        portMap := portMap[keys[i] := port];
      }
      ghost var before := checked;
      ports := GrantOpen(services, existing, reusePorts, portMap, needsAlloc);
      FixedCheckedMore(services, existing, services.Keys, old(Own()), ExposedBy(written), before, old(Own()), checked);
    }

    /** The listen port of one service: its public port, or a backend port of its own when it is captured. */
    method ListenPort(name: string, svc: ServiceConfig, publicPort: Option<Port>, existing: map<string, Record>, reusePorts: bool)
      returns (ok: bool, listen: Option<Port>)
      requires Valid() && Plain(name)
      requires publicPort.Some? ==> Claim(publicPort.value, Public, name) in Own()
      modifies this`clock, this`back, this`takebacks, file
      ensures Valid()
      ensures ok ==> Own() == old(Own()) + BackendOf(name, publicPort, listen)
      ensures ok ==> ListenChoice(svc, publicPort, PreviousListen(existing, name), reusePorts, listen)
      ensures !ok ==>
                && 0 < clock
                && ListenRefused(svc, publicPort, PreviousListen(existing, name), reusePorts, file.stored,
                                 OwnerOf(runId, Backend, name), script(clock - 1).os)
    {
      if !CaptureEnabled(svc, publicPort.Some?) {
        return true, publicPort;
      }
      var previous := PreviousListen(existing, name);
      if reusePorts && previous.Some? && previous != publicPort {
        ok := Reserve(previous.value, Backend, name, false);
        listen := previous;
      } else {
        listen := ReserveAnyPort(Backend, name);
        ok := listen.Some?;
      }
      SingleBackend(name, publicPort, listen);
    }

    method ResolveListenPorts(services: map<string, ServiceConfig>, keys: seq<string>, ports: map<string, Option<Port>>,
                              existing: map<string, Record>, reusePorts: bool)
      returns (listens: Option<map<string, Option<Port>>>)
      requires Valid() && AllPlain(services.Keys) && Enumerates(keys, services.Keys) && ports.Keys == services.Keys
      requires PublicClaims(ports) <= Own()
      modifies this`clock, this`back, this`takebacks, file
      ensures Valid()
      ensures listens.Some? ==>
                && listens.value.Keys == services.Keys
                && Own() == old(Own()) + BackendClaims(Resources(ports, listens.value))
                && (forall s :: s in services ==>
                      ListenChoice(services[s], ports[s], PreviousListen(existing, s), reusePorts, listens.value[s]))
      ensures listens.None? ==>
                && 0 < clock
                && exists s ::
                     && s in services
                     && ListenRefused(services[s], ports[s], PreviousListen(existing, s), reusePorts, file.stored,
                                      OwnerOf(runId, Backend, s), script(clock - 1).os)
    {
      hide ListenRefused;
      hide OwnerOf;
      hide Held;
      hide Own;
      hide Valid;
      hide Plain;
      hide BackendOf;
      hide ListenChoice;
      hide PreviousListen;
      assert BackendClaims(Resources(ports, map[])) == iset{};
      hide BackendClaims;
      var listenMap: map<string, Option<Port>> := map[];
      TakeAll(keys);
      assert Elems<string>([]) == {};
      for i := 0 to |keys|
        invariant Valid()
        invariant listenMap.Keys == Elems(keys[..i]) <= services.Keys
        invariant forall s :: s in listenMap ==>
            ListenChoice(services[s], ports[s], PreviousListen(existing, s), reusePorts, listenMap[s])
        invariant Own() == old(Own()) + BackendClaims(Resources(ports, listenMap))
      {
        NextKey(keys, i, services.Keys);
        var ok, listen := ListenPort(keys[i], services[keys[i]], ports[keys[i]], existing, reusePorts);
        if !ok {
          return None;
        }
        BackendGrow(ports, listenMap, keys[i], listen);
        listenMap := listenMap[keys[i] := listen];
      }
      return Some(listenMap);
    }

    // ---- Giving ports up ----

    /** Errors are reported and ignored; either way the claim is gone. */
    method GiveUpService(name: string, port: Option<Port>, listen: Option<Port>, keptPort: Option<Port>, keptListen: Option<Port>)
      requires Valid() && Plain(name)
      modifies this`clock, this`back, this`takebacks, file
      ensures Valid()
      ensures Own() == old(Own()) - GivenUpOf(name, port, listen, keptPort, keptListen)
      ensures Steady() ==> takebacks == old(takebacks)
    {
      hide Held;
      hide Own;
      GivenUpParts(name, port, listen, keptPort, keptListen);
      SingleBackend(name, keptPort, keptListen);
      SingleBackend(name, port, listen);
      SinglePublic(name, port);
      hide PublicOf;
      hide BackendOf;
      hide GivenUpOf;
      if keptListen.Some? && keptListen != keptPort && keptListen != listen {
        var _ := ReleaseBackendPort(name, keptListen, keptPort);
      }
      if listen.Some? && listen != port && keptListen != listen {
        var _ := ReleaseBackendPort(name, listen, port);
      }
      if port.Some? && keptPort != port {
        var _ := ReleaseServicePort(name, port);
      }
    }

    method ReleaseUnpreserved(keys: seq<string>, r: Resources, kept: map<string, Record>)
      requires Valid() && AllPlain(Elems(keys))
      modifies this`clock, this`back, this`takebacks, file
      ensures Valid()
      ensures Own() == old(Own()) - Unpreserved(Elems(keys), r, kept)
      ensures Steady() ==> takebacks == old(takebacks)
    {
      hide Held;
      hide Own;
      hide GivenUpOf;
      assert Unpreserved({}, r, kept) == iset{};
      hide Unpreserved;
      TakeAll(keys);
      assert Elems<string>([]) == {};
      for i := 0 to |keys|
        invariant Valid()
        invariant Own() == old(Own()) - Unpreserved(Elems(keys[..i]), r, kept)
        invariant Steady() ==> takebacks == old(takebacks)
      {
        var name := keys[i];
        assert name in Elems(keys);
        TakeNext(keys, i);
        ElemsAppend(keys[..i], name);
        UnpreservedGrow(Elems(keys[..i]), name, r, kept);
        GiveUpService(name, Get(r.ports, name), Get(r.listens, name),
                      if name in kept then kept[name].port else None, if name in kept then kept[name].listen else None);
      }
    }

    method ReleaseRecord(name: string, record: Record) returns (ok: bool)
      requires Valid() && Plain(name)
      modifies this`clock, this`back, this`takebacks, file
      ensures Valid()
      ensures ok ==> Own() == old(Own()) - (BackendOf(name, record.port, record.listen) + PublicOf(name, record.port))
      ensures BackendOf(name, record.port, record.listen) + PublicOf(name, record.port) <= old(Own()) ==>
                ok && Grown(old(back), old(takebacks), back, takebacks)
    {
      hide Held;
      hide Own;
      SingleBackend(name, record.port, record.listen);
      SinglePublic(name, record.port);
      hide PublicOf;
      hide BackendOf;
      ok := ReleaseBackendPort(name, record.listen, record.port);
      if ok {
        ok := ReleaseServicePort(name, record.port);
      }
    }

    /** Releases both ports of each listed record; the first failure stops. */
    method ReleaseAll(keys: seq<string>, snapshot: map<string, Record>) returns (ok: bool)
      requires Valid() && Elems(keys) <= snapshot.Keys && AllPlain(snapshot.Keys) && NoDup(keys)
      modifies this`clock, this`back, this`takebacks, file
      ensures Valid()
      ensures ok ==> Own() == old(Own()) - Recorded(Restrict(snapshot, Elems(keys)))
      ensures Recorded(Restrict(snapshot, Elems(keys))) <= old(Own()) ==>
                ok && Grown(old(back), old(takebacks), back, takebacks)
    {
      hide Held;
      hide Own;
      hide PublicOf;
      hide BackendOf;
      assert Recorded(Restrict(snapshot, {})) == iset{};
      hide Recorded;
      hide Restrict;
      TakeAll(keys);
      assert Elems<string>([]) == {};
      for i := 0 to |keys|
        invariant Valid()
        invariant Own() == old(Own()) - Recorded(Restrict(snapshot, Elems(keys[..i])))
        invariant Recorded(Restrict(snapshot, Elems(keys))) <= old(Own()) ==> Grown(old(back), old(takebacks), back, takebacks)
      {
        var name := keys[i];
        NextKey(keys, i, Elems(keys));
        RecordedGrow(snapshot, Elems(keys[..i]), name);
        RecordedIncludes(snapshot, Elems(keys), name);
        RecordedExcludes(snapshot, Elems(keys[..i]), name);
        ok := ReleaseRecord(name, snapshot[name]);
        if !ok {
          return;
        }
      }
      ok := true;
    }

    // ---- Resources of a launch ----

    method ListOf(names: set<string>) returns (keys: seq<string>)
      ensures Enumerates(keys, names)
    {
      keys := [];
      var left := names;
      while left != {}
        invariant NoDup(keys) && left <= names && Elems(keys) == names - left
        decreases left
      {
        var name :| name in left;
        ElemsAppend(keys, name);
        NoDupSnoc(keys, name);
        keys, left := keys + [name], left - {name};
      }
    }

    method SyncService(name: string, record: Record) returns (ok: bool)
      requires Valid() && Plain(name)
      modifies this`clock, this`back, this`takebacks, file
      ensures Valid()
      ensures ok ==> Own() == old(Own()) + MarkedOf(name, record)
      ensures !ok ==> old(Own()) <= Own() <= old(Own()) + MarkedOf(name, record)
      ensures !ok ==> 0 < clock && SyncBlocked(file.stored, runId, name, record, script(clock - 1).os.alive)
    {
      hide OwnerOf;
      hide TakenByOther;
      hide Held;
      hide Own;
      SinglePublic(name, record.port);
      SingleBackend(name, record.port, record.listen);
      hide PublicOf;
      hide BackendOf;
      ok := true;
      if record.port.Some? {
        ok := Reserve(record.port.value, Public, name, false);
      }
      if ok && record.listen.Some? && record.capture && record.listen != record.port {
        ok := Reserve(record.listen.value, Backend, name, false);
      }
    }

    method SyncServices(services: map<string, Record>) returns (ok: bool)
      requires Valid() && AllPlain(services.Keys)
      modifies this`clock, this`back, this`takebacks, file
      ensures Valid()
      ensures ok ==> Own() == old(Own()) + Marked(services)
      ensures old(Own()) <= Own() <= old(Own()) + Marked(services)
      ensures !ok ==>
                && 0 < clock
                && exists s :: s in services && SyncBlocked(file.stored, runId, s, services[s], script(clock - 1).os.alive)
    {
      hide SyncBlocked;
      hide Held;
      hide Own;
      hide Valid;
      hide Plain;
      hide MarkedOf;
      RestrictAll(services);
      assert Marked(map[]) == iset{};
      hide Marked;
      hide Restrict;
      var keys := ListOf(services.Keys);
      TakeAll(keys);
      assert Elems<string>([]) == {};
      for i := 0 to |keys|
        invariant Valid()
        invariant Own() == old(Own()) + Marked(Restrict(services, Elems(keys[..i])))
      {
        NextKey(keys, i, services.Keys);
        MarkedGrow(services, Elems(keys[..i]), keys[i]);
        MarkedIncludes(services, Elems(keys[..i + 1]));
        ok := SyncService(keys[i], services[keys[i]]);
        if !ok {
          return;
        }
      }
      ok := true;
    }

    /** Repeats the reservations of every manifest on disk; the other runs' are answered as one. */
    method SyncFromDisk() returns (ok: bool)
      requires Valid()
      modifies this`clock, this`back, this`takebacks, file
      ensures Valid()
      ensures ok ==> Own() == old(Own()) + ManifestClaims(manifest)
      ensures old(Own()) <= Own() <= old(Own()) + ManifestClaims(manifest)
      ensures !ok ==>
                || !script(old(clock)).ok
                || (0 < clock && manifest.Some? && manifest.value.restorable
                    && exists s :: s in manifest.value.services
                                   && SyncBlocked(file.stored, runId, s, manifest.value.services[s], script(clock - 1).os.alive))
    {
      hide SyncBlocked;
      hide Held;
      hide Own;
      hide Valid;
      hide AllPlain;
      hide Marked;
      ValidParts();
      var others := Ask();
      ok := others.ok;
      if ok && manifest.Some? && manifest.value.restorable {
        ok := SyncServices(manifest.value.services);
      }
    }

    /** Globals, listen ports and the base environment, once the public ports are chosen. */
    method FinishResources(services: map<string, ServiceConfig>, keys: seq<string>, ports: map<string, Option<Port>>,
                           existing: map<string, Record>, reusePorts: bool)
      returns (result: RunResult, r: Resources)
      requires Valid() && AllPlain(services.Keys) && Enumerates(keys, services.Keys) && ports.Keys == services.Keys
      requires PublicClaims(ports) <= Own()
      modifies this`clock, this`back, this`takebacks, file
      ensures Valid()
      ensures result in {GlobalsFailed, ListensFailed, EnvFailed, Completed}
      ensures result.GlobalsFailed? <==> !script(old(clock)).ok
      ensures result.ListensFailed? ==>
                && 0 < clock
                && exists s ::
                     && s in services
                     && ListenRefused(services[s], ports[s], PreviousListen(existing, s), reusePorts, file.stored,
                                      OwnerOf(runId, Backend, s), script(clock - 1).os)
      ensures result.GlobalsFailed? ==>
                Own() == old(Own()) - Unpreserved(services.Keys, Resources(ports, map[]), if reusePorts then existing else map[])
      ensures result.EnvFailed? ==>
                && r.ports == ports && r.listens.Keys == services.Keys
                && Own() == old(Own()) + BackendClaims(r)
                             - Unpreserved(services.Keys, r, if reusePorts then existing else map[])
      ensures result.Completed? ==>
                && r.ports == ports && r.listens.Keys == services.Keys
                && Own() == old(Own()) + BackendClaims(r)
                && (forall s :: s in services ==>
                      ListenChoice(services[s], ports[s], PreviousListen(existing, s), reusePorts, r.listens[s]))
    {
      hide ListenRefused;
      hide OwnerOf;
      hide Held;
      hide Own;
      hide Unpreserved;
      hide PublicClaims;
      hide BackendClaims;
      hide ListenChoice;
      hide PreviousListen;
      r := Resources(ports, map[]);
      var preserved := if reusePorts then existing else map[];
      var globals := Ask();
      if !globals.ok {
        ReleaseUnpreserved(keys, r, preserved);
        return GlobalsFailed, r;
      }
      var listens := ResolveListenPorts(services, keys, ports, existing, reusePorts);
      if listens.None? {
        return ListensFailed, r;
      }
      r := Resources(ports, listens.value);
      var env := Ask();
      if !env.ok {
        ReleaseUnpreserved(keys, r, preserved);
        return EnvFailed, r;
      }
      return Completed, r;
    }

    // ---- Launching ----

    /** Writes the run's manifest, then the daemon state. A failure leaves the old manifest unless it came late. */
    method Persist() returns (ok: bool)
      requires Valid()
      modifies this`clock, this`back, this`takebacks, this`manifest, this`written, file
      ensures Valid() && Own() == old(Own())
      ensures ok == script(old(clock)).ok
      ensures if ok || script(old(clock)).late
              then manifest == Some(Manifest(!stopped, records)) && written == old(written) + [Manifest(!stopped, records)]
              else manifest == old(manifest) && written == old(written)
      ensures Grown(old(back), old(takebacks), back, takebacks)
      ensures old(written) == [] ==> takebacks == 0
    {
      hide SyncedBetween;
      hide SyncedIn;
      hide ExposedBy;
      hide HashesCover;
      hide CaptureMarked;
      hide Held;
      ValidParts();
      var turn := Ask();
      ok := turn.ok;
      if ok || turn.late {
        var next := Manifest(!stopped, records);
        ExposedGrow(written, next);
        manifest, written := Some(next), written + [next];
      }
    }

    method ReleasePrevious(name: string, r: Resources, existing: map<string, Record>) returns (ok: bool)
      requires Valid() && Plain(name) && name in r.ports && name in r.listens
      requires PublicOf(name, r.ports[name]) + BackendOf(name, r.ports[name], r.listens[name]) <= Own()
      modifies this`clock, this`back, this`takebacks, file
      ensures Valid()
      ensures ok ==> Own() == old(Own()) - Obsolete({name}, existing, r)
      ensures (name in existing ==>
                 PublicOf(name, existing[name].port) + BackendOf(name, existing[name].port, existing[name].listen) <= old(Own()))
              ==> ok
    {
      ValidParts();
      DroppedIsObsolete(file.stored, runId, Own(), name, r, existing);
      hide Obsolete;
      hide Plain;
      ok := true;
      if name in existing {
        var previous := existing[name];
        SinglePublic(name, previous.port);
        SingleBackend(name, previous.port, previous.listen);
        hide PublicOf;
        hide BackendOf;
        if previous.port.Some? && previous.port != r.ports[name] {
          ok := ReleaseServicePort(name, previous.port);
        }
        if ok && previous.listen.Some? && previous.listen != r.listens[name] && previous.listen != previous.port {
          ok := ReleaseBackendPort(name, previous.listen, previous.port);
        }
      }
    }

    /** Replaces the record of one service. */
    method Store(name: string, record: Record)
      requires Valid() && Plain(name)
      requires record.hash.port == record.port && record.hash.listen == record.listen
      requires record.listen != record.port ==> record.capture
      modifies this`records
      ensures Valid() && records == old(records)[name := record]
    {
      records := records[name := record];
    }

    /** Records that a started service did not come up, and writes the manifest if that works. */
    method RecordUnready(name: string, record: Record)
      requires Valid() && Plain(name)
      requires record.hash.port == record.port && record.hash.listen == record.listen
      requires record.listen != record.port ==> record.capture
      modifies this`clock, this`back, this`takebacks, this`records, this`manifest, this`written, file
      ensures Valid() && Own() == old(Own())
      ensures records == old(records)[name := record.(state := Failed)]
      ensures Unwritten(old(written), written, true, stopped, records)
      ensures old(written) == [] ==> takebacks == 0
    {
      hide Held;
      hide Own;
      hide Valid;
      hide Plain;
      Store(name, record.(state := Failed));
      var _ := Persist();
    }

    /** Records a service whose start was attempted, and waits for it to be ready unless told not to. */
    method RecordStarted(name: string, record: Record, started: bool, noWait: bool) returns (result: Launch)
      requires Valid() && Plain(name)
      requires record.hash.port == record.port && record.hash.listen == record.listen
      requires record.listen != record.port ==> record.capture
      modifies this`clock, this`back, this`takebacks, this`records, this`manifest, this`written, file
      ensures Valid() && Own() == old(Own())
      ensures name in records && records == old(records)[name := record.(state := records[name].state)]
      ensures result.Stored? || result.Unready?
      ensures result.Stored? ==> records[name].state == if !started then Failed else if noWait then Starting else Ready
      ensures result.Unready? ==> started && records[name].state.Failed?
      ensures result.Unready? <==> started && (!script(old(clock)).ok || (!noWait && !script(old(clock) + 1).ok))
      ensures Unwritten(old(written), written, result.Unready?, stopped, records)
      ensures old(written) == [] ==> takebacks == 0
    {
      hide FreeBetween;
      hide SyncedIn;
      hide SyncedBetween;
      hide Held;
      hide Own;
      hide Valid;
      hide Plain;
      hide ExposedBy;
      hide Grown;
      hide Steady;
      ValidParts();
      Store(name, record.(state := if started then Starting else Failed));
      Overwritten(old(records), name, records[name], record.(state := Failed));
      Overwritten(old(records), name, records[name], record.(state := Ready));
      Overwritten(old(records), name, records[name], record.(state := Starting));
      result := Stored;
      if started {
        result := AwaitReady(name, record, noWait);
      }
    }

    /** Starts the proxy of a unit that has started and, unless told not to, waits until the service is ready. */
    method AwaitReady(name: string, record: Record, noWait: bool) returns (result: Launch)
      requires Valid() && Plain(name)
      requires record.hash.port == record.port && record.hash.listen == record.listen
      requires record.listen != record.port ==> record.capture
      requires name in records && records[name] == record.(state := Starting)
      modifies this`clock, this`back, this`takebacks, this`records, this`manifest, this`written, file
      ensures Valid() && Own() == old(Own())
      ensures result.Stored? || result.Unready?
      ensures records == old(records)[name := record.(state := if result.Unready? then Failed else if noWait then Starting else Ready)]
      ensures result.Unready? <==> !script(old(clock)).ok || (!noWait && !script(old(clock) + 1).ok)
      ensures Unwritten(old(written), written, result.Unready?, stopped, records)
      ensures old(written) == [] ==> takebacks == 0
    {
      hide FreeBetween;
      hide SyncedIn;
      hide SyncedBetween;
      hide Held;
      hide Own;
      hide Valid;
      hide Plain;
      hide ExposedBy;
      hide Grown;
      hide Steady;
      ValidParts();
      var proxy := Ask();
      if !proxy.ok {
        RecordUnready(name, record);
        return Unready;
      }
      if !noWait {
        var check := Ask();
        if !check.ok {
          RecordUnready(name, record);
          return Unready;
        }
        Store(name, record.(state := Ready));
      }
      ValidParts();
      return Stored;
    }

    /** Starts a unit, gives up the old ports and records the service, however the start went. */
    method StartService(name: string, r: Resources, record: Record, noWait: bool, existing: map<string, Record>)
      returns (result: Launch)
      requires Valid() && Plain(name)
      requires name in r.ports && name in r.listens && record.port == r.ports[name] && record.listen == r.listens[name]
      requires record.hash.port == record.port && record.hash.listen == record.listen
      requires record.listen != record.port ==> record.capture
      requires PublicOf(name, r.ports[name]) + BackendOf(name, r.ports[name], r.listens[name]) <= Own()
      modifies this`clock, this`back, this`takebacks, this`records, this`manifest, this`written, file
      ensures Valid()
      ensures result in {ReleaseRefused, Stored, Unready}
      ensures result.ReleaseRefused? ==> records == old(records)
      ensures !result.ReleaseRefused? ==>
                && name in records && records == old(records)[name := record.(state := records[name].state)]
                && Own() == old(Own()) - Obsolete({name}, existing, r)
      ensures result.Stored? ==>
                records[name].state == if !script(old(clock)).ok then Failed else if noWait then Starting else Ready
      ensures result.Unready? ==> script(old(clock)).ok && records[name].state.Failed?
      ensures Unwritten(old(written), written, result.Unready?, stopped, records)
      ensures old(written) == [] ==> takebacks == 0
      ensures (name in existing ==>
                 PublicOf(name, existing[name].port) + BackendOf(name, existing[name].port, existing[name].listen) <= old(Own()))
              ==> !result.ReleaseRefused?
    {
      hide Held;
      hide Own;
      hide Valid;
      hide Plain;
      hide PublicOf;
      hide BackendOf;
      hide Obsolete;
      hide ExposedBy;
      hide Grown;
      hide Steady;
      hide SyncedIn;
      hide SyncedBetween;
      var start := Ask();
      var released := ReleasePrevious(name, r, existing);
      if !released {
        ValidParts();
        return ReleaseRefused;
      }
      result := RecordStarted(name, record, start.ok, noWait);
    }

    /** Runs the init tasks of a service, if it has any, and starts it when they work. */
    method AttemptService(name: string, svc: ServiceConfig, r: Resources, record: Record, noWait: bool, existing: map<string, Record>)
      returns (result: Launch)
      requires Valid() && Plain(name)
      requires name in r.ports && name in r.listens && record.port == r.ports[name] && record.listen == r.listens[name]
      requires record.hash.port == record.port && record.hash.listen == record.listen
      requires record.listen != record.port ==> record.capture
      requires PublicOf(name, r.ports[name]) + BackendOf(name, r.ports[name], r.listens[name]) <= Own()
      modifies this`clock, this`back, this`takebacks, this`records, this`manifest, this`written, file
      ensures Valid()
      ensures result in {ReleaseRefused, InitBroken, Stored, Unready}
      ensures result.ReleaseRefused? ==> records == old(records)
      ensures !result.ReleaseRefused? ==> name in records && records == old(records)[name := record.(state := records[name].state)]
      ensures result.InitBroken? <==> svc.hasInit && !script(old(clock)).ok
      ensures result.InitBroken? || result.Unready? ==> records[name].state.Failed?
      ensures result.Stored? ==>
                records[name].state == if !script(old(clock) + if svc.hasInit then 1 else 0).ok then Failed
                                       else if noWait then Starting else Ready
      ensures result.InitBroken? ==> Own() == old(Own())
      ensures result.Stored? || result.Unready? ==> Own() == old(Own()) - Obsolete({name}, existing, r)
      ensures Unwritten(old(written), written, result.Unready?, stopped, records)
      ensures old(written) == [] ==> takebacks == 0
      ensures (name in existing ==>
                 PublicOf(name, existing[name].port) + BackendOf(name, existing[name].port, existing[name].listen) <= old(Own()))
              ==> !result.ReleaseRefused?
    {
      hide Held;
      hide Own;
      hide Valid;
      hide Plain;
      hide PublicOf;
      hide BackendOf;
      hide Obsolete;
      hide ExposedBy;
      hide Grown;
      hide Steady;
      hide SyncedIn;
      hide SyncedBetween;
      hide FreeBetween;
      if svc.hasInit {
        var init := Ask();
        ValidParts();
        if !init.ok {
          Store(name, record.(state := Failed));
          return InitBroken;
        }
      }
      result := StartService(name, r, record, noWait, existing);
    }

    /** Leaves a prepared service running when nothing about it changed, and otherwise attempts to start it. */
    method LaunchPrepared(name: string, svc: ServiceConfig, r: Resources, record: Record, noWait: bool, force: bool,
                          existing: map<string, Record>)
      returns (result: Launch)
      requires Valid() && Plain(name) && HashesCover(existing)
      requires name in r.ports && name in r.listens && record.port == r.ports[name] && record.listen == r.listens[name]
      requires record.hash.port == record.port && record.hash.listen == record.listen
      requires record.listen != record.port ==> record.capture
      requires name in existing ==> name in records
      requires PublicOf(name, r.ports[name]) + BackendOf(name, r.ports[name], r.listens[name]) <= Own()
      modifies this`clock, this`back, this`takebacks, this`attempted, this`records, this`manifest, this`written, file
      ensures Valid()
      ensures result in {ReleaseRefused, Unchanged, InitBroken, Stored, Unready}
      ensures attempted == old(attempted) + (if result.Unchanged? then {} else {name})
      ensures result.ReleaseRefused? ==> records == old(records)
      ensures !result.ReleaseRefused? ==> name in records && records == old(records)[name := record.(state := records[name].state)]
      ensures result.Unchanged? <==>
                !force && name in existing && existing[name].state in {Starting, Ready} && existing[name].hash == record.hash
      ensures result.Unchanged? ==>
                && Obsolete({name}, existing, r) == iset{}
                && name in old(records) && records[name].state == old(records)[name].state
      ensures !result.Unchanged? ==> (result.InitBroken? <==> svc.hasInit && !script(old(clock)).ok)
      ensures result.InitBroken? || result.Unready? ==> records[name].state.Failed?
      ensures result.Stored? ==>
                records[name].state == if !script(old(clock) + if svc.hasInit then 1 else 0).ok then Failed
                                       else if noWait then Starting else Ready
      ensures result.Unchanged? || result.InitBroken? ==> Own() == old(Own())
      ensures result.Stored? || result.Unready? ==> Own() == old(Own()) - Obsolete({name}, existing, r)
      ensures Unwritten(old(written), written, result.Unready?, stopped, records)
      ensures old(written) == [] ==> takebacks == 0
      ensures (name in existing ==>
                 PublicOf(name, existing[name].port) + BackendOf(name, existing[name].port, existing[name].listen) <= old(Own()))
              ==> !result.ReleaseRefused?
    {
      hide Obsolete;
      hide Held;
      hide Own;
      hide Valid;
      hide Plain;
      hide PublicOf;
      hide BackendOf;
      hide NeedsRestart;
      hide HashesCover;
      ValidParts();
      KeptService(force, existing, name, record.hash, r);
      if existing != map[] && !NeedsRestart(force, existing, name, record.hash) {
        Store(name, record.(state := records[name].state));
        return Unchanged;
      }
      attempted := attempted + {name};
      result := AttemptService(name, svc, r, record, noWait, existing);
    }

    /** Starts one service, or leaves it running when nothing about it changed. */
    method LaunchService(name: string, svc: ServiceConfig, r: Resources, noWait: bool, force: bool, existing: map<string, Record>)
      returns (result: Launch)
      requires Valid() && Plain(name) && HashesCover(existing)
      requires name in r.ports && name in r.listens && ListenFits(svc, r.ports[name], r.listens[name])
      requires name in existing ==> name in records
      requires PublicOf(name, r.ports[name]) + BackendOf(name, r.ports[name], r.listens[name]) <= Own()
      modifies this`clock, this`back, this`takebacks, this`launches, this`attempted, this`records, this`manifest,
               this`written, file
      ensures Valid() && launches == old(launches) + [name]
      ensures attempted == old(attempted) + (if result.Unprepared? || result.Unchanged? then {} else {name})
      ensures result.Unprepared? <==> !script(old(clock)).ok
      ensures result.Unprepared? || result.ReleaseRefused? ==> records == old(records)
      ensures !result.Unprepared? && !result.ReleaseRefused? ==>
                && name in records && records == old(records)[name := records[name]]
                && records[name].port == r.ports[name] && records[name].listen == r.listens[name]
                && records[name].hash == WatchHash(r.ports[name], r.listens[name], script(old(clock)).rest)
                && (records[name].capture <==> CaptureEnabled(svc, r.ports[name].Some?))
      ensures result.Unprepared? || result.Unchanged? || result.InitBroken? ==> Own() == old(Own())
      ensures !result.Unprepared? ==>
                (result.Unchanged? <==>
                   !force && name in existing && existing[name].state in {Starting, Ready}
                   && existing[name].hash == WatchHash(r.ports[name], r.listens[name], script(old(clock)).rest))
      ensures !result.Unprepared? && !result.Unchanged? ==>
                (result.InitBroken? <==> svc.hasInit && !script(old(clock) + 1).ok)
      ensures result.Stored? ==>
                records[name].state == if !script(old(clock) + if svc.hasInit then 2 else 1).ok then Failed
                                       else if noWait then Starting else Ready
      ensures result.Unchanged? ==>
                && Obsolete({name}, existing, r) == iset{}
                && name in old(records) && records[name].state == old(records)[name].state
      ensures result.InitBroken? || result.Unready? ==> records[name].state.Failed?
      ensures Unwritten(old(written), written, result.Unready?, stopped, records)
      ensures old(written) == [] ==> takebacks == 0
      ensures result.Stored? || result.Unready? ==> Own() == old(Own()) - Obsolete({name}, existing, r)
      ensures (name in existing ==>
                 PublicOf(name, existing[name].port) + BackendOf(name, existing[name].port, existing[name].listen) <= old(Own()))
              ==> !result.ReleaseRefused?
    {
      hide Obsolete;
      hide Held;
      hide Own;
      hide Valid;
      hide Plain;
      hide PublicOf;
      hide BackendOf;
      hide ExposedBy;
      hide Grown;
      hide Steady;
      hide SyncedIn;
      hide SyncedBetween;
      hide CaptureEnabled;
      hide NeedsRestart;
      hide HashesCover;
      hide FreeBetween;
      launches := launches + [name];
      var port, listen := r.ports[name], r.listens[name];
      var prepared := Ask();
      ValidParts();
      if !prepared.ok {
        return Unprepared;
      }
      var record := Record(port, listen, CaptureEnabled(svc, port.Some?), WatchHash(port, listen, prepared.rest), Starting);
      result := LaunchPrepared(name, svc, r, record, noWait, force, existing);
    }

    /**
     * Launches the services in order until one fails; `last` is how the last launch ended. A unit that does not start
     * and an init task that fails do not end the loop.
     */
    method LaunchServices(services: map<string, ServiceConfig>, order: seq<string>, r: Resources, noWait: bool, force: bool,
                          existing: map<string, Record>)
      returns (ok: bool, ghost done: set<string>, ghost initFailed: set<string>, ghost last: Launch)
      requires Valid() && AllPlain(services.Keys) && Enumerates(order, services.Keys) && HashesCover(existing)
      requires r.ports.Keys == r.listens.Keys == services.Keys
      requires forall s :: s in services ==> ListenFits(services[s], r.ports[s], r.listens[s])
      requires existing.Keys * services.Keys <= records.Keys
      requires Planned(r) <= Own()
      requires launches == [] && attempted == {}
      modifies this`clock, this`back, this`takebacks, this`launches, this`attempted, this`records, this`manifest,
               this`written, file
      ensures Valid() && initFailed <= done <= services.Keys
      ensures Begun(launches, order, done, ok)
      ensures !ok ==> launches != [] && last in {Unprepared, ReleaseRefused, Unready}
      ensures Relaunched(existing, old(records), records, done, attempted, force, noWait)
      ensures ok ==> done == services.Keys && !last.ReleaseRefused?
      ensures Replaced(old(records), records, done, r)
      ensures AllFailed(initFailed, services, records)
      ensures !last.ReleaseRefused? ==> Own() == old(Own()) - Obsolete(done - initFailed, existing, r)
      ensures Recorded(Restrict(existing, services.Keys)) <= old(Own()) ==> !last.ReleaseRefused?
      ensures Unwritten(old(written), written, !ok, stopped, records)
      ensures old(written) == [] ==> takebacks == 0
    {
      hide Held;
      hide Own;
      hide Valid;
      hide Plain;
      hide HashesCover;
      hide ListenFits;
      done, initFailed, last := {}, {}, Stored;
      ValidParts();
      NothingLaunched(existing, services, r, records, force, noWait);
      hide Relaunched;
      BegunNone(order);
      hide Begun;
      hide Planned;
      hide Recorded;
      hide Restrict;
      hide PublicOf;
      hide BackendOf;
      hide Obsolete;
      hide Replaced;
      hide AllFailed;
      TakeAll(order);
      assert Elems<string>([]) == {};
      for i := 0 to |order|
        invariant Valid()
        invariant done == Elems(order[..i]) <= services.Keys && initFailed <= done && attempted <= done
        invariant launches == order[..i]
        invariant Relaunched(existing, old(records), records, done, attempted, force, noWait)
        invariant Replaced(old(records), records, done, r)
        invariant AllFailed(initFailed, services, records)
        invariant Own() == old(Own()) - Obsolete(done - initFailed, existing, r)
        invariant written == old(written) && (written == [] ==> takebacks == 0)
      {
        var name := order[i];
        NextKey(order, i, services.Keys);
        PlannedStay(name, done - initFailed, existing, r, old(Own()));
        ExistingStay(name, done - initFailed, existing, r, services.Keys, old(Own()));
        ObsoleteStep(done, initFailed, name, existing, r);
        ReplacedStep(old(records), records, done, name, r);
        ghost var before, tried := records, attempted;
        var result := LaunchService(name, services[name], r, noWait, force, existing);
        BegunNext(order, i);
        RelaunchedStay(existing, old(records), before, done, tried, attempted, name, force, noWait);
        if result.Unprepared? {
          return false, done, initFailed, result;
        }
        if result.ReleaseRefused? {
          return false, done, initFailed, result;
        }
        AllFailedStep(initFailed, services, before, records, name);
        RelaunchedStep(existing, old(records), before, records, done, tried, name, !result.Unchanged?, force, noWait);
        MinusTwice(old(Own()), Obsolete(done - initFailed, existing, r), Obsolete({name}, existing, r));
        done := done + {name};
        if result.InitBroken? {
          initFailed := initFailed + {name};
        }
        if result.Unready? {
          return false, done, initFailed, result;
        }
      }
      ok := true;
    }

    /** Launches everything; gives unrecorded ports up when that fails, writes the manifest when it succeeds. */
    method LaunchAll(services: map<string, ServiceConfig>, order: seq<string>, keys: seq<string>, r: Resources, noWait: bool,
                     force: bool, existing: map<string, Record>)
      returns (result: RunResult, ghost done: set<string>, ghost initFailed: set<string>)
      requires Valid() && AllPlain(services.Keys) && Enumerates(order, services.Keys) && Enumerates(keys, services.Keys)
      requires HashesCover(existing) && Resolved(services, r)
      requires existing.Keys * services.Keys <= records.Keys <= services.Keys
      requires Planned(r) <= Own()
      requires launches == [] && attempted == {}
      modifies this`clock, this`back, this`takebacks, this`launches, this`attempted, this`records, this`manifest,
               this`written, file
      ensures Valid() && initFailed <= done <= services.Keys && AllFailed(initFailed, services, records)
      ensures result in {LaunchFailed, NotPersisted, Completed}
      ensures result.LaunchFailed? ==> launches != []
      ensures Begun(launches, order, done, !result.LaunchFailed?)
      ensures Relaunched(existing, old(records), records, done, attempted, force, noWait)
      ensures Replaced(old(records), records, done, r)
      ensures !result.LaunchFailed? ==>
                && done == services.Keys && Recorded(records) == Planned(r)
                && Own() == old(Own()) - Obsolete(done - initFailed, existing, r)
      ensures result.Completed? ==> manifest == Some(Manifest(!stopped, records)) && Marked(records) == Recorded(records)
      ensures result.LaunchFailed? && Recorded(Restrict(existing, services.Keys)) <= old(Own()) ==>
                Own() == old(Own()) - Obsolete(done - initFailed, existing, r) - Unpreserved(services.Keys, r, records)
      ensures old(written) == [] && Recorded(records) <= Own() ==> takebacks == 0
    {
      hide Held;
      hide Own;
      hide Valid;
      hide AllPlain;
      hide HashesCover;
      hide PortFits;
      hide ListenFits;
      hide Distinct;
      hide Planned;
      hide Recorded;
      hide Obsolete;
      hide Unpreserved;
      hide Restrict;
      hide Replaced;
      hide AllFailed;
      var ok;
      ghost var last;
      ok, done, initFailed, last := LaunchServices(services, order, r, noWait, force, existing);
      if !ok {
        if old(written) == [] {
          ExposedIsRecorded([], written, !ok, stopped, records);
        }
        ReleaseUnpreserved(keys, r, records);
        return LaunchFailed, done, initFailed;
      }
      ReplacedClaims(old(records), records, r);
      ValidParts();
      MarkedIsRecorded(records);
      var persisted := Persist();
      result := if persisted then Completed else NotPersisted;
    }

    // ---- Bringing a run up ----

    lemma {:induction false} HeldPlanIsDistinct(services: map<string, ServiceConfig>, r: Resources)
      requires r.ports.Keys == r.listens.Keys == services.Keys
      requires Valid() && Planned(r) <= Own()
      ensures Distinct(r)
    {
      ResolvedIsDistinct(file.stored, runId, services, r);
    }

    method NewResources(services: map<string, ServiceConfig>, keys: seq<string>) returns (result: RunResult, r: Resources)
      requires Valid() && AllPlain(services.Keys) && Enumerates(keys, services.Keys)
      requires Own() == iset{} && ManifestClaims(manifest) == iset{}
      modifies this`clock, this`back, this`takebacks, this`checked, file
      ensures Valid() && old(checked) <= checked
      ensures result in {SyncFailed, PortsFailed, GlobalsFailed, ListensFailed, EnvFailed, Completed}
      ensures !result.Completed? && !result.ListensFailed? ==> Own() == iset{}
      ensures result.Completed? ==> Own() == Planned(r) && Resolved(services, r)
      ensures result.Completed? ==> FixedChecked(services, map[], services.Keys, iset{}, ExposedBy(written), checked)
    {
      hide FixedChecked;
      hide ExposedBy;
      hide Held;
      hide Own;
      hide Plain;
      hide PortFits;
      hide ListenFits;
      hide ListenChoice;
      hide Choosing;
      hide ManifestClaims;
      r := Resources(map[], map[]);
      var synced := SyncFromDisk();
      if !synced {
        return SyncFailed, r;
      }
      ghost var synchronised := Own();
      var ports := AllocatePorts(services, keys);
      if ports.None? {
        return PortsFailed, r;
      }
      FixedCheckedMore(services, map[], services.Keys, synchronised, ExposedBy(written), checked, iset{}, checked);
      NothingPreserved(Resources(ports.value, map[]));
      hide PublicClaims;
      hide BackendClaims;
      hide Unpreserved;
      hide Planned;
      result, r := FinishResources(services, keys, ports.value, map[], false);
      if result.EnvFailed? {
        NothingPreserved(r);
      }
      if result.Completed? {
        PlannedParts(r);
        HeldPlanIsDistinct(services, r);
        NewChoice(services, ports.value);
        ReusesParts(services, map[], false, r);
      }
    }

    method RefreshResources(services: map<string, ServiceConfig>, keys: seq<string>, existing: map<string, Record>, reusePorts: bool)
      returns (result: RunResult, r: Resources)
      requires Valid() && AllPlain(services.Keys) && Enumerates(keys, services.Keys)
      modifies this`clock, this`back, this`takebacks, this`checked, file
      ensures Valid() && old(checked) <= checked
      ensures result in {SyncFailed, PortsFailed, GlobalsFailed, ListensFailed, EnvFailed, Completed}
      ensures result.Completed? ==>
                && Own() == old(Own()) + ManifestClaims(manifest) + Planned(r)
                && Resolved(services, r)
                && (reusePorts ==> Reuses(services, existing, r))
                && FixedChecked(services, existing, services.Keys, old(Own()), ExposedBy(written), checked)
    {
      hide FixedChecked;
      hide ExposedBy;
      hide Held;
      hide Own;
      hide Plain;
      hide PortFits;
      hide ListenFits;
      hide ListenChoice;
      hide Choosing;
      hide Reuses;
      hide PublicClaims;
      hide BackendClaims;
      hide ManifestClaims;
      hide Unpreserved;
      hide Planned;
      r := Resources(map[], map[]);
      ManifestExposed();
      var synced := SyncFromDisk();
      if !synced {
        return SyncFailed, r;
      }
      ghost var synchronised := Own();
      var ports := ResolvePortsForRefresh(services, keys, existing, reusePorts);
      if ports.None? {
        return PortsFailed, r;
      }
      result, r := FinishResources(services, keys, ports.value, existing, reusePorts);
      if result.Completed? {
        FixedCheckedMore(services, existing, services.Keys, synchronised, ExposedBy(written), checked, old(Own()), checked);
        PlannedParts(r);
        HeldPlanIsDistinct(services, r);
        ReusesParts(services, existing, reusePorts, r);
      }
    }

    /** Every recorded port is held; `Conserved` says in addition that nothing else is. */
    ghost predicate Covered()
      reads `records, file
    {
      Recorded(records) <= Held()
    }

    /**
     * The ledger is at rest: a live run holds exactly its records' ports and its manifest lists the same, a stopped
     * run holds nothing.
     */
    ghost predicate Settled()
      reads this, file
    {
      if stopped then Held() == iset{} && ManifestClaims(manifest) == iset{}
      else Held() == Recorded(records) && ManifestClaims(manifest) == Recorded(records)
    }

    /** The launch of a run that has nothing yet but its ports. */
    method LaunchFirst(services: map<string, ServiceConfig>, order: seq<string>, keys: seq<string>, r: Resources, noWait: bool)
      returns (result: RunResult)
      requires Valid() && AllPlain(services.Keys) && Enumerates(order, services.Keys) && Enumerates(keys, services.Keys)
      requires records == map[] && !stopped && written == [] && Resolved(services, r) && Own() == Planned(r)
      requires launches == [] && attempted == {}
      modifies this`clock, this`back, this`takebacks, this`launches, this`attempted, this`records, this`manifest,
               this`written, file
      ensures Valid() && takebacks == 0
      ensures result in {LaunchFailed, NotPersisted, Completed}
      ensures result.LaunchFailed? ==> launches != []
      ensures Begun(launches, order, records.Keys, !result.LaunchFailed?)
      ensures Relaunched(map[], map[], records, records.Keys, attempted, false, noWait)
      ensures Planner.IsTopoOrder(PlanOf(services), order) ==>
                DepsLaunched(services, launches, records.Keys) && DepsDone(services, records.Keys)
      ensures Conserved() && records.Keys <= services.Keys && Matches(records, r)
      ensures result in {NotPersisted, Completed} ==> records.Keys == services.Keys
      ensures result.Completed? ==> ManifestClaims(manifest) == Recorded(records)
    {
      hide DepsLaunched;
      hide DepsDone;
      hide PlanOf;
      hide Begun;
      hide Relaunched;
      hide Held;
      hide Own;
      hide Valid;
      hide AllPlain;
      hide Resolved;
      hide Replaced;
      hide Matches;
      hide Planned;
      hide Recorded;
      hide Obsolete;
      hide Unpreserved;
      hide Restrict;
      hide ManifestClaims;
      hide ExposedBy;
      NothingBefore(services.Keys);
      ghost var done, initFailed;
      result, done, initFailed := LaunchAll(services, order, keys, r, noWait, false, map[]);
      ResolvedKeys(services, r);
      ReplacedMatches(map[], records, done, r);
      ReplacedNew(records, done, r);
      if Planner.IsTopoOrder(PlanOf(services), order) {
        LaunchedInOrder(services, order, launches, done, !result.LaunchFailed?);
      }
      FirstLaunchClaims(records, done, done - initFailed, r);
      ClearWhenCalm();
      ManifestOfLive(manifest, records);
    }

    /** Everything of a first launch before the run is recorded. */
    method FirstResources(services: map<string, ServiceConfig>, keys: seq<string>) returns (result: RunResult, r: Resources)
      requires Valid() && AllPlain(services.Keys) && Enumerates(keys, services.Keys)
      requires Own() == iset{} && written == []
      modifies this`clock, this`back, this`takebacks, this`checked, file
      ensures Valid() && takebacks == 0
      ensures result in {SyncFailed, PortsFailed, GlobalsFailed, ListensFailed, EnvFailed, Completed}
      ensures !result.Completed? && !result.ListensFailed? ==> Held() == iset{}
      ensures result.Completed? ==> Own() == Planned(r) && Resolved(services, r)
      ensures result.Completed? ==> forall s, p: Port :: s in services && services[s].port == Some(Fixed(p)) ==> p in checked
    {
      hide SyncedBetween;
      hide FreeBetween;
      hide FixedChecked;
      hide Recorded;
      hide Planned;
      hide ExposedBy;
      hide Held;
      hide Own;
      hide Valid;
      hide AllPlain;
      hide Resolved;
      ValidParts();
      ManifestExposed();
      ExposedGrow([], Manifest(false, map[]));
      var synced := SyncFromDisk();
      ValidParts();
      if !synced {
        return SyncFailed, Resources(map[], map[]);
      }
      result, r := NewResources(services, keys);
      ValidParts();
      if result.Completed? {
        FixedAllFree(services, ExposedBy(written), checked);
      }
    }

    /** The first launch of a run. */
    method Up(services: map<string, ServiceConfig>, order: seq<string>, noWait: bool)
      returns (result: RunResult, ghost r: Resources)
      requires Valid() && AllPlain(services.Keys) && Enumerates(order, services.Keys)
      requires !known && records == map[] && !stopped && Held() == iset{} && written == []
      modifies this`clock, this`back, this`takebacks, this`calm, this`began, this`checked, this`launches,
               this`attempted, this`known, this`records, this`manifest, this`written, file
      ensures Valid() && takebacks == 0 && old(clock) <= clock
      ensures !result.RunNotFound? && !result.RemoveFailed?
      ensures known <==> result in {LaunchFailed, NotPersisted, Completed}
      ensures result in {SyncFailed, PortsFailed, GlobalsFailed, EnvFailed} ==> Held() == iset{}
      ensures known ==> Conserved() && records.Keys <= services.Keys && Resolved(services, r)
      ensures known ==> Matches(records, r)
      ensures known ==> Begun(launches, order, records.Keys, !result.LaunchFailed?)
      ensures result.LaunchFailed? ==> launches != []
      ensures !known ==> launches == []
      ensures known && Planner.IsTopoOrder(PlanOf(services), order) ==>
                DepsLaunched(services, launches, records.Keys) && DepsDone(services, records.Keys)
      ensures known ==> Relaunched(map[], map[], records, records.Keys, attempted, false, noWait)
      ensures known ==> forall s, p: Port :: s in services && services[s].port == Some(Fixed(p)) ==>
                          p in FreeBetween(script, old(clock), clock)
      ensures result in {NotPersisted, Completed} ==> records.Keys == services.Keys
      ensures result.Completed? ==> Settled()
    {
      hide SyncedBetween;
      hide Recorded;
      hide Planned;
      hide FixedChecked;
      hide Begun;
      hide Relaunched;
      hide DepsLaunched;
      hide DepsDone;
      hide FreeBetween;
      hide PlanOf;
      hide ExposedBy;
      hide Held;
      hide Own;
      hide Valid;
      hide AllPlain;
      hide HashesCover;
      hide Resolved;
      hide Matches;
      Begin();
      ValidParts();
      var keys := ListOf(services.Keys);
      var resources;
      result, resources := FirstResources(services, keys);
      ValidParts();
      r := resources;
      if !result.Completed? {
        return;
      }
      known := true;
      result := LaunchFirst(services, order, keys, resources, noWait);
      ValidParts();
    }

    /**
     * Plans the start order and brings the run up. A cyclic stack is refused before anything happens. However far the
     * launch gets, every service launched had all its dependencies launched before it, and what is on record is closed
     * under dependencies.
     */
    method UpPlanned(services: map<string, ServiceConfig>, keys: seq<string>, noWait: bool) returns (result: Option<RunResult>)
      requires Valid() && AllPlain(services.Keys) && Enumerates(keys, services.Keys)
      requires !known && records == map[] && !stopped && Held() == iset{} && written == []
      modifies this`clock, this`back, this`takebacks, this`calm, this`began, this`checked, this`launches,
               this`attempted, this`known, this`records, this`manifest, this`written, file
      ensures Valid() && (known <==> result in {Some(LaunchFailed), Some(NotPersisted), Some(Completed)})
      ensures result == None <==> !Planner.Acyclic(PlanOf(services))
      ensures result == None ==> Held() == iset{} && clock == old(clock)
      ensures known ==> Conserved() && DepsLaunched(services, launches, records.Keys) && DepsDone(services, records.Keys)
      ensures known && result != Some(LaunchFailed) ==> Planner.IsTopoOrder(PlanOf(services), launches)
    {
      hide Held;
      hide Valid;
      hide AllPlain;
      hide Resolved;
      hide Matches;
      hide DepsLaunched;
      hide DepsDone;
      hide PlanOf;
      hide Relaunched;
      hide FreeBetween;
      var plan := Planner.TopoSort(PlanOf(services), keys);
      if plan.Failure? {
        return None;
      }
      ghost var r;
      var up;
      up, r := Up(services, plan.value, noWait);
      return Some(up);
    }

    /** Drops the records of services the stack no longer has, then releases their ports. */
    method RemoveMissing(keys: set<string>) returns (ok: bool)
      requires Valid()
      modifies this`clock, this`back, this`takebacks, this`records, file
      ensures Valid() && records == Restrict(old(records), keys)
      ensures ok ==> Own() == old(Own()) - Recorded(Restrict(old(records), old(records).Keys - keys))
      ensures Recorded(Restrict(old(records), old(records).Keys - keys)) <= old(Own()) ==> ok
    {
      hide Held;
      hide Own;
      var existing, removed := records, records.Keys - keys;
      var gone := ListOf(removed);
      records := Restrict(existing, keys);
      hide Recorded;
      hide Restrict;
      ok := ReleaseAll(gone, existing);
    }

    /** Everything of a refresh before its launch. */
    method PrepareRefresh(services: map<string, ServiceConfig>, keys: seq<string>) returns (result: RunResult, r: Resources)
      requires Valid() && AllPlain(services.Keys) && Enumerates(keys, services.Keys)
      modifies this`clock, this`back, this`takebacks, this`checked, this`records, file
      ensures Valid() && records == Restrict(old(records), services.Keys)
      ensures result in {RemoveFailed, SyncFailed, PortsFailed, GlobalsFailed, ListensFailed, EnvFailed, Completed}
      ensures Recorded(old(records)) <= old(Own()) ==> !result.RemoveFailed?
      ensures result.Completed? ==>
                && Own() == old(BeforeLaunch(Own(), records, services.Keys, manifest, r))
                && Resolved(services, r) && (!stopped ==> Reuses(services, old(records), r))
      ensures result.Completed? && Recorded(old(records)) <= old(Own()) ==>
                Recorded(Restrict(old(records), services.Keys)) <= Own() && Apart(old(records), r)
      ensures result.Completed? ==> OnePerPort(Own())
      ensures result.Completed? ==>
                FixedChecked(services, old(records), services.Keys, old(Own()), ExposedBy(written), checked)
    {
      hide FixedChecked;
      hide ExposedBy;
      hide Held;
      hide Own;
      hide Valid;
      hide AllPlain;
      hide Resolved;
      hide Reuses;
      hide Restrict;
      hide Recorded;
      hide Planned;
      hide ManifestClaims;
      hide BeforeLaunch;
      hide Apart;
      hide OnePerPort;
      r := Resources(map[], map[]);
      var existing := records;
      if Recorded(existing) <= Own() {
        StayingAreHeld(Own(), existing, services.Keys, manifest, r);
      }
      var removedOk := RemoveMissing(services.Keys);
      if !removedOk {
        return RemoveFailed, r;
      }
      ghost var remaining := Own();
      result, r := RefreshResources(services, keys, existing, !stopped);
      if result.Completed? {
        FixedCheckedMore(services, existing, services.Keys, remaining, ExposedBy(written), checked, old(Own()), checked);
        BeforeLaunchIs(old(Own()), existing, services.Keys, manifest, r);
        ValidParts();
        HeldOnePerPort(file.stored, runId, Own());
        if Recorded(existing) <= old(Own()) {
          StayingAreHeld(old(Own()), existing, services.Keys, manifest, r);
          ResolvedKeys(services, r);
          HeldTogetherApart(file.stored, runId, existing, services.Keys, r);
        }
      }
    }

    /** A refresh of a known run, in terms of the run's own ports. */
    method RefreshKnown(services: map<string, ServiceConfig>, order: seq<string>, noWait: bool, force: bool)
      returns (result: RunResult, ghost r: Resources, ghost done: set<string>, ghost initFailed: set<string>)
      requires Valid() && AllPlain(services.Keys) && Enumerates(order, services.Keys)
      requires launches == [] && attempted == {}
      modifies this`clock, this`back, this`takebacks, this`checked, this`launches, this`attempted, this`stopped,
               this`records, this`manifest, this`written, file
      ensures Valid() && !result.RunNotFound?
      ensures Recorded(old(records)) <= old(Own()) ==> !result.RemoveFailed?
      ensures result in {LaunchFailed, NotPersisted, Completed} ==>
                && initFailed <= done <= services.Keys && AllFailed(initFailed, services, records) && !stopped
                && Resolved(services, r) && (!old(stopped) ==> Reuses(services, old(records), r))
                && Replaced(Restrict(old(records), services.Keys), records, done, r)
                && (Recorded(old(records)) <= old(Own()) ==> Apart(old(records), r))
                && OnePerPort(old(BeforeLaunch(Own(), records, services.Keys, manifest, r)))
                && Begun(launches, order, done, !result.LaunchFailed?)
                && Relaunched(old(records), Restrict(old(records), services.Keys), records, done, attempted, force, noWait)
                && FixedChecked(services, old(records), services.Keys, old(Own()), ExposedBy(old(written)), checked)
      ensures result !in {LaunchFailed, NotPersisted, Completed} ==> launches == []
      ensures result.LaunchFailed? ==> launches != []
      ensures result in {NotPersisted, Completed} ==>
                && done == services.Keys && Recorded(records) == Planned(r)
                && Own() == old(BeforeLaunch(Own(), records, services.Keys, manifest, r))
                            - Obsolete(done - initFailed, old(records), r)
      ensures result.Completed? ==> ManifestClaims(manifest) == Recorded(records)
      ensures result.LaunchFailed? && Recorded(old(records)) <= old(Own()) ==>
                Own() == old(BeforeLaunch(Own(), records, services.Keys, manifest, r))
                         - Obsolete(done - initFailed, old(records), r)
                         - Unpreserved(services.Keys, r, records)
    {
      hide FixedChecked;
      hide Begun;
      hide Relaunched;
      hide Held;
      hide Own;
      hide Valid;
      hide AllPlain;
      hide HashesCover;
      hide Resolved;
      hide Reuses;
      hide Replaced;
      hide Matches;
      hide Apart;
      hide Restrict;
      hide Recorded;
      hide Planned;
      hide ManifestClaims;
      hide BeforeLaunch;
      hide Obsolete;
      hide Unpreserved;
      hide AllFailed;
      hide OnePerPort;
      hide Grown;
      hide Steady;
      hide ExposedBy;
      r, done, initFailed := Resources(map[], map[]), {}, {};
      var existing := records;
      ValidParts();
      RestrictKeys(existing, services.Keys);
      var keys := ListOf(services.Keys);
      var resources;
      result, resources := PrepareRefresh(services, keys);
      r := resources;
      if !result.Completed? {
        return;
      }
      BeforeLaunchIs(old(Own()), existing, services.Keys, old(manifest), resources);
      stopped := false;
      result, done, initFailed := LaunchAll(services, order, keys, resources, noWait, force, existing);
      ManifestOfLive(manifest, records);
    }

    /**
     * Brings an existing run in line with a new configuration of its stack. `r` is the port choice, `done` the services
     * launched, `initFailed` those among them whose init tasks failed.
     */
    method Refresh(services: map<string, ServiceConfig>, order: seq<string>, noWait: bool, force: bool)
      returns (result: RunResult, ghost r: Resources, ghost done: set<string>, ghost initFailed: set<string>)
      requires Valid() && AllPlain(services.Keys) && Enumerates(order, services.Keys)
      modifies this`clock, this`back, this`takebacks, this`calm, this`began, this`checked, this`launches,
               this`attempted, this`stopped, this`records, this`manifest, this`written, file
      ensures Valid() && (takebacks == old(takebacks) ==> back == iset{})
      ensures back <= ExposedBy(written) * SyncedBetween(script, old(clock), clock)
      ensures Silent(script, old(clock), clock, written) ==> back == iset{}
      ensures result.RunNotFound? <==> !known
      ensures result.RunNotFound? ==> Held() == old(Held()) && records == old(records)
      ensures old(Covered()) ==> !result.RemoveFailed?
      ensures result in {NotPersisted, Completed} ==>
                && done == services.Keys && initFailed <= done && AllFailed(initFailed, services, records)
                && Resolved(services, r) && (!old(stopped) ==> Reuses(services, old(records), r))
                && records.Keys == services.Keys && Matches(records, r) && Recorded(records) == Planned(r)
                && Held() - back == old(BeforeLaunch(Held(), records, services.Keys, manifest, r))
                                    - Obsolete(done - initFailed, old(records), r)
                && Recorded(records) <= Held() - back && !stopped
      ensures result.Completed? ==> ManifestClaims(manifest) == Recorded(records)
      ensures result.LaunchFailed? && old(Covered()) ==>
                && initFailed <= done <= services.Keys && AllFailed(initFailed, services, records)
                && Resolved(services, r) && (!old(stopped) ==> Reuses(services, old(records), r))
                && Replaced(Restrict(old(records), services.Keys), records, done, r)
                && Held() - back == old(BeforeLaunch(Held(), records, services.Keys, manifest, r))
                                    - Obsolete(done - initFailed, old(records), r)
                                    - Unpreserved(services.Keys, r, records)
      ensures result in {LaunchFailed, NotPersisted, Completed} && old(Covered()) ==> Apart(old(records), r)
      ensures result in {LaunchFailed, NotPersisted, Completed} ==>
                && Resolved(services, r) && OnePerPort(old(BeforeLaunch(Held(), records, services.Keys, manifest, r)))
                && Begun(launches, order, done, !result.LaunchFailed?)
                && (Planner.IsTopoOrder(PlanOf(services), order) ==>
                      DepsLaunched(services, launches, done) && DepsDone(services, done))
                && Relaunched(old(records), Restrict(old(records), services.Keys), records, done, attempted, force, noWait)
                && FixedChecked(services, old(records), services.Keys, old(Held()), ExposedBy(old(written)),
                                FreeBetween(script, old(clock), clock))
      ensures result !in {LaunchFailed, NotPersisted, Completed} ==> launches == []
      ensures result.LaunchFailed? ==> launches != []
      ensures result in {NotPersisted, Completed} ==>
                && (forall s :: s in records ==> records[s].state in {Starting, Ready, ServiceState.Failed})
                && (forall s :: s in records && records[s].state == ServiceState.Failed ==> s in attempted)
    {
      hide FixedChecked;
      hide Begun;
      hide Relaunched;
      hide DepsLaunched;
      hide DepsDone;
      hide FreeBetween;
      hide ExposedBy;
      hide PlanOf;
      hide SyncedBetween;
      hide Silent;
      hide Held;
      hide Own;
      hide Valid;
      hide AllPlain;
      hide Resolved;
      hide Reuses;
      hide Replaced;
      hide Matches;
      hide Apart;
      hide AllFailed;
      hide Restrict;
      hide Recorded;
      hide Planned;
      hide ManifestClaims;
      hide BeforeLaunch;
      hide Obsolete;
      hide Unpreserved;
      hide OnePerPort;
      Begin();
      ValidParts();
      if !known {
        SilentTakesNothing(script, old(clock), clock, written);
        return RunNotFound, Resources(map[], map[]), {}, {};
      }
      RestrictKeys(records, services.Keys);
      result, r, done, initFailed := RefreshKnown(services, order, noWait, force);
      ValidParts();
      SilentTakesNothing(script, old(clock), clock, written);
      if result in {LaunchFailed, NotPersisted, Completed} {
        FixedCheckedMore(services, old(records), services.Keys, old(Held()), ExposedBy(old(written)), checked, old(Held()),
                         FreeBetween(script, began, clock));
        if Planner.IsTopoOrder(PlanOf(services), order) {
          LaunchedInOrder(services, order, launches, done, !result.LaunchFailed?);
        }
      }
      if result in {NotPersisted, Completed} {
        ResolvedKeys(services, r);
        ReplacedMatches(Restrict(old(records), services.Keys), records, done, r);
        NothingLeftBroken(old(records), services.Keys, records, attempted, force, noWait);
        PlannedIsHeld(old(Held()), old(records), services.Keys, old(manifest), r, done - initFailed);
      }
    }

    // ---- Stopping a run ----

    /** Releases what the records claim and marks everything stopped; the records keep their ports. */
    method Stop() returns (result: StopResult)
      requires Valid()
      modifies this`clock, this`back, this`takebacks, this`calm, this`began, this`checked, this`launches,
               this`attempted, this`stopped, this`records, this`manifest, this`written, file
      ensures Valid()
      ensures result.StopNotFound? <==> !known
      ensures result.StopNotFound? ==> Held() == old(Held()) && back == iset{} && takebacks == old(takebacks)
      ensures result.StopNotFound? || result.StopRefused? ==> records == old(records) && stopped == old(stopped)
      ensures result.StopNotPersisted? || result.StopDone? ==>
                && stopped && records == AllStopped(old(records))
                && Held() - back == old(Held()) - Recorded(old(records)) && back <= Held()
      ensures result.StopDone? ==> manifest == Some(Manifest(false, records))
      ensures manifest == old(manifest) || (stopped && manifest == Some(Manifest(false, records)))
      ensures back <= ExposedBy(old(written)) * SyncedBetween(script, old(clock), clock)
      ensures Silent(script, old(clock), clock, old(written)) ==> back == iset{}
      ensures ExposedBy(written) == ExposedBy(old(written))
      ensures known && old(Covered()) ==> !result.StopRefused? && (back == iset{} <==> takebacks == old(takebacks))
    {
      hide HashesCover;
      hide CaptureMarked;
      hide Held;
      hide Valid;
      hide AllPlain;
      hide ExposedBy;
      hide SyncedBetween;
      hide Silent;
      Begin();
      ValidParts();
      if !known {
        return StopNotFound;
      }
      var keys := ListOf(records.Keys);
      RestrictAll(records);
      hide Recorded;
      hide Restrict;
      var released := ReleaseAll(keys, records);
      if !released {
        ValidParts();
        SilentTakesNothing(script, old(clock), clock, old(written));
        return StopRefused;
      }
      StopRecords();
      var persisted := Persist();
      StoppedExposesNothing(old(written), records);
      ValidParts();
      SilentTakesNothing(script, old(clock), clock, old(written));
      result := if persisted then StopDone else StopNotPersisted;
    }

    method StopRecords()
      requires Valid()
      modifies this`stopped, this`records
      ensures Valid() && stopped && records == AllStopped(old(records))
    {
      stopped, records := true, AllStopped(records);
    }

    method Down(purge: bool) returns (result: StopResult)
      requires Valid()
      modifies this`clock, this`back, this`takebacks, this`calm, this`began, this`checked, this`launches,
               this`attempted, this`known, this`stopped, this`records, this`manifest, this`written, file
      ensures Valid()
      ensures result.StopNotFound? <==> !old(known)
      ensures result.StopNotFound? ==> Held() == old(Held()) && back == iset{} && takebacks == old(takebacks)
      ensures result.StopNotFound? || result.StopRefused? ==> records == old(records) && stopped == old(stopped)
      ensures old(known && Covered()) ==> !result.StopRefused?
      ensures result in {StopNotPersisted, StopDone} ==>
                Held() - back == old(Held()) - Recorded(old(records)) && back <= Held()
      ensures result.StopNotPersisted? || (result.StopDone? && !purge) ==> known && stopped && records == AllStopped(old(records))
      ensures result.StopDone? && purge ==> !known && records == map[] && manifest == None
      ensures result in {StopNotPersisted, StopDone} && old(Conserved()) ==>
                && Held() == back && (Held() == iset{} <==> takebacks == old(takebacks))
                && (Silent(script, old(clock), clock, old(written)) ==> Held() == iset{})
      ensures back <= ExposedBy(old(written)) * SyncedBetween(script, old(clock), clock)
      ensures ExposedBy(written) == ExposedBy(old(written))
      ensures result.StopDone? && old(Conserved()) ==> (Settled() <==> takebacks == old(takebacks))
    {
      hide Held;
      hide Recorded;
      hide AllStopped;
      hide Marked;
      hide ExposedBy;
      hide SyncedBetween;
      hide Silent;
      result := Stop();
      if result.StopDone? && purge {
        known, records, manifest := false, map[], None;
      }
      AllBack(old(Held()), Held(), back);
    }

    method Kill() returns (result: StopResult)
      requires Valid()
      modifies this`clock, this`back, this`takebacks, this`calm, this`began, this`checked, this`launches,
               this`attempted, this`stopped, this`records, this`manifest, this`written, file
      ensures Valid()
      ensures result.StopNotFound? <==> !known
      ensures result.StopNotFound? ==> Held() == old(Held()) && back == iset{} && takebacks == old(takebacks)
      ensures result.StopNotFound? || result.StopRefused? ==> records == old(records) && stopped == old(stopped)
      ensures known && old(Covered()) ==> !result.StopRefused?
      ensures result in {StopNotPersisted, StopDone} ==>
                && Held() - back == old(Held()) - Recorded(old(records)) && back <= Held()
                && stopped && records == AllStopped(old(records))
      ensures result in {StopNotPersisted, StopDone} && old(Conserved()) ==>
                && Held() == back && (Held() == iset{} <==> takebacks == old(takebacks))
                && (Silent(script, old(clock), clock, old(written)) ==> Held() == iset{})
      ensures back <= ExposedBy(old(written)) * SyncedBetween(script, old(clock), clock)
      ensures ExposedBy(written) == ExposedBy(old(written))
      ensures result.StopDone? && old(Conserved()) ==> (Settled() <==> takebacks == old(takebacks))
    {
      hide Held;
      hide Recorded;
      hide AllStopped;
      hide Marked;
      hide ExposedBy;
      hide SyncedBetween;
      hide Silent;
      result := Stop();
      AllBack(old(Held()), Held(), back);
    }

    // ---- Whole lives of a run ----

    /**
     * However far the first launch got, stopping the run afterwards works. What is then still held is what other runs'
     * syncs took back in between, and that is nothing exactly when no sync did.
     */
    method UpThenStop(services: map<string, ServiceConfig>, order: seq<string>, noWait: bool, kill: bool, purge: bool)
      returns (up: RunResult, stop: StopResult)
      requires Valid() && AllPlain(services.Keys) && Enumerates(order, services.Keys)
      requires !known && records == map[] && !stopped && Held() == iset{} && written == []
      modifies this`clock, this`back, this`takebacks, this`calm, this`began, this`checked, this`launches,
               this`attempted, this`known, this`stopped, this`records, this`manifest, this`written, file
      ensures up.ListensFailed? || Held() == back
      ensures up.ListensFailed? || (Held() == iset{} <==> takebacks == 0)
      ensures back <= ExposedBy(written) * SyncedBetween(script, old(clock), clock)
      ensures up.ListensFailed? || (Silent(script, old(clock), clock, written) ==> Held() == iset{})
      ensures up in {LaunchFailed, NotPersisted, Completed} <==> stop in {StopNotPersisted, StopDone}
      ensures stop.StopNotFound? || stop in {StopNotPersisted, StopDone}
    {
      hide Held;
      hide Valid;
      hide AllPlain;
      hide Recorded;
      hide AllStopped;
      hide Resolved;
      hide Reuses;
      hide Matches;
      hide ExposedBy;
      hide SyncedBetween;
      hide Silent;
      ghost var r;
      up, r := Up(services, order, noWait);
      ghost var later := clock;
      if kill {
        stop := Kill();
      } else {
        stop := Down(purge);
      }
      SyncedLater(script, old(clock), later, clock);
      SilentTakesNothing(script, old(clock), clock, written);
    }

    /**
     * A refresh of a run at rest that completes leaves it at rest exactly when no other run's sync took a port back
     * meanwhile and either the run was stopped or the new configuration leaves it clean. What is left over otherwise is
     * given exactly. A live run is not even launched when a service asks for a port on record for another. When the
     * launch of a live run fails, the run itself keeps all recorded ports exactly when each recorded service not launched
     * again stays captured.
     */
    method RefreshAtRest(services: map<string, ServiceConfig>, order: seq<string>, noWait: bool, force: bool)
      returns (result: RunResult, ghost r: Resources, ghost done: set<string>, ghost initFailed: set<string>,
               ghost leftover: iset<Claim>)
      requires Valid() && AllPlain(services.Keys) && Enumerates(order, services.Keys)
      requires known && Settled()
      modifies this`clock, this`back, this`takebacks, this`calm, this`began, this`checked, this`launches,
               this`attempted, this`stopped, this`records, this`manifest, this`written, file
      ensures Valid() && !result.RunNotFound? && (!old(stopped) ==> !result.RemoveFailed?)
      ensures takebacks == old(takebacks) ==> back == iset{}
      ensures back <= ExposedBy(written) * SyncedBetween(script, old(clock), clock)
      ensures Silent(script, old(clock), clock, written) ==> back == iset{}
      ensures leftover == if old(stopped) then iset{}
                          else Recorded(Restrict(old(records), old(records).Keys - services.Keys)) + Obsolete(initFailed, old(records), r)
      ensures result.Completed? ==>
                && records.Keys == services.Keys && AllFailed(initFailed, services, records)
                && Resolved(services, r) && (!old(stopped) ==> Reuses(services, old(records), r))
                && Matches(records, r)
                && Held() == Recorded(records) + leftover + back
                && (leftover == iset{} <==> old(stopped) || LeavesClean(services, old(records), initFailed))
                && (Settled() <==> back == iset{} && (old(stopped) || LeavesClean(services, old(records), initFailed)))
      ensures !old(stopped) && TakesOver(services, old(records)) ==>
                result !in {LaunchFailed, NotPersisted, Completed} && launches == []
      ensures result.LaunchFailed? && !old(stopped) ==>
                && initFailed <= done <= services.Keys && AllFailed(initFailed, services, records)
                && Resolved(services, r) && Reuses(services, old(records), r)
                && Replaced(Restrict(old(records), services.Keys), records, done, r)
                && (Recorded(records) <= Held() - back <==> StaysCaptured(services, old(records), services.Keys - done))
    {
      hide FixedChecked;
      hide Begun;
      hide Relaunched;
      hide DepsLaunched;
      hide DepsDone;
      hide FreeBetween;
      hide PlanOf;
      hide Held;
      hide Valid;
      hide AllPlain;
      hide AllFailed;
      hide Resolved;
      hide Reuses;
      hide Matches;
      hide Apart;
      hide BeforeLaunch;
      hide ManifestClaims;
      hide Recorded;
      hide Planned;
      hide Obsolete;
      hide Unpreserved;
      hide Restrict;
      hide Replaced;
      hide LeavesClean;
      hide StaysCaptured;
      hide OnePerPort;
      hide TakesOver;
      hide ExposedBy;
      hide SyncedBetween;
      hide Silent;
      result, r, done, initFailed := Refresh(services, order, noWait, force);
      leftover := if old(stopped) then iset{}
                  else Recorded(Restrict(old(records), old(records).Keys - services.Keys)) + Obsolete(initFailed, old(records), r);
      ValidParts();
      if result.Completed? {
        ResolvedKeys(services, r);
        if old(stopped) {
          RestartLeavesNothing(old(records), services.Keys, old(manifest), r, initFailed);
        } else {
          RefreshLeftovers(old(records), services.Keys, old(manifest), r, initFailed);
          LeftoverIff(services, old(records), r, initFailed);
        }
        Balance(Recorded(records), leftover, back, Held());
      }
      if result in {LaunchFailed, NotPersisted, Completed} && !old(stopped) && TakesOver(services, old(records)) {
        TakeoverClashes(old(Held()), services, old(records), old(manifest), r);
      }
      if result.LaunchFailed? && !old(stopped) {
        FailedLiveRefreshCovers(services, old(Held()), old(records), old(manifest), r, records, done, initFailed);
      }
    }
  }
}
