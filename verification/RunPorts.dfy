/** Claims of one run on ports, and what registry transactions do to them. */
module RunPorts {
  import opened Common
  import opened PortRegistry
  import opened PortOwners

  datatype Role = Public | Backend

  /** A port held for a service in one of its two roles. */
  datatype Claim = Claim(port: Port, role: Role, service: string)

  function OwnerOf(runId: string, role: Role, service: string): string {
    match role
    case Public => PortOwner(runId, service)
    case Backend => CaptureBackendPortOwner(runId, service)
  }

  ghost predicate Holds(r: Registry, runId: string, c: Claim) {
    Plain(c.service) && c.port in r && r[c.port].owner == OwnerOf(runId, c.role, c.service)
  }

  /** Everything the registry holds for a run. */
  ghost function HeldBy(r: Registry, runId: string): iset<Claim> {
    iset c: Claim | Holds(r, runId, c)
  }

  /** The run's entries were made by its own daemon. */
  ghost predicate OwnedBy(r: Registry, runId: string, daemon: nat) {
    forall c: Claim :: Holds(r, runId, c) ==> r[c.port].daemon == daemon
  }

  /** Owner strings tell service and role apart. */
  lemma {:induction false} OwnerDetermines(runId: string, role1: Role, s1: string, role2: Role, s2: string)
    requires Plain(s1) && Plain(s2)
    ensures OwnerOf(runId, role1, s1) == OwnerOf(runId, role2, s2) <==> role1 == role2 && s1 == s2
  {
    hide PortOwner;
    hide CaptureBackendPortOwner;
    PortOwnerInjective(runId, s1, runId, s2);
    BackendOwnerInjective(runId, s1, runId, s2);
    RolesDisjointInRun(runId, s1, s2);
    RolesDisjointInRun(runId, s2, s1);
  }

  /** A port is claimed at most once. */
  lemma {:induction false} OneClaimPerPort(r: Registry, runId: string, c: Claim, d: Claim)
    requires Holds(r, runId, c) && Holds(r, runId, d) && c.port == d.port
    ensures c == d
  {
    hide OwnerOf;
    OwnerDetermines(runId, c.role, c.service, d.role, d.service);
  }

  // ---- One transaction and one claim ----

  /** A transaction that speaks for none of the run's owners, while the run's daemon is alive. */
  ghost predicate Foreign(t: Transaction, runId: string, daemon: nat) {
    && daemon in t.os.alive
    && forall role: Role, s: string :: Plain(s) ==> OwnerOf(runId, role, s) !in Names(t.action)
  }

  /** An owner string of another run's service or of a global. */
  ghost predicate OwnerElsewhere(owner: string, runId: string) {
    || (exists other: string, role: Role, s: string ::
          other != runId && Plain(other) && Plain(s) && owner == OwnerOf(other, role, s))
    || (exists key: string, name: string :: owner == GlobalPortOwner(key, name))
  }

  /** Whatever is done for other runs and for globals, by this or any daemon, is foreign to a run with a valid id. */
  lemma {:induction false} OtherRunsAreForeign(t: Transaction, runId: string, daemon: nat)
    requires Plain(runId) && daemon in t.os.alive
    requires forall owner :: owner in Names(t.action) ==> OwnerElsewhere(owner, runId)
    ensures Foreign(t, runId, daemon)
  {
    hide PortOwner;
    hide CaptureBackendPortOwner;
    hide GlobalPortOwner;
    hide Plain;
    hide Names;
    forall role: Role, s: string | Plain(s)
      ensures OwnerOf(runId, role, s) !in Names(t.action)
    {
      if OwnerElsewhere(OwnerOf(runId, role, s), runId) {
        NotElsewhere(runId, role, s);
        assert false;
      }
    }
  }

  lemma {:induction false} NotElsewhere(runId: string, role: Role, s: string)
    requires Plain(runId) && Plain(s)
    ensures !OwnerElsewhere(OwnerOf(runId, role, s), runId)
  {
    hide PortOwner;
    hide CaptureBackendPortOwner;
    hide GlobalPortOwner;
    hide Plain;
    forall other: string, role2: Role, s2: string | other != runId && Plain(other) && Plain(s2)
      ensures OwnerOf(runId, role, s) != OwnerOf(other, role2, s2)
    {
      PortOwnerInjective(runId, s, other, s2);
      BackendOwnerInjective(runId, s, other, s2);
      RolesDisjoint(runId, s, other, s2);
      RolesDisjoint(other, s2, runId, s);
    }
    forall key: string, name: string
      ensures OwnerOf(runId, role, s) != GlobalPortOwner(key, name)
    {
      GlobalsApart(runId, s, key, name);
    }
  }

  lemma {:induction false} ClaimAfter(stored: Registry, t: Transaction, runId: string, daemon: nat, c: Claim)
    requires OwnedBy(stored, runId, daemon) && daemon in t.os.alive
    ensures var after := Committed(stored, t);
            && (Holds(stored, runId, c) ==>
                  if t.action == Release(c.port, OwnerOf(runId, c.role, c.service)) then !Holds(after, runId, c)
                  else Holds(after, runId, c) && after[c.port] == stored[c.port])
            && (!Holds(stored, runId, c) && Holds(after, runId, c) ==>
                  && Answered(stored, t).Success?
                  && c.port !in Cleaned(stored, t.os.alive)
                  && OwnerOf(runId, c.role, c.service) in Names(t.action)
                  && after[c.port].daemon == t.daemon)
  {
    hide OwnerOf;
    hide Names;
    hide Act;
    if Holds(stored, runId, c) {
      LiveEntryKept(stored, t, c.port);
    }
    if Answered(stored, t).Success? {
      ActKeeps(Cleaned(stored, t.os.alive), t.action, t.daemon, t.os);
    }
  }

  lemma {:induction false} ForeignKeeps(stored: Registry, t: Transaction, runId: string, daemon: nat)
    requires OwnedBy(stored, runId, daemon) && Foreign(t, runId, daemon)
    ensures HeldBy(Committed(stored, t), runId) == HeldBy(stored, runId)
    ensures OwnedBy(Committed(stored, t), runId, daemon)
  {
    hide OwnerOf;
    hide Committed;
    hide Answered;
    forall c: Claim
      ensures Holds(Committed(stored, t), runId, c) <==> Holds(stored, runId, c)
      ensures Holds(stored, runId, c) ==> Committed(stored, t)[c.port] == stored[c.port]
    {
      ClaimAfter(stored, t, runId, daemon, c);
      if Plain(c.service) {
        assert OwnerOf(runId, c.role, c.service) !in Names(t.action);
      }
    }
  }

  // ---- What happens in between ----

  /**
   * Something that happens to the registry while a command works on a run: a transaction for other runs or globals,
   * or another run's port sync repeating a claim of this run that it read from this run's manifest.
   */
  datatype Other = Elsewhere(t: Transaction) | Sync(claim: Claim, os: Os)

  /** A port sync reserves under the owner the manifest stands for, without asking whether the port is free. */
  function SyncOf(c: Claim, os: Os, runId: string, daemon: nat): Transaction {
    Transaction(Reserve(c.port, OwnerOf(runId, c.role, c.service), false), daemon, os)
  }

  ghost predicate ProperOther(o: Other, runId: string, daemon: nat) {
    match o
    case Elsewhere(t) => Foreign(t, runId, daemon)
    case Sync(_, os) => daemon in os.alive
  }

  /** A sync between a release and whatever follows takes the port back, and it is not foreign to the run. */
  lemma {:induction false} SyncTakesBack(stored: Registry, runId: string, c: Claim, release: Transaction, os: Os)
    requires Holds(stored, runId, c) && OwnedBy(stored, runId, release.daemon)
    requires release.daemon in release.os.alive && release.daemon in os.alive
    requires release.action == Release(c.port, OwnerOf(runId, c.role, c.service))
    ensures var released := Committed(stored, release);
            && !Holds(released, runId, c)
            && Holds(Committed(released, SyncOf(c, os, runId, release.daemon)), runId, c)
            && !Foreign(SyncOf(c, os, runId, release.daemon), runId, release.daemon)
  {
    hide OwnerOf;
    LiveEntryKept(stored, release, c.port);
    assert OwnerOf(runId, c.role, c.service) in Names(SyncOf(c, os, runId, release.daemon).action);
  }

  // ---- The run's own transactions ----

  lemma {:induction false} OwnReserve(stored: Registry, t: Transaction, runId: string, c: Claim)
    requires OwnedBy(stored, runId, t.daemon) && t.daemon in t.os.alive && Plain(c.service)
    requires t.action.Reserve? && t.action.port == c.port && t.action.owner == OwnerOf(runId, c.role, c.service)
    ensures OwnedBy(Committed(stored, t), runId, t.daemon)
    ensures HeldBy(Committed(stored, t), runId) ==
            if Answered(stored, t).Success? then HeldBy(stored, runId) + iset{c} else HeldBy(stored, runId)
  {
    hide OwnerOf;
    var after := Committed(stored, t);
    ReserveAnswer(stored, t);
    hide Committed;
    hide Answered;
    forall d: Claim
      ensures Holds(after, runId, d) <==> Holds(stored, runId, d) || (Answered(stored, t).Success? && d == c)
      ensures Holds(after, runId, d) ==> after[d.port].daemon == t.daemon
    {
      ClaimAfter(stored, t, runId, t.daemon, d);
      if Plain(d.service) {
        OwnerDetermines(runId, c.role, c.service, d.role, d.service);
      }
    }
  }

  lemma {:induction false} ReserveAnswer(stored: Registry, t: Transaction)
    requires t.action.Reserve?
    ensures var after := Committed(stored, t);
            && (Answered(stored, t).Success? ==> t.action.port in after && after[t.action.port].owner == t.action.owner)
            && (forall p :: p in after && p !in Cleaned(stored, t.os.alive) && Answered(stored, t).Success? ==> p == t.action.port)
            && Names(t.action) == {t.action.owner}
            && (Answered(stored, t).Failure? ==> after == stored)
  {
  }

  lemma {:induction false} OwnEphemeral(stored: Registry, t: Transaction, runId: string, role: Role, service: string)
    requires OwnedBy(stored, runId, t.daemon) && t.daemon in t.os.alive && Plain(service)
    requires t.action == ReserveEphemeral(OwnerOf(runId, role, service))
    ensures OwnedBy(Committed(stored, t), runId, t.daemon)
    ensures Answered(stored, t).Failure? ==> HeldBy(Committed(stored, t), runId) == HeldBy(stored, runId)
    ensures Answered(stored, t).Success? ==>
              && Answered(stored, t).value.ThePort?
              && HeldBy(Committed(stored, t), runId) == HeldBy(stored, runId) + iset{Claim(Answered(stored, t).value.port, role, service)}
              && (forall d: Claim :: d in HeldBy(stored, runId) ==> d.port != Answered(stored, t).value.port)
  {
    hide OwnerOf;
    var after := Committed(stored, t);
    EphemeralAnswer(stored, t);
    hide Committed;
    hide Answered;
    forall d: Claim
      ensures Answered(stored, t).Success? ==>
                (Holds(after, runId, d) <==> Holds(stored, runId, d) || d == Claim(Answered(stored, t).value.port, role, service))
      ensures Answered(stored, t).Success? && Holds(stored, runId, d) ==> d.port != Answered(stored, t).value.port
      ensures Holds(after, runId, d) ==> after[d.port].daemon == t.daemon
    {
      ClaimAfter(stored, t, runId, t.daemon, d);
      if Plain(d.service) {
        OwnerDetermines(runId, role, service, d.role, d.service);
      }
    }
  }

  lemma {:induction false} EphemeralAnswer(stored: Registry, t: Transaction)
    requires t.action.ReserveEphemeral?
    ensures var after := Committed(stored, t);
            && Names(t.action) == {t.action.owner}
            && (Answered(stored, t).Failure? ==> after == stored)
            && (Answered(stored, t).Success? ==>
                  && Answered(stored, t).value.ThePort?
                  && var port := Answered(stored, t).value.port;
                     port in after && after[port].owner == t.action.owner && port !in Cleaned(stored, t.os.alive)
                     && forall p :: p in after && p !in Cleaned(stored, t.os.alive) ==> p == port)
  {
  }

  /** After a release the claim is gone, whether there was anything to remove or not; it fails only on another's entry. */
  lemma {:induction false} OwnRelease(stored: Registry, t: Transaction, runId: string, c: Claim)
    requires OwnedBy(stored, runId, t.daemon) && t.daemon in t.os.alive && Plain(c.service)
    requires t.action == Release(c.port, OwnerOf(runId, c.role, c.service))
    ensures OwnedBy(Committed(stored, t), runId, t.daemon)
    ensures HeldBy(Committed(stored, t), runId) == HeldBy(stored, runId) - iset{c}
    ensures c in HeldBy(stored, runId) ==> Answered(stored, t).Success?
  {
    hide OwnerOf;
    var after := Committed(stored, t);
    ReleaseAnswer(stored, t);
    hide Committed;
    hide Answered;
    forall d: Claim
      ensures Holds(after, runId, d) <==> Holds(stored, runId, d) && d != c
      ensures Holds(after, runId, d) ==> after[d.port].daemon == t.daemon
    {
      ClaimAfter(stored, t, runId, t.daemon, d);
      if Plain(d.service) {
        OwnerDetermines(runId, c.role, c.service, d.role, d.service);
      }
    }
  }

  lemma {:induction false} ReleaseAnswer(stored: Registry, t: Transaction)
    requires t.action.Release?
    ensures var after := Committed(stored, t);
            && (forall p :: p in after && p in Cleaned(stored, t.os.alive) ==> after[p] == Cleaned(stored, t.os.alive)[p])
            && (Answered(stored, t).Success? ==> forall p :: p in after ==> p in Cleaned(stored, t.os.alive))
            && (Answered(stored, t).Failure? ==> after == stored)
            && (t.action.port in Cleaned(stored, t.os.alive) && Cleaned(stored, t.os.alive)[t.action.port].owner == t.action.owner
                ==> Answered(stored, t).Success?)
  {
  }

  // ---- Allocation for the run's services ----

  ghost function PublicClaims(ports: map<string, Option<Port>>): iset<Claim> {
    iset c: Claim | c.role.Public? && c.service in ports && ports[c.service] == Some(c.port)
  }

  ghost predicate AllPlain(names: set<string>) {
    forall s :: s in names ==> Plain(s)
  }

  /** The requests of a run's services, one each, under their public owners. */
  ghost predicate RequestsOf(requests: seq<Request>, runId: string, names: set<string>) {
    && (forall q :: q in requests ==> q.service in names && q.owner == PortOwner(runId, q.service))
    && (set q | q in requests :: q.service) == names
    && (forall i, j :: 0 <= i < j < |requests| ==> requests[i].service != requests[j].service)
  }

  lemma {:induction false} RequestsAreProper(requests: seq<Request>, runId: string, names: set<string>)
    requires RequestsOf(requests, runId, names) && AllPlain(names)
    ensures ProperRequests(requests)
  {
    hide PortOwner;
    forall i, j | 0 <= i < j < |requests|
      ensures requests[i].owner != requests[j].owner
    {
      assert requests[i] in requests && requests[j] in requests;
      PortOwnerInjective(runId, requests[i].service, runId, requests[j].service);
    }
  }

  lemma {:induction false} OwnAllocate(stored: Registry, t: Transaction, runId: string, names: set<string>)
    requires OwnedBy(stored, runId, t.daemon) && t.daemon in t.os.alive && AllPlain(names)
    requires t.action.Allocate? && RequestsOf(t.action.requests, runId, names)
    ensures OwnedBy(Committed(stored, t), runId, t.daemon)
    ensures Answered(stored, t).Failure? ==> HeldBy(Committed(stored, t), runId) == HeldBy(stored, runId)
    ensures Answered(stored, t).Success? ==>
              && Answered(stored, t).value.ThePorts?
              && Answered(stored, t).value.ports.Keys == names
              && HeldBy(Committed(stored, t), runId) == HeldBy(stored, runId) + PublicClaims(Answered(stored, t).value.ports)
  {
    hide PortOwner;
    hide CaptureBackendPortOwner;
    var after := Committed(stored, t);
    if Answered(stored, t).Success? {
      var ports := AllocateAnswer(stored, t, runId, names);
      hide Committed;
      hide Answered;
      forall d: Claim
        ensures Holds(after, runId, d) <==> Holds(stored, runId, d) || d in PublicClaims(ports)
        ensures Holds(after, runId, d) ==> after[d.port].daemon == t.daemon
      {
        ClaimAfter(stored, t, runId, t.daemon, d);
        if d in PublicClaims(ports) {
          assert d.service in names;
        } else if Holds(after, runId, d) && !Holds(stored, runId, d) {
          var s :| s in names && ports[s] == Some(d.port) && after[d.port].owner == PortOwner(runId, s);
          OwnerDetermines(runId, Public, s, d.role, d.service);
        }
      }
    }
  }

  lemma {:induction false} AllocateAnswer(stored: Registry, t: Transaction, runId: string, names: set<string>)
    returns (ports: map<string, Option<Port>>)
    requires AllPlain(names)
    requires t.action.Allocate? && RequestsOf(t.action.requests, runId, names) && Answered(stored, t).Success?
    ensures Answered(stored, t).value.ThePorts? && ports == Answered(stored, t).value.ports && ports.Keys == names
    ensures var after := Committed(stored, t);
            && (forall s :: s in names && ports[s].Some? ==>
                  ports[s].value in after && after[ports[s].value].owner == PortOwner(runId, s))
            && (forall p :: p in after && p !in Cleaned(stored, t.os.alive) ==>
                  exists s :: s in names && ports[s] == Some(p) && after[p].owner == PortOwner(runId, s))
  {
    hide PortOwner;
    hide Allocated;
    var requests, r := t.action.requests, Cleaned(stored, t.os.alive);
    RequestsAreProper(requests, runId, names);
    AllGranted(r, requests, t.daemon, t.os);
    var a := Allocated(r, requests, t.daemon, t.os).value;
    ports := a.ports;
    forall s | s in names && ports[s].Some?
      ensures ports[s].value in a.registry && a.registry[ports[s].value].owner == PortOwner(runId, s)
    {
      var q :| q in requests && q.service == s;
      assert Granted(a, q);
    }
    forall p | p in a.registry && p !in r
      ensures exists s :: s in names && ports[s] == Some(p) && a.registry[p].owner == PortOwner(runId, s)
    {
      NewEntriesGranted(r, requests, t.daemon, t.os, p);
      var q :| q in requests && q.service in ports && ports[q.service] == Some(p) && a.registry[p].owner == q.owner;
      assert q.service in names;
    }
  }

  /** What each request of a successful allocation is given. */
  lemma {:induction false} AllocatedConfigs(stored: Registry, t: Transaction, runId: string, names: set<string>, q: Request)
    requires AllPlain(names) && t.action.Allocate? && RequestsOf(t.action.requests, runId, names)
    requires Answered(stored, t).Success? && q in t.action.requests
    ensures q.service in Answered(stored, t).value.ports
    ensures var port := Answered(stored, t).value.ports[q.service];
            match q.config
            case None => port.Some?
            case Some(Fixed(p)) => port == Some(p)
            case Some(Text(_)) => port.None?
  {
    RequestsAreProper(t.action.requests, runId, names);
    AllGranted(Cleaned(stored, t.os.alive), t.action.requests, t.daemon, t.os);
  }

  /** What an allocation answers for a fixed port could be bound, unless the run held it for that service already. */
  lemma {:induction false} OwnFixedWasFree(stored: Registry, t: Transaction, runId: string, names: set<string>, q: Request, port: Port)
    requires AllPlain(names) && t.action.Allocate? && RequestsOf(t.action.requests, runId, names)
    requires Answered(stored, t).Success? && q in t.action.requests && q.config == Some(Fixed(port))
    ensures port in t.os.free || Holds(stored, runId, Claim(port, Public, q.service))
  {
    RequestsAreProper(t.action.requests, runId, names);
    FixedWereFree(Cleaned(stored, t.os.alive), t.action.requests, t.daemon, t.os, q, port);
  }

  /** The ports that can be bound at the moment. */
  ghost function FreeIn(os: Os): iset<Port> {
    iset p: Port | p in os.free
  }

  /** Another owner, whose daemon lives, holds the port. */
  predicate TakenByOther(r: Registry, port: Port, owner: string, alive: set<nat>) {
    port in r && r[port].daemon in alive && r[port].owner != owner
  }

  /** A run's reservation and what speaks for or against it. */
  lemma {:induction false} OwnReserveAnswer(stored: Registry, t: Transaction, runId: string, c: Claim)
    requires OwnedBy(stored, runId, t.daemon) && t.daemon in t.os.alive && Plain(c.service)
    requires t.action.Reserve? && t.action.port == c.port && t.action.owner == OwnerOf(runId, c.role, c.service)
    ensures c in HeldBy(stored, runId) ==> Answered(stored, t).Success?
    ensures Answered(stored, t).Success? && t.action.requireAvailable ==> c in HeldBy(stored, runId) || c.port in t.os.free
    ensures Answered(stored, t).Failure? ==>
              || TakenByOther(stored, c.port, t.action.owner, t.os.alive)
              || (t.action.requireAvailable && c.port !in t.os.free)
    ensures TakenByOther(stored, c.port, t.action.owner, t.os.alive) ==> Answered(stored, t).Failure?
  {
    hide OwnerOf;
    UnavailableOnlyWhenBound(stored, t);
    hide Answered;
  }

  /** A request for any port is refused only when the system offers none that is not reserved. */
  lemma {:induction false} OwnEphemeralAnswer(stored: Registry, t: Transaction)
    requires t.action.ReserveEphemeral?
    ensures Answered(stored, t).Failure? <==> NoOffer(stored, t.os)
  {
    SkippedAll(Cleaned(stored, t.os.alive), t.os.offers);
  }

  predicate NoOffer(stored: Registry, os: Os) {
    forall p :: p in os.offers ==> p in stored && stored[p].daemon in os.alive
  }

  /**
   * A release followed by a sync from a manifest that still lists the port leaves the port reserved: a renamed
   * service with the same fixed port is then refused, although without the sync it would have been granted.
   */
  lemma {:induction false} SyncedPortBlocksRename(stored: Registry, runId: string, port: Port, name: string, renamed: string,
                                                  release: Transaction, sync: Transaction, reserve: Transaction)
    requires Plain(name) && Plain(renamed) && name != renamed
    requires Holds(stored, runId, Claim(port, Public, name)) && OwnedBy(stored, runId, release.daemon)
    requires release.daemon == sync.daemon == reserve.daemon
    requires release.daemon in release.os.alive && release.daemon in sync.os.alive && release.daemon in reserve.os.alive
    requires release.action == Release(port, PortOwner(runId, name))
    requires sync.action == Reserve(port, PortOwner(runId, name), false)
    requires reserve.action == Reserve(port, PortOwner(runId, renamed), true)
    requires port in reserve.os.free
    ensures Answered(Committed(stored, release), reserve).Success?
    ensures Answered(Committed(Committed(stored, release), sync), reserve) == Failure(ReservedByOther(port))
  {
    PortOwnerInjective(runId, name, runId, renamed);
    hide PortOwner;
    LiveEntryKept(stored, release, port);
  }
}
