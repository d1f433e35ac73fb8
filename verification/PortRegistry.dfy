/** The port reservation registry: a stored map from port to owner, changed by all-or-nothing transactions. */
module PortRegistry {
  import opened Common

  type Port = p: int | 0 <= p < 65536

  datatype Reservation = Reservation(owner: string, daemon: nat)

  type Registry = map<Port, Reservation>

  /** A configured port; `Text` is any string value, of which "none" is the usual one. */
  datatype PortConfig = Fixed(port: Port) | Text(value: string)

  datatype PortError = ReservedByOther(port: Port) | Unavailable(port: Port) | NoSocket

  /**
   * What the operating system answers during one transaction: which daemons are alive, which ports can be bound,
   * and the ports it hands out when asked for any. Asking for one more than it hands out is a socket error.
   */
  datatype Os = Os(alive: set<nat>, free: set<Port>, offers: seq<Port>)

  // ---- Actions on the registry read into memory ----

  function Cleaned(r: Registry, alive: set<nat>): Registry {
    map p | p in r && r[p].daemon in alive :: r[p]
  }

  function Reserved(r: Registry, port: Port, owner: string, requireAvailable: bool, daemon: nat, free: set<Port>)
    : Result<Registry, PortError>
  {
    if port in r && r[port].owner == owner then Success(r)
    else if port in r then Failure(ReservedByOther(port))
    else if requireAvailable && port !in free then Failure(Unavailable(port))
    else Success(r[port := Reservation(owner, daemon)])
  }

  /** How many offers are passed over because they are reserved. */
  function Skipped(r: Registry, offers: seq<Port>): (n: nat)
    ensures n <= |offers|
    ensures n < |offers| ==> offers[n] !in r
  {
    if offers == [] || offers[0] !in r then 0 else 1 + Skipped(r, offers[1..])
  }

  datatype Taken = Taken(registry: Registry, port: Port, offers: seq<Port>)

  /** The first offered port that is not reserved, with the offers left over. */
  function TakenEphemeral(r: Registry, owner: string, daemon: nat, offers: seq<Port>): Result<Taken, PortError> {
    var n := Skipped(r, offers);
    if n == |offers| then Failure(NoSocket)
    else Success(Taken(r[offers[n] := Reservation(owner, daemon)], offers[n], offers[n + 1..]))
  }

  function Released(r: Registry, port: Port, owner: string): Result<Registry, PortError> {
    if port !in r then Success(r)
    else if r[port].owner == owner then Success(r - {port})
    else Failure(ReservedByOther(port))
  }

  /** Services to allocate for, in order: name, configured port, owner. */
  datatype Request = Request(service: string, config: Option<PortConfig>, owner: string)

  datatype Allocation = Allocation(registry: Registry, ports: map<string, Option<Port>>, offers: seq<Port>)

  function AllocatedOne(a: Allocation, q: Request, daemon: nat, free: set<Port>): Result<Allocation, PortError> {
    match q.config
    case Some(Text(_)) => Success(a.(ports := a.ports[q.service := None]))
    case Some(Fixed(port)) =>
      (match Reserved(a.registry, port, q.owner, true, daemon, free)
       case Failure(e) => Failure(e)
       case Success(r) => Success(a.(registry := r, ports := a.ports[q.service := Some(port)])))
    case None =>
      match TakenEphemeral(a.registry, q.owner, daemon, a.offers)
      case Failure(e) => Failure(e)
      case Success(t) => Success(Allocation(t.registry, a.ports[q.service := Some(t.port)], t.offers))
  }

  function Allocated(r: Registry, requests: seq<Request>, daemon: nat, os: Os): Result<Allocation, PortError> {
    if requests == [] then Success(Allocation(r, map[], os.offers))
    else
      match Allocated(r, requests[..|requests| - 1], daemon, os)
      case Failure(e) => Failure(e)
      case Success(a) => AllocatedOne(a, requests[|requests| - 1], daemon, os.free)
  }

  // ---- Transactions ----

  datatype Action =
    | Reserve(port: Port, owner: string, requireAvailable: bool)
    | ReserveEphemeral(owner: string)
    | Release(port: Port, owner: string)
    | Allocate(requests: seq<Request>)

  datatype Answer = Nothing | ThePort(port: Port) | ThePorts(ports: map<string, Option<Port>>)

  datatype Acted = Acted(registry: Registry, answer: Answer)

  function Act(r: Registry, action: Action, daemon: nat, os: Os): Result<Acted, PortError> {
    match action
    case Reserve(port, owner, requireAvailable) =>
      (match Reserved(r, port, owner, requireAvailable, daemon, os.free)
       case Failure(e) => Failure(e)
       case Success(s) => Success(Acted(s, Nothing)))
    case ReserveEphemeral(owner) =>
      (match TakenEphemeral(r, owner, daemon, os.offers)
       case Failure(e) => Failure(e)
       case Success(t) => Success(Acted(t.registry, ThePort(t.port))))
    case Release(port, owner) =>
      (match Released(r, port, owner)
       case Failure(e) => Failure(e)
       case Success(s) => Success(Acted(s, Nothing)))
    case Allocate(requests) =>
      match Allocated(r, requests, daemon, os)
      case Failure(e) => Failure(e)
      case Success(a) => Success(Acted(a.registry, ThePorts(a.ports)))
  }

  /** A transaction as one daemon runs it. */
  datatype Transaction = Transaction(action: Action, daemon: nat, os: Os)

  /** Stale entries are dropped first; a failed action writes nothing back. */
  function Committed(stored: Registry, t: Transaction): Registry {
    match Act(Cleaned(stored, t.os.alive), t.action, t.daemon, t.os)
    case Failure(_) => stored
    case Success(a) => a.registry
  }

  function Answered(stored: Registry, t: Transaction): Result<Answer, PortError> {
    match Act(Cleaned(stored, t.os.alive), t.action, t.daemon, t.os)
    case Failure(e) => Failure(e)
    case Success(a) => Success(a.answer)
  }

  // ---- The in-memory registry and its operations ----

  class PortReservationRegistry {
    var reservations: Registry

    constructor (stored: Registry)
      ensures reservations == stored
    {
      reservations := stored;
    }

    method CleanupStale(alive: set<nat>)
      modifies this
      ensures reservations == Cleaned(old(reservations), alive)
      ensures forall p :: p in reservations <==> p in old(reservations) && old(reservations)[p].daemon in alive
      ensures forall p :: p in reservations ==> reservations[p] == old(reservations)[p]
    {
      reservations := map p | p in reservations && reservations[p].daemon in alive :: reservations[p];
    }

    method ReserveSpecific(port: Port, owner: string, requireAvailable: bool, daemon: nat, free: set<Port>)
      returns (error: Option<PortError>)
      modifies this
      ensures Reserved(old(reservations), port, owner, requireAvailable, daemon, free)
           == if error.Some? then Failure(error.value) else Success(reservations)
      ensures error.Some? ==> reservations == old(reservations)
      ensures error.None? <==>
                if port in old(reservations) then old(reservations)[port].owner == owner else !requireAvailable || port in free
      ensures error.Some? ==> error.value == if port in old(reservations) then ReservedByOther(port) else Unavailable(port)
      ensures error.None? ==>
                && port in reservations && reservations[port].owner == owner
                && (port !in old(reservations) ==> reservations[port].daemon == daemon)
                && forall p :: p != port || p in old(reservations) ==>
                     (p in reservations <==> p in old(reservations))
                     && (p in reservations ==> reservations[p] == old(reservations)[p])
    {
      if port in reservations {
        return if reservations[port].owner == owner then None else Some(ReservedByOther(port));
      }
      if requireAvailable && port !in free {
        return Some(Unavailable(port));
      }
      reservations := reservations[port := Reservation(owner, daemon)];
      return None;
    }

    /** Asks for ports until one is not reserved. */
    method AllocateEphemeral(owner: string, daemon: nat, offers: seq<Port>)
      returns (r: Result<Port, PortError>, rest: seq<Port>)
      modifies this
      ensures TakenEphemeral(old(reservations), owner, daemon, offers)
           == if r.Success? then Success(Taken(reservations, r.value, rest)) else Failure(r.error)
      ensures r.Failure? ==> reservations == old(reservations)
    {
      var i := 0;
      while i < |offers|
        invariant 0 <= i <= |offers|
        invariant reservations == old(reservations)
        invariant Skipped(reservations, offers) == i + Skipped(reservations, offers[i..])
      {
        var port := offers[i];
        assert offers[i..][0] == port && offers[i..][1..] == offers[i + 1..];
        if port in reservations {
          i := i + 1;
          continue;
        }
        reservations := reservations[port := Reservation(owner, daemon)];
        return Success(port), offers[i + 1..];
      }
      return Failure(NoSocket), [];
    }

    method ReleasePort(port: Port, owner: string) returns (error: Option<PortError>)
      modifies this
      ensures Released(old(reservations), port, owner)
           == if error.Some? then Failure(error.value) else Success(reservations)
    {
      if port !in reservations {
        return None;
      }
      if reservations[port].owner != owner {
        return Some(ReservedByOther(port));
      }
      reservations := reservations - {port};
      return None;
    }

    /** One port for each request that wants one; the first failure ends the loop. */
    method AllocateAll(requests: seq<Request>, daemon: nat, os: Os) returns (r: Result<map<string, Option<Port>>, PortError>)
      modifies this
      ensures r.Success? ==>
                var a := Allocated(old(reservations), requests, daemon, os);
                a.Success? && a.value.registry == reservations && a.value.ports == r.value
      ensures r.Failure? ==> Allocated(old(reservations), requests, daemon, os) == Failure(r.error)
    {
      var ports: map<string, Option<Port>> := map[];
      var offers := os.offers;
      TakeAll(requests);
      for i := 0 to |requests|
        invariant Allocated(old(reservations), requests[..i], daemon, os) == Success(Allocation(reservations, ports, offers))
      {
        AllocatedNext(old(reservations), requests, i, daemon, os);
        var q := requests[i];
        match q.config {
          case Some(Text(_)) =>
            ports := ports[q.service := None];
          case Some(Fixed(port)) =>
            var error := ReserveSpecific(port, q.owner, true, daemon, os.free);
            if error.Some? {
              AllocationFails(old(reservations), requests, i + 1, daemon, os);
              return Failure(error.value);
            }
            ports := ports[q.service := Some(port)];
          case None =>
            var port;
            port, offers := AllocateEphemeral(q.owner, daemon, offers);
            if port.Failure? {
              AllocationFails(old(reservations), requests, i + 1, daemon, os);
              return Failure(port.error);
            }
            ports := ports[q.service := Some(port.value)];
        }
      }
      return Success(ports);
    }
  }

  lemma {:induction false} AllocatedNext(r: Registry, requests: seq<Request>, i: nat, daemon: nat, os: Os)
    requires i < |requests| && Allocated(r, requests[..i], daemon, os).Success?
    ensures Allocated(r, requests[..i + 1], daemon, os)
         == AllocatedOne(Allocated(r, requests[..i], daemon, os).value, requests[i], daemon, os.free)
  {
    assert requests[..i + 1][..i] == requests[..i];
  }

  lemma {:induction false} AllocationFails(r: Registry, requests: seq<Request>, i: nat, daemon: nat, os: Os)
    requires i <= |requests| && Allocated(r, requests[..i], daemon, os).Failure?
    ensures Allocated(r, requests, daemon, os) == Allocated(r, requests[..i], daemon, os)
    decreases |requests|
  {
    if i == |requests| {
      assert requests[..i] == requests;
    } else {
      var init := requests[..|requests| - 1];
      assert init[..i] == requests[..i];
      AllocationFails(r, init, i, daemon, os);
    }
  }

  /** The registry file: each call reads, cleans, acts and writes back under the file lock. */
  class RegistryFile {
    var stored: Registry

    constructor ()
      ensures stored == map[]
    {
      stored := map[];
    }

    method ReservePort(port: Port, owner: string, requireAvailable: bool, daemon: nat, os: Os) returns (error: Option<PortError>)
      modifies this
      ensures var t := Transaction(Reserve(port, owner, requireAvailable), daemon, os);
              && stored == Committed(old(stored), t)
              && Answered(old(stored), t) == if error.Some? then Failure(error.value) else Success(Nothing)
      ensures error.Some? ==> stored == old(stored)
    {
      var registry := new PortReservationRegistry(stored);
      registry.CleanupStale(os.alive);
      error := registry.ReserveSpecific(port, owner, requireAvailable, daemon, os.free);
      if error.None? {
        stored := registry.reservations;
      }
    }

    method ReserveEphemeralPort(owner: string, daemon: nat, os: Os) returns (r: Result<Port, PortError>)
      modifies this
      ensures var t := Transaction(ReserveEphemeral(owner), daemon, os);
              && stored == Committed(old(stored), t)
              && Answered(old(stored), t) == if r.Success? then Success(ThePort(r.value)) else Failure(r.error)
      ensures r.Failure? ==> stored == old(stored)
    {
      var registry := new PortReservationRegistry(stored);
      registry.CleanupStale(os.alive);
      var rest;
      r, rest := registry.AllocateEphemeral(owner, daemon, os.offers);
      if r.Success? {
        stored := registry.reservations;
      }
    }

    method ReleasePort(port: Port, owner: string, daemon: nat, os: Os) returns (error: Option<PortError>)
      modifies this
      ensures var t := Transaction(Release(port, owner), daemon, os);
              && stored == Committed(old(stored), t)
              && Answered(old(stored), t) == if error.Some? then Failure(error.value) else Success(Nothing)
      ensures error.Some? ==> stored == old(stored)
    {
      var registry := new PortReservationRegistry(stored);
      registry.CleanupStale(os.alive);
      error := registry.ReleasePort(port, owner);
      if error.None? {
        stored := registry.reservations;
      }
    }

    method AllocatePorts(requests: seq<Request>, daemon: nat, os: Os) returns (r: Result<map<string, Option<Port>>, PortError>)
      modifies this
      ensures var t := Transaction(Allocate(requests), daemon, os);
              && stored == Committed(old(stored), t)
              && Answered(old(stored), t) == if r.Success? then Success(ThePorts(r.value)) else Failure(r.error)
      ensures r.Failure? ==> stored == old(stored)
    {
      var registry := new PortReservationRegistry(stored);
      registry.CleanupStale(os.alive);
      r := registry.AllocateAll(requests, daemon, os);
      if r.Success? {
        stored := registry.reservations;
      }
    }

    /** Transactions of other daemons that get in between. */
    method Interfere(others: seq<Transaction>)
      modifies this
      ensures stored == CommittedAll(old(stored), others)
    {
      stored := CommittedAll(stored, others);
    }
  }

  function CommittedAll(stored: Registry, ts: seq<Transaction>): Registry {
    if ts == [] then stored else Committed(CommittedAll(stored, ts[..|ts| - 1]), ts[|ts| - 1])
  }

  // ---- What transactions keep ----

  /** The owners an action speaks for. */
  function Names(action: Action): set<string> {
    match action
    case Reserve(_, owner, _) => {owner}
    case ReserveEphemeral(owner) => {owner}
    case Release(_, owner) => {owner}
    case Allocate(requests) => set q | q in requests :: q.owner
  }

  lemma {:induction false} AllocatedKeeps(r: Registry, requests: seq<Request>, daemon: nat, os: Os)
    requires Allocated(r, requests, daemon, os).Success?
    ensures var s := Allocated(r, requests, daemon, os).value.registry;
            && (forall p :: p in r ==> p in s && s[p] == r[p])
            && (forall p :: p in s && p !in r ==> s[p].owner in Names(Allocate(requests)) && s[p].daemon == daemon)
  {
    hide AllocatedOne;
    if requests != [] {
      var init, last := requests[..|requests| - 1], requests[|requests| - 1];
      AllocatedKeeps(r, init, daemon, os);
      var before := Allocated(r, init, daemon, os).value;
      AllocatedOneKeeps(before, last, daemon, os.free);
      assert forall q :: q in init ==> q in requests;
      assert last in requests;
    }
  }

  lemma {:induction false} AllocatedOneKeeps(a: Allocation, q: Request, daemon: nat, free: set<Port>)
    requires AllocatedOne(a, q, daemon, free).Success?
    ensures var s := AllocatedOne(a, q, daemon, free).value.registry;
            && (forall p :: p in a.registry ==> p in s && s[p] == a.registry[p])
            && (forall p :: p in s && p !in a.registry ==> s[p].owner == q.owner && s[p].daemon == daemon)
  {
  }

  /** An action adds entries only for owners it names, and removes only the entry a release names. */
  lemma {:induction false} ActKeeps(r: Registry, action: Action, daemon: nat, os: Os)
    requires Act(r, action, daemon, os).Success?
    ensures var s := Act(r, action, daemon, os).value.registry;
            && (forall p :: p in r && !(action.Release? && p == action.port && r[p].owner == action.owner)
                            ==> p in s && s[p] == r[p])
            && (forall p :: p in s && p !in r ==> s[p].owner in Names(action) && s[p].daemon == daemon)
            && (action.Release? ==> forall p :: p in s ==> p in r)
            && (action.Release? ==> action.port !in s)
  {
    if action.Allocate? {
      AllocatedKeeps(r, action.requests, daemon, os);
    }
  }

  /**
   * An entry of a living daemon is never overwritten, re-owned or removed by any transaction of any daemon,
   * except by a release that names its port and its owner.
   */
  lemma {:induction false} LiveEntryKept(stored: Registry, t: Transaction, port: Port)
    requires port in stored && stored[port].daemon in t.os.alive
    ensures var after := Committed(stored, t);
            if t.action == Release(port, stored[port].owner) then port !in after
            else port in after && after[port] == stored[port]
  {
    if Answered(stored, t).Success? {
      ActKeeps(Cleaned(stored, t.os.alive), t.action, t.daemon, t.os);
    }
  }

  /** A reservation is refused on account of another entry exactly when that entry's daemon is alive and its owner another. */
  lemma {:induction false} RefusedOnlyByLiving(stored: Registry, t: Transaction)
    requires t.action.Reserve?
    ensures var port := t.action.port;
            Answered(stored, t) == Failure(ReservedByOther(port))
            <==> port in stored && stored[port].daemon in t.os.alive && stored[port].owner != t.action.owner
  {
    var cleaned := Cleaned(stored, t.os.alive);
    assert t.action.port in cleaned ==> cleaned[t.action.port] == stored[t.action.port];
  }

  /**
   * A reservation is refused as unavailable exactly when availability is asked for, the port cannot be bound and no
   * living daemon's entry holds it. Otherwise it succeeds unless another living owner holds the port.
   */
  lemma {:induction false} UnavailableOnlyWhenBound(stored: Registry, t: Transaction)
    requires t.action.Reserve?
    ensures var port := t.action.port;
            var taken := port in stored && stored[port].daemon in t.os.alive;
            && (Answered(stored, t) == Failure(Unavailable(port)) <==> t.action.requireAvailable && port !in t.os.free && !taken)
            && (Answered(stored, t).Success?
                <==> if taken then stored[port].owner == t.action.owner else t.action.requireAvailable ==> port in t.os.free)
  {
    var cleaned := Cleaned(stored, t.os.alive);
    assert t.action.port in cleaned ==> cleaned[t.action.port] == stored[t.action.port];
  }

  /** A release is refused exactly when another living owner holds the port; otherwise nobody holds it afterwards. */
  lemma {:induction false} ReleaseRefusedOnlyByLiving(stored: Registry, t: Transaction)
    requires t.action.Release?
    ensures var port := t.action.port;
            && (Answered(stored, t).Failure?
                <==> port in stored && stored[port].daemon in t.os.alive && stored[port].owner != t.action.owner)
            && (Answered(stored, t).Success? ==>
                  Committed(stored, t) == map p | p in stored && stored[p].daemon in t.os.alive && p != port :: stored[p])
  {
    var port, cleaned := t.action.port, Cleaned(stored, t.os.alive);
    assert port in cleaned ==> cleaned[port] == stored[port];
    assert cleaned - {port} == map p | p in stored && stored[p].daemon in t.os.alive && p != port :: stored[p];
    if port !in cleaned {
      assert cleaned - {port} == cleaned;
    }
  }

  /**
   * A port a transaction newly enters, and that is not merely repeated, could be bound at that moment: it was free, or
   * the system had just offered it.
   */
  lemma {:induction false} NewEntryWasFree(stored: Registry, t: Transaction, port: Port)
    requires port in Committed(stored, t) && !(port in stored && stored[port].daemon in t.os.alive)
    requires t.action.Reserve? ==> t.action.requireAvailable
    ensures Answered(stored, t).Failure? ==> port in stored
    ensures Answered(stored, t).Success? ==>
              match t.action
              case Reserve(_, _, _) => port in t.os.free
              case ReserveEphemeral(_) => port in t.os.offers
              case Release(_, _) => false
              case Allocate(requests) =>
                || (port in t.os.free && exists q :: q in requests && q.config == Some(Fixed(port)))
                || (port in t.os.offers && exists q :: q in requests && q.config == None)
  {
    if t.action.Allocate? && Answered(stored, t).Success? {
      AllocatedWereFree(Cleaned(stored, t.os.alive), t.action.requests, t.daemon, t.os, port);
    }
  }

  lemma {:induction false} AllocatedWereFree(r: Registry, requests: seq<Request>, daemon: nat, os: Os, port: Port)
    requires Allocated(r, requests, daemon, os).Success?
    ensures var a := Allocated(r, requests, daemon, os).value;
            && (forall p :: p in a.offers ==> p in os.offers)
            && (port in a.registry && port !in r ==>
                  || (port in os.free && exists q :: q in requests && q.config == Some(Fixed(port)))
                  || (port in os.offers && exists q :: q in requests && q.config == None))
  {
    hide AllocatedOne;
    if requests != [] {
      var init, last := requests[..|requests| - 1], requests[|requests| - 1];
      AllocatedWereFree(r, init, daemon, os, port);
      var before := Allocated(r, init, daemon, os).value;
      AllocatedOneWasFree(before, last, daemon, os.free, port);
      assert last in requests && forall q :: q in init ==> q in requests;
    }
  }

  lemma {:induction false} AllocatedOneWasFree(a: Allocation, q: Request, daemon: nat, free: set<Port>, port: Port)
    requires AllocatedOne(a, q, daemon, free).Success?
    ensures var b := AllocatedOne(a, q, daemon, free).value;
            && (forall p :: p in b.offers ==> p in a.offers)
            && (port in b.registry && port !in a.registry ==>
                  (port in free && q.config == Some(Fixed(port))) || (port in a.offers && q.config == None))
  {
  }

  /** Over any sequence of transactions a live entry stays until its owner releases it. */
  lemma {:induction false} LiveEntryKeptThroughout(stored: Registry, ts: seq<Transaction>, port: Port)
    requires port in stored
    requires forall i :: 0 <= i < |ts| ==> stored[port].daemon in ts[i].os.alive
    requires forall i :: 0 <= i < |ts| ==> ts[i].action != Release(port, stored[port].owner)
    ensures port in CommittedAll(stored, ts) && CommittedAll(stored, ts)[port] == stored[port]
  {
    if ts != [] {
      var init := ts[..|ts| - 1];
      LiveEntryKeptThroughout(stored, init, port);
      LiveEntryKept(CommittedAll(stored, init), ts[|ts| - 1], port);
    }
  }

  // ---- Allocation ----

  /** The requests name each service once, and different services have different owners. */
  ghost predicate ProperRequests(requests: seq<Request>) {
    forall i, j :: 0 <= i < j < |requests| ==>
      requests[i].service != requests[j].service && requests[i].owner != requests[j].owner
  }

  /** What a successful allocation gives each request. */
  ghost predicate Granted(a: Allocation, q: Request) {
    && q.service in a.ports
    && (q.config.Some? && q.config.value.Text? ==> a.ports[q.service].None?)
    && (q.config.Some? && q.config.value.Fixed? ==> a.ports[q.service] == Some(q.config.value.port))
    && (q.config.None? ==> a.ports[q.service].Some?)
    && (a.ports[q.service].Some? ==>
          a.ports[q.service].value in a.registry && a.registry[a.ports[q.service].value].owner == q.owner)
  }

  lemma {:induction false} GrantOne(a: Allocation, q: Request, daemon: nat, free: set<Port>, earlier: Request)
    requires AllocatedOne(a, q, daemon, free).Success?
    ensures Granted(AllocatedOne(a, q, daemon, free).value, q)
    ensures Granted(a, earlier) && earlier.service != q.service ==> Granted(AllocatedOne(a, q, daemon, free).value, earlier)
    ensures AllocatedOne(a, q, daemon, free).value.ports.Keys == a.ports.Keys + {q.service}
  {
  }

  lemma {:induction false} AllGranted(r: Registry, requests: seq<Request>, daemon: nat, os: Os)
    requires Allocated(r, requests, daemon, os).Success? && ProperRequests(requests)
    ensures var a := Allocated(r, requests, daemon, os).value;
            && a.ports.Keys == (set q | q in requests :: q.service)
            && forall q :: q in requests ==> Granted(a, q)
  {
    hide AllocatedOne;
    hide Granted;
    if requests == [] {
    } else {
      var init, last := requests[..|requests| - 1], requests[|requests| - 1];
      assert requests == init + [last];
      AllGranted(r, init, daemon, os);
      var before := Allocated(r, init, daemon, os).value;
      forall q | q in init
        ensures Granted(AllocatedOne(before, last, daemon, os.free).value, q)
      {
        var i :| 0 <= i < |init| && init[i] == q;
        assert requests[i].service != requests[|requests| - 1].service;
        GrantOne(before, last, daemon, os.free, q);
      }
      GrantOne(before, last, daemon, os.free, last);
    }
  }

  /** Every entry an allocation adds is at a port granted to a request, under that request's owner. */
  lemma {:induction false} NewEntriesGranted(r: Registry, requests: seq<Request>, daemon: nat, os: Os, p: Port)
    requires Allocated(r, requests, daemon, os).Success? && ProperRequests(requests)
    requires p in Allocated(r, requests, daemon, os).value.registry && p !in r
    ensures var a := Allocated(r, requests, daemon, os).value;
            exists q :: q in requests && q.service in a.ports && a.ports[q.service] == Some(p) && a.registry[p].owner == q.owner
  {
    hide AllocatedOne;
    var init, last := requests[..|requests| - 1], requests[|requests| - 1];
    var before := Allocated(r, init, daemon, os).value;
    AllocatedOneAdds(before, last, daemon, os.free, p);
    if p in before.registry {
      assert forall i :: 0 <= i < |init| ==> init[i] == requests[i];
      NewEntriesGranted(r, init, daemon, os, p);
      var q :| q in init && q.service in before.ports && before.ports[q.service] == Some(p) && before.registry[p].owner == q.owner;
      var i :| 0 <= i < |init| && init[i] == q;
      assert requests[i].service != requests[|requests| - 1].service;
      assert q in requests;
    } else {
      assert last in requests;
    }
  }

  lemma {:induction false} AllocatedOneAdds(a: Allocation, q: Request, daemon: nat, free: set<Port>, p: Port)
    requires AllocatedOne(a, q, daemon, free).Success?
    ensures var b := AllocatedOne(a, q, daemon, free).value;
            && (p in a.registry ==> p in b.registry && b.registry[p] == a.registry[p])
            && (p in b.registry && p !in a.registry ==> b.registry[p].owner == q.owner && b.ports[q.service] == Some(p))
            && (forall s :: s in a.ports && s != q.service ==> s in b.ports && b.ports[s] == a.ports[s])
            && q.service in b.ports
  {
  }

  /** A fixed port is granted only when it can be bound, unless its owner held it before. */
  lemma {:induction false} FixedWereFree(r: Registry, requests: seq<Request>, daemon: nat, os: Os, q: Request, port: Port)
    requires Allocated(r, requests, daemon, os).Success? && ProperRequests(requests)
    requires q in requests && q.config == Some(Fixed(port))
    ensures port in os.free || (port in r && r[port].owner == q.owner)
  {
    hide AllocatedOne;
    var init, last := requests[..|requests| - 1], requests[|requests| - 1];
    assert forall i :: 0 <= i < |init| ==> init[i] == requests[i];
    if q in init {
      FixedWereFree(r, init, daemon, os, q, port);
    } else {
      var before := Allocated(r, init, daemon, os).value;
      FixedWasFree(before, last, daemon, os.free, port);
      AllocatedKeeps(r, init, daemon, os);
      forall earlier | earlier in init
        ensures earlier.owner != last.owner
      {
        var i :| 0 <= i < |init| && init[i] == earlier;
        assert requests[i].owner != requests[|requests| - 1].owner;
      }
    }
  }

  lemma {:induction false} FixedWasFree(a: Allocation, q: Request, daemon: nat, free: set<Port>, port: Port)
    requires AllocatedOne(a, q, daemon, free).Success? && q.config == Some(Fixed(port))
    ensures port in free || (port in a.registry && a.registry[port].owner == q.owner)
  {
  }

  /** What stands against a request: a foreign entry, a port in use, or that every port on offer is reserved. */
  ghost predicate Blocked(a: Allocation, q: Request, free: set<Port>, e: PortError) {
    match q.config
    case Some(Text(_)) => false
    case Some(Fixed(p)) =>
      if p in a.registry then a.registry[p].owner != q.owner && e == ReservedByOther(p)
      else p !in free && e == Unavailable(p)
    case None => e == NoSocket && forall p :: p in a.offers ==> p in a.registry
  }

  /** An allocation fails exactly when one of its requests is blocked after those before it were granted. */
  lemma {:induction false} FirstBlocked(r: Registry, requests: seq<Request>, daemon: nat, os: Os, e: PortError)
    ensures Allocated(r, requests, daemon, os) == Failure(e)
       <==> exists k :: 0 <= k < |requests| && Allocated(r, requests[..k], daemon, os).Success?
                        && Blocked(Allocated(r, requests[..k], daemon, os).value, requests[k], os.free, e)
  {
    hide AllocatedOne;
    hide Blocked;
    if requests != [] {
      var init, last := requests[..|requests| - 1], requests[|requests| - 1];
      FirstBlocked(r, init, daemon, os, e);
      forall k | 0 <= k < |init|
        ensures init[..k] == requests[..k] && init[k] == requests[k]
      {
      }
      match Allocated(r, init, daemon, os)
      case Success(a) =>
        OneFails(a, last, daemon, os.free, e);
        forall k | 0 <= k < |init|
          ensures Allocated(r, requests[..k], daemon, os).Success?
                  ==> !Blocked(Allocated(r, requests[..k], daemon, os).value, requests[k], os.free, e)
        {
        }
      case Failure(other) =>
        if other == e {
          var k :| 0 <= k < |init| && Allocated(r, init[..k], daemon, os).Success?
                   && Blocked(Allocated(r, init[..k], daemon, os).value, init[k], os.free, e);
          assert requests[..k] == init[..k];
        }
    }
  }

  lemma {:induction false} OneFails(a: Allocation, q: Request, daemon: nat, free: set<Port>, e: PortError)
    ensures AllocatedOne(a, q, daemon, free) == Failure(e) <==> Blocked(a, q, free, e)
  {
    if q.config.None? {
      SkippedAll(a.registry, a.offers);
    }
  }

  /** All offers are passed over exactly when all are reserved. */
  lemma {:induction false} SkippedAll(r: Registry, offers: seq<Port>)
    ensures Skipped(r, offers) == |offers| <==> forall p :: p in offers ==> p in r
  {
    if offers != [] {
      SkippedAll(r, offers[1..]);
      HeadTail(offers);
    }
  }

  /** A successful allocation gives distinct ports, each held by its own service's owner. */
  lemma {:induction false} AllocationIsDistinct(stored: Registry, t: Transaction, s1: string, s2: string)
    requires t.action.Allocate? && ProperRequests(t.action.requests)
    requires Answered(stored, t).Success?
    requires s1 in Answered(stored, t).value.ports && s2 in Answered(stored, t).value.ports
    ensures var ports := Answered(stored, t).value.ports;
            && (s1 != s2 && ports[s1].Some? ==> ports[s1] != ports[s2])
            && (ports[s1].Some? ==>
                  (exists q :: q in t.action.requests && q.service == s1
                    && ports[s1].value in Committed(stored, t) && Committed(stored, t)[ports[s1].value].owner == q.owner))
  {
    hide Allocated;
    var requests := t.action.requests;
    var r := Cleaned(stored, t.os.alive);
    AllGranted(r, requests, t.daemon, t.os);
    var a := Allocated(r, requests, t.daemon, t.os).value;
    var i :| 0 <= i < |requests| && requests[i].service == s1;
    var j :| 0 <= j < |requests| && requests[j].service == s2;
    assert requests[i] in requests && requests[j] in requests;
    assert Granted(a, requests[i]) && Granted(a, requests[j]);
  }
}
