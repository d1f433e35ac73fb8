/** Owner strings of reserved ports, and when two of them coincide. */
module PortOwners {
  import opened Common

  const BACKEND_SUFFIX := "api-capture-backend"

  function PortOwner(runId: string, service: string): string {
    "run:" + runId + ":" + service
  }

  function CaptureBackendPortOwner(runId: string, service: string): string {
    "run:" + runId + ":" + service + ":" + BACKEND_SUFFIX
  }

  function GlobalPortOwner(key: string, service: string): string {
    "global:" + key + ":" + service
  }

  /** A name that is valid as a path component, as far as owners are concerned: no colon. */
  predicate Plain(name: string) {
    forall i :: 0 <= i < |name| ==> name[i] != ':'
  }

  lemma {:induction false} CharAt(head: string, name: string, k: nat)
    requires |head| <= k < |head + ":" + name|
    ensures (head + ":" + name)[k] == if k == |head| then ':' else name[k - |head| - 1]
  {
  }

  lemma {:induction false} HeadNotShorter(head1: string, name1: string, head2: string, name2: string)
    requires Plain(name1) && head1 + ":" + name1 == head2 + ":" + name2
    ensures |head1| >= |head2|
  {
    var k := |head2|;
    CharAt(head2, name2, k);
    if |head1| < k {
      CharAt(head1, name1, k);
      assert false;
    }
  }

  lemma {:induction false} CutHead(head: string, name: string)
    ensures (head + ":" + name)[..|head|] == head && (head + ":" + name)[|head| + 1..] == name
  {
  }

  /** Splitting at the last colon: a head and a plain tail are determined by their join. */
  lemma {:induction false} LastColon(head1: string, name1: string, head2: string, name2: string)
    requires Plain(name1) && Plain(name2)
    requires head1 + ":" + name1 == head2 + ":" + name2
    ensures head1 == head2 && name1 == name2
  {
    HeadNotShorter(head1, name1, head2, name2);
    HeadNotShorter(head2, name2, head1, name1);
    CutHead(head1, name1);
    CutHead(head2, name2);
  }

  /** Public owners of plain service names coincide only for the same run and service. */
  lemma {:induction false} PortOwnerInjective(run1: string, s1: string, run2: string, s2: string)
    requires Plain(s1) && Plain(s2)
    ensures PortOwner(run1, s1) == PortOwner(run2, s2) <==> run1 == run2 && s1 == s2
  {
    if PortOwner(run1, s1) == PortOwner(run2, s2) {
      LastColon("run:" + run1, s1, "run:" + run2, s2);
      CutAppend("run:", run1);
      CutAppend("run:", run2);
    }
  }

  /** So do backend owners. */
  lemma {:induction false} BackendOwnerInjective(run1: string, s1: string, run2: string, s2: string)
    requires Plain(s1) && Plain(s2)
    ensures CaptureBackendPortOwner(run1, s1) == CaptureBackendPortOwner(run2, s2) <==> run1 == run2 && s1 == s2
  {
    if CaptureBackendPortOwner(run1, s1) == CaptureBackendPortOwner(run2, s2) {
      SuffixPlain();
      LastColon(PortOwner(run1, s1), BACKEND_SUFFIX, PortOwner(run2, s2), BACKEND_SUFFIX);
      PortOwnerInjective(run1, s1, run2, s2);
    }
  }

  lemma {:induction false} SuffixPlain()
    ensures Plain(BACKEND_SUFFIX)
  {
  }

  /**
   * A public owner is a backend owner exactly when the service is named like the backend role and its run is
   * named like the other run and service joined by a colon.
   */
  lemma {:induction false} RolesMeet(run1: string, s1: string, run2: string, s2: string)
    requires Plain(s1) && Plain(s2)
    ensures PortOwner(run1, s1) == CaptureBackendPortOwner(run2, s2)
       <==> s1 == BACKEND_SUFFIX && run1 == run2 + ":" + s2
  {
    SuffixPlain();
    var backendHead := PortOwner(run2, s2);
    assert CaptureBackendPortOwner(run2, s2) == backendHead + ":" + BACKEND_SUFFIX;
    SameHead(run2, s2);
    if PortOwner(run1, s1) == CaptureBackendPortOwner(run2, s2) {
      LastColon("run:" + run1, s1, backendHead, BACKEND_SUFFIX);
      CutAppend("run:", run1);
      CutAppend("run:", run2 + ":" + s2);
    }
  }

  lemma {:induction false} SameHead(runId: string, service: string)
    ensures PortOwner(runId, service) == "run:" + (runId + ":" + service)
  {
    assert "run:" + runId + ":" + service == "run:" + (runId + ":" + service);
  }

  /** Within one run the roles never meet. */
  lemma {:induction false} RolesDisjointInRun(runId: string, s1: string, s2: string)
    requires Plain(s1) && Plain(s2)
    ensures PortOwner(runId, s1) != CaptureBackendPortOwner(runId, s2)
  {
    RolesMeet(runId, s1, runId, s2);
    assert |runId + ":" + s2| > |runId|;
  }

  /** Across runs they do not meet either, when run ids are valid names. */
  lemma {:induction false} RolesDisjoint(run1: string, s1: string, run2: string, s2: string)
    requires Plain(run1) && Plain(s1) && Plain(s2)
    ensures PortOwner(run1, s1) != CaptureBackendPortOwner(run2, s2)
  {
    RolesMeet(run1, s1, run2, s2);
    assert (run2 + ":" + s2)[|run2|] == ':';
  }

  /** Globals never share an owner with a run. */
  lemma {:induction false} GlobalsApart(runId: string, service: string, key: string, global: string)
    ensures GlobalPortOwner(key, global) != PortOwner(runId, service)
    ensures GlobalPortOwner(key, global) != CaptureBackendPortOwner(runId, service)
  {
    assert GlobalPortOwner(key, global)[0] == 'g';
    assert PortOwner(runId, service)[0] == 'r' && CaptureBackendPortOwner(runId, service)[0] == 'r';
  }
}
