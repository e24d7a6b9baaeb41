/** Runs that leave an endpoint at the router with nobody to take it down. */
module EndpointRuns {
  import opened Common
  import opened Net
  import opened Status
  import opened Provider
  import opened Lifecycle
  import opened EndpointSafety
  import B = Boundaries
  import Ipam

  const ALL := Assume(true, true, true)

  ghost predicate KeptAll(v: Node, acts: seq<Act>)
    requires LegalActs(B.TINY, v, acts)
    decreases |acts|
  {
    acts != [] ==> Kept(ALL, v.sys, acts[0].st) && KeptAll(Stepped(B.TINY, v, acts[0].st, acts[0].stuck), acts[1..])
  }

  function Last(v: Node, acts: seq<Act>): Node
    requires LegalActs(B.TINY, v, acts)
    decreases |acts|
  {
    if acts == [] then v else Last(Stepped(B.TINY, v, acts[0].st, acts[0].stuck), acts[1..])
  }

  /** Reached with every assumption on the caller kept. */
  ghost predicate Reached(v: Node) {
    exists acts :: LegalActs(B.TINY, Start(B.FRESH), acts) && KeptAll(Start(B.FRESH), acts) && Last(Start(B.FRESH), acts) == v
  }

  lemma {:induction false} ReachedOn(v: Node, acts: seq<Act>, a: Act)
    requires LegalActs(B.TINY, v, acts) && KeptAll(v, acts)
    requires Enabled(B.TINY, Last(v, acts).sys, a.st) && Kept(ALL, Last(v, acts).sys, a.st)
    ensures LegalActs(B.TINY, v, acts + [a]) && KeptAll(v, acts + [a])
    ensures Last(v, acts + [a]) == Stepped(B.TINY, Last(v, acts), a.st, a.stuck)
    decreases |acts|
  {
    if acts == [] {
      var u := Stepped(B.TINY, v, a.st, a.stuck);
      assert acts + [a] == [a] && [a][1..] == [];
      assert LegalActs(B.TINY, u, []) && KeptAll(u, []) && Last(u, []) == u;
    } else {
      assert (acts + [a])[1..] == acts[1..] + [a];
      ReachedOn(Stepped(B.TINY, v, acts[0].st, acts[0].stuck), acts[1..], a);
    }
  }

  lemma Then(v: Node, st: Step, stuck: bool)
    requires Reached(v) && Enabled(B.TINY, v.sys, st) && Kept(ALL, v.sys, st)
    ensures Reached(Stepped(B.TINY, v, st, stuck))
  {
    var acts :| LegalActs(B.TINY, Start(B.FRESH), acts) && KeptAll(Start(B.FRESH), acts) && Last(Start(B.FRESH), acts) == v;
    ReachedOn(Start(B.FRESH), acts, Act(st, stuck));
  }

  /** Nothing is tracked or in progress, and yet the router has an endpoint. */
  predicate Forsaken(v: Node) {
    v.eps != {} && v.sys.pods == map[] && v.sys.creator.None? && v.sys.deleters == map[] && v.sys.restarters == map[]
  }

  lemma ForsakenUnowned(v: Node)
    requires Forsaken(v)
    ensures !Owned(v)
  {
    var k :| k in v.eps;
    assert !Claimed(v, k);
  }

  /* ---- up to the launch ---- */

  /** A create that holds its address, before its launch. */
  lemma Addressed(k: Key) returns (v: Node)
    ensures Init(B.TINY, B.FRESH) && Reached(v) && v.eps == {} && v.was == map[] && v.leaving == map[]
    ensures var ip := Ipam.OffsetIP(B.TINY, 2);
            && v.sys == B.FRESH.(creator := v.sys.creator, ipam := v.sys.ipam) && v.sys.creator.Some? && ip != []
            && v.sys.creator.value == Creator(k, B.PLAIN, None, Allocated(false, ip))
            && v.sys.ipam == Ipam.State(map[k := ip], map[ip := k], 3)
  {
    B.FreshInit();
    B.TinyAllocates(B.FRESH.ipam, k);
    v := Entered(k);
    Then(v, CreateAllocate, false);
    var s := v.sys;
    v := Stepped(B.TINY, v, CreateAllocate, false);
    assert v.sys == Assigned(B.TINY, s);
  }

  lemma Entered(k: Key) returns (v: Node)
    ensures Reached(v) && v == Start(B.Entered(B.FRESH, k, B.PLAIN, HadRead(false)))
  {
    v := Start(B.FRESH);
    var none: seq<Act> := [];
    assert LegalActs(B.TINY, v, none) && KeptAll(v, none) && Last(v, none) == v;
    var st := CreateBegin(k, B.PLAIN, Supported);
    Then(v, st, false);
    v := Stepped(B.TINY, v, st, false);
    assert v.sys == Begun(B.FRESH, k, B.PLAIN, Supported);
    Then(v, CreateReadHad, false);
    v := Stepped(B.TINY, v, CreateReadHad, false);
  }

  /* ---- an attach whose load fails ---- */

  const NETTED := B.SMOOTH.(podNet := true, vmIP := [10])

  /** CreatePod fails and gives everything back but the endpoint. */
  lemma FailedAttachStrands()
    ensures Init(B.TINY, B.FRESH) && exists v :: Reached(v) && Forsaken(v) && !Owned(v)
  {
    var v := FailedAttach("default/web");
    ForsakenUnowned(v);
  }

  lemma FailedAttach(k: Key) returns (v: Node)
    ensures Init(B.TINY, B.FRESH) && Reached(v) && Forsaken(v)
  {
    v := Addressed(k);
    var st := CreateLaunch(NETTED.(attachOk := false));
    Then(v, st, true);
    v := Stepped(B.TINY, v, st, true);
    assert k in v.eps;
    Then(v, CreateUnwind, false);
    v := Stepped(B.TINY, v, CreateUnwind, false);
  }

  /* ---- a delete that overlaps a restart ---- */

  predicate OneThread(v: Node, k: Key, pc: RestartPc) {
    v.sys.restarters.Keys == {0} && v.sys.restarters[0].key == k && v.sys.restarters[0].pc == pc && v.sys.nextThread == 1
  }

  /** Launched and attached. */
  lemma LaunchedAttached(k: Key) returns (v: Node)
    ensures Init(B.TINY, B.FRESH) && Reached(v) && v.eps == {k} && v.leaving == map[] && v.sys.creator.Some?
    ensures v.sys == B.FRESH.(creator := v.sys.creator, ipam := v.sys.ipam) && Ipam.OffsetIP(B.TINY, 2) != []
    ensures v.sys.creator.value == Creator(k, B.PLAIN, None, Launched(false, Ipam.OffsetIP(B.TINY, 2), "vm", [10], true))
  {
    v := Addressed(k);
    var s := v.sys;
    Then(v, CreateLaunch(NETTED), false);
    v := Stepped(B.TINY, v, CreateLaunch(NETTED), false);
    assert v.sys == LaunchStep(s, NETTED);
  }

  /** Attached and stored, with a restart waiting because the VM is gone already. */
  lemma StoredAttached(k: Key) returns (v: Node)
    ensures Init(B.TINY, B.FRESH) && Reached(v) && v.eps == {k} && v.leaving == map[] && OneThread(v, k, Backoff)
    ensures v.sys.pods.Keys == {k} && v.sys.pods[k].attached && v.sys.pods[k].terminal.None? && v.sys.pods[k].status.podIP != []
    ensures v.sys.creator.None? && v.sys.deleters == map[]
  {
    v := LaunchedAttached(k);
    Then(v, CreateCommit([NotFound]), false);
    var s := v.sys;
    v := Stepped(B.TINY, v, CreateCommit([NotFound]), false);
    assert v.sys == Committed(s, [NotFound]);
    LostAtOnce(Ipam.OffsetIP(B.TINY, 2));
  }

  lemma LostAtOnce(ip: IP)
    requires ip != []
    ensures var (q, spawn) := CommitPod(NewPod(0, B.PLAIN, ip, "vm", [10], true), [NotFound]);
            q.attached && q.terminal.None? && q.status.podIP != [] && spawn.Some?
  {
    var p := NewPod(0, B.PLAIN, ip, "vm", [10], true);
    assert FindWorkload(p.workloads, "app") == Some("vm");
    ScanKeepsIP(p, [NotFound], 1);
    assert ScanN(p, [NotFound], 1) == ScanOne(p, "app", NotFound, ScanN(p, [NotFound], 0));
  }

  lemma BegunAttached(k: Key, t: Node) returns (v: Node)
    requires Reached(t) && t.eps == {k} && t.leaving == map[] && OneThread(t, k, Backoff)
    requires t.sys.pods.Keys == {k} && t.sys.pods[k].attached && t.sys.pods[k].terminal.None? && t.sys.pods[k].status.podIP != []
    requires t.sys.creator.None? && t.sys.deleters == map[]
    ensures Reached(v) && v.eps == {k} && v.leaving == map[] && OneThread(v, k, Working(t.sys.pods[k].status.podIP))
    ensures v.sys.pods.Keys == {k} && v.sys.pods[k].attached && v.sys.creator.None? && v.sys.deleters == map[]
  {
    var st := RestartBegin(0);
    Then(t, st, false);
    v := Stepped(B.TINY, t, st, false);
    assert v.sys == NextRestart(t.sys, st);
  }

  /** The delete runs to its end, detaching as it goes. */
  lemma DeletedMeanwhile(k: Key, t: Node, ip: IP) returns (v: Node)
    requires Reached(t) && t.eps == {k} && t.leaving == map[] && OneThread(t, k, Working(ip))
    requires t.sys.pods.Keys == {k} && t.sys.pods[k].attached && t.sys.creator.None? && t.sys.deleters == map[]
    ensures Reached(v) && v.sys.pods == map[] && v.sys.creator.None? && v.sys.deleters == map[] && v.eps == {}
    ensures v.sys.restarters.Keys == {0} && v.sys.restarters[0].key == k && v.sys.restarters[0].pc == Working(ip)
  {
    Then(t, DeleteBegin(k), false);
    v := Stepped(B.TINY, t, DeleteBegin(k), false);
    assert v.sys == NextDelete(t.sys, DeleteBegin(k)) && Flag(v.leaving, 1);
    var s := v.sys;
    Then(v, DeleteRelease(1), false);
    v := Stepped(B.TINY, v, DeleteRelease(1), false);
    assert v.sys == NextDelete(s, DeleteRelease(1));
    s := v.sys;
    Then(v, DeleteEnd(1), false);
    v := Stepped(B.TINY, v, DeleteEnd(1), false);
    assert v.sys == NextDelete(s, DeleteEnd(1));
  }

  /** The restart then attaches its new VM, finds the Pod gone, and destroys the VM only. */
  lemma ReattachedAfter(k: Key, t: Node, ip: IP) returns (v: Node)
    requires Reached(t) && t.sys.pods == map[] && t.sys.creator.None? && t.sys.deleters == map[] && ip != []
    requires t.sys.restarters.Keys == {0} && t.sys.restarters[0].key == k && t.sys.restarters[0].pc == Working(ip)
    ensures Reached(v) && Forsaken(v)
  {
    var w := RestartWork(0, WorkEnv(Some("vm"), true, true, [10], true));
    Then(t, w, false);
    v := Stepped(B.TINY, t, w, false);
    assert v.sys == NextRestart(t.sys, w) && k in v.eps;
    v := Reaped(k, v);
  }

  lemma Reaped(k: Key, t: Node) returns (v: Node)
    requires Reached(t) && t.sys.pods == map[] && t.sys.creator.None? && t.sys.deleters == map[] && k in t.eps
    requires t.sys.restarters.Keys == {0} && t.sys.restarters[0].key == k
    requires t.sys.restarters[0].pc == Finishing(Some("vm"), true, [10])
    ensures Reached(v) && Forsaken(v)
  {
    Then(t, RestartEnd(0), false);
    v := Stepped(B.TINY, t, RestartEnd(0), false);
    assert v.sys == NextRestart(t.sys, RestartEnd(0));
    var s := v.sys;
    Then(v, RestartReap(0), false);
    v := Stepped(B.TINY, v, RestartReap(0), false);
    assert v.sys == NextRestart(s, RestartReap(0)) && v.sys.restarters == map[];
  }

  lemma Overlap(k: Key) returns (v: Node)
    ensures Init(B.TINY, B.FRESH) && Reached(v) && Forsaken(v)
  {
    v := StoredAttached(k);
    var ip := v.sys.pods[k].status.podIP;
    v := BegunAttached(k, v);
    v := DeletedMeanwhile(k, v, ip);
    v := ReattachedAfter(k, v, ip);
  }

  /** A Pod deleted while its restart is at its runtime calls leaves the restart's endpoint behind. */
  lemma OverlapStrands()
    ensures Init(B.TINY, B.FRESH) && exists v :: Reached(v) && Forsaken(v) && !Owned(v)
  {
    var v := Overlap("default/web");
    ForsakenUnowned(v);
  }
}
