/** Where the guarantees of the lifecycle end: runs that break them, and the exact conditions that keep them. */
module Boundaries {
  import opened Common
  import opened Net
  import opened Status
  import opened Provider
  import opened Lifecycle
  import opened RestartSafety
  import opened AddressSafety
  import Ipam

  /* ---- building runs ---- */

  /** A run in which no prober has reported anything. */
  predicate Unprobed(steps: seq<Step>) {
    forall i :: 0 <= i < |steps| ==> !steps[i].StartupPassed? && !steps[i].ReadinessSet?
  }

  /** Such a run leads from `s` to `t`. */
  ghost predicate Reaches(c: Cidr, need: Assume, s: Sys, t: Sys) {
    exists steps :: Legal(c, need, s, steps) && Unprobed(steps) && Run(c, need, s, steps) == t
  }

  lemma ReachStep(c: Cidr, need: Assume, s: Sys, st: Step)
    requires Enabled(c, s, st) && Kept(need, s, st) && !st.StartupPassed? && !st.ReadinessSet?
    ensures Reaches(c, need, s, Next(c, s, st))
  {
    var t := Next(c, s, st);
    assert [st][1..] == [];
    assert Legal(c, need, t, []) && Run(c, need, t, []) == t;
    assert Legal(c, need, s, [st]) && Run(c, need, s, [st]) == t;
  }

  lemma {:induction false} RunOn(c: Cidr, need: Assume, s: Sys, a: seq<Step>, b: seq<Step>)
    requires Legal(c, need, s, a) && Legal(c, need, Run(c, need, s, a), b)
    ensures Legal(c, need, s, a + b) && Run(c, need, s, a + b) == Run(c, need, Run(c, need, s, a), b)
    decreases |a|
  {
    if a == [] {
      assert a + b == b;
    } else {
      assert (a + b)[1..] == a[1..] + b;
      RunOn(c, need, Next(c, s, a[0]), a[1..], b);
    }
  }

  lemma ReachOn(c: Cidr, need: Assume, s: Sys, t: Sys, u: Sys)
    requires Reaches(c, need, s, t) && Reaches(c, need, t, u)
    ensures Reaches(c, need, s, u)
  {
    var a :| Legal(c, need, s, a) && Unprobed(a) && Run(c, need, s, a) == t;
    var b :| Legal(c, need, t, b) && Unprobed(b) && Run(c, need, t, b) == u;
    RunOn(c, need, s, a, b);
    assert Unprobed(a + b);
  }

  /* ---- a whole CreatePod, and a whole DeletePod ---- */

  const SMOOTH := LaunchEnv(Absent, true, PullOk, Some("vm"), true, false, [], true)

  /** The VM is already there, and is adopted. */
  const ADOPT := SMOOTH.(found := Present("vm", Running))

  const PLAIN := PodSpec(["app"], Declared(NoProbe, NoProbe, NoProbe), Set(Always), [])

  function Made(inc: nat, spec: PodSpec, ip: IP): Pod
    requires |spec.containers| == 1
  {
    NewPod(inc, spec, ip, "vm", [], false)
  }

  lemma ReachThen(c: Cidr, need: Assume, s: Sys, t: Sys, st: Step)
    requires Reaches(c, need, s, t) && Enabled(c, t, st) && Kept(need, t, st) && !st.StartupPassed? && !st.ReadinessSet?
    ensures Reaches(c, need, s, Next(c, t, st))
  {
    ReachStep(c, need, t, st);
    ReachOn(c, need, s, t, Next(c, t, st));
  }

  predicate CursorOk(c: Cidr, a: Ipam.State) {
    Ipam.FIRST <= a.cursor && (a.cursor == Ipam.FIRST || a.cursor <= Ipam.Last(c) + 1)
  }

  function Entered(s: Sys, k: Key, spec: PodSpec, pc: CreatePc): Sys {
    s.(creator := Some(Creator(k, spec, Lookup(s.ipam.byKey, k), pc)))
  }

  lemma EnterRun(c: Cidr, need: Assume, s: Sys, k: Key, spec: PodSpec)
    requires s.creator.None? && k !in s.pods && Kept(need, s, CreateBegin(k, spec, Supported)) && |spec.containers| == 1
    ensures Reaches(c, need, s, Entered(s, k, spec, HadRead(k in s.ipam.byKey)))
  {
    ReachStep(c, need, s, CreateBegin(k, spec, Supported));
    var t := Entered(s, k, spec, Translated);
    assert Begun(s, k, spec, Supported) == t;
    ReachThen(c, need, s, t, CreateReadHad);
    assert ReadHad(t) == Entered(s, k, spec, HadRead(k in s.ipam.byKey));
  }

  /** The creator just before its commit. */
  function Ready(c: Cidr, s: Sys, k: Key, spec: PodSpec): Sys
    requires CursorOk(c, s.ipam) && Ipam.AllocateSpec(c, s.ipam, k).0.Got?
  {
    var (r, ipam) := Ipam.AllocateSpec(c, s.ipam, k);
    Entered(s, k, spec, Launched(k in s.ipam.byKey, r.ip, "vm", [], false)).(ipam := ipam)
  }

  /** With its address, before its launch. */
  lemma AllocateRun(c: Cidr, need: Assume, s: Sys, k: Key, spec: PodSpec)
    requires s.creator.None? && k !in s.pods && Kept(need, s, CreateBegin(k, spec, Supported)) && |spec.containers| == 1
    requires CursorOk(c, s.ipam) && Ipam.AllocateSpec(c, s.ipam, k).0.Got?
    ensures var (r, ipam) := Ipam.AllocateSpec(c, s.ipam, k);
            Reaches(c, need, s, Entered(s, k, spec, Allocated(k in s.ipam.byKey, r.ip)).(ipam := ipam))
  {
    EnterRun(c, need, s, k, spec);
    var t := Entered(s, k, spec, HadRead(k in s.ipam.byKey));
    ReachThen(c, need, s, t, CreateAllocate);
    assert Next(c, t, CreateAllocate) == Assigned(c, t);
  }

  lemma SmoothLaunch(podIP: IP, env: LaunchEnv)
    requires env == SMOOTH || env == ADOPT
    ensures LaunchVM(podIP, env).outcome == Up("vm", [], false)
  {
  }

  lemma ReadyRun(c: Cidr, need: Assume, s: Sys, k: Key, spec: PodSpec, env: LaunchEnv)
    requires s.creator.None? && k !in s.pods && Kept(need, s, CreateBegin(k, spec, Supported)) && |spec.containers| == 1
    requires CursorOk(c, s.ipam) && Ipam.AllocateSpec(c, s.ipam, k).0.Got? && (env == SMOOTH || env == ADOPT)
    ensures Reaches(c, need, s, Ready(c, s, k, spec))
  {
    AllocateRun(c, need, s, k, spec);
    var (r, ipam) := Ipam.AllocateSpec(c, s.ipam, k);
    var t := Entered(s, k, spec, Allocated(k in s.ipam.byKey, r.ip)).(ipam := ipam);
    ReachThen(c, need, s, t, CreateLaunch(env));
    SmoothLaunch(r.ip, env);
  }

  function Stored(c: Cidr, s: Sys, k: Key, spec: PodSpec, obs: seq<Obs>): Sys
    requires CursorOk(c, s.ipam) && Ipam.AllocateSpec(c, s.ipam, k).0.Got? && |obs| == 1 && |spec.containers| == 1
  {
    var (r, ipam) := Ipam.AllocateSpec(c, s.ipam, k);
    StorePod(s.(ipam := ipam, nextInc := s.nextInc + 1), k, CommitPod(Made(s.nextInc, spec, r.ip), obs))
  }

  lemma CreateRun(c: Cidr, need: Assume, s: Sys, k: Key, spec: PodSpec, env: LaunchEnv, obs: seq<Obs>)
    requires s.creator.None? && k !in s.pods && Kept(need, s, CreateBegin(k, spec, Supported)) && |obs| == 1
    requires CursorOk(c, s.ipam) && Ipam.AllocateSpec(c, s.ipam, k).0.Got? && (env == SMOOTH || env == ADOPT)
    requires |spec.containers| == 1
    ensures Reaches(c, need, s, Stored(c, s, k, spec, obs))
  {
    ReadyRun(c, need, s, k, spec, env);
    var t := Ready(c, s, k, spec);
    ReachThen(c, need, s, t, CreateCommit(obs));
    assert t.(creator := None, nextInc := s.nextInc + 1) == s.(ipam := t.ipam, nextInc := s.nextInc + 1);
    assert Committed(t, obs) == Stored(c, s, k, spec, obs);
  }

  function Deleted(s: Sys, k: Key): Sys {
    s.(pods := s.pods - {k}, ipam := Ipam.ReleaseSpec(s.ipam, k), recovered := s.recovered - {k},
       nextThread := s.nextThread + 1)
  }

  lemma DeleteRun(c: Cidr, need: Assume, s: Sys, k: Key)
    requires k in s.pods && s.creator.None? && s.nextThread !in s.deleters
    ensures Reaches(c, need, s, Deleted(s, k))
  {
    var x := s.nextThread;
    var t := NextDelete(s, DeleteBegin(k));
    ReachStep(c, need, s, DeleteBegin(k));
    ReachThen(c, need, s, t, DeleteRelease(x));
    var u := NextDelete(t, DeleteRelease(x));
    ReachThen(c, need, s, u, DeleteEnd(x));
    assert u.deleters - {x} == s.deleters;
    assert NextDelete(u, DeleteEnd(x)) == Deleted(s, k);
  }

  /** The only usable address of this block is its third. */
  const TINY := Cidr(4, 1, 2)

  lemma TinyAllocates(a: Ipam.State, k: Key)
    requires a.byIP == map[] && k !in a.byKey && 2 <= a.cursor <= 3
    ensures TINY.Valid()
    ensures var (r, b) := Ipam.AllocateSpec(TINY, a, k);
            var ip := Ipam.OffsetIP(TINY, 2);
            r == Ipam.Got(ip) && b == Ipam.State(a.byKey[k := ip], map[ip := k], 3)
  {
    assert Ipam.Free(TINY, a, Ipam.Visit(TINY, a.cursor, 0));
  }

  const FRESH := Sys(map[], Ipam.EMPTY, None, map[], map[], 0, 0, map[], {})

  lemma FreshInit()
    ensures Init(TINY, FRESH)
  {
    assert FRESH.recovered == FRESH.ipam.byKey.Keys;
    TinyAllocates(Ipam.EMPTY, "");
  }

  /* ---- re-creating a key while its restart is in flight ---- */

  /**
   * Storing a new Pod keeps the flag exact if and only if no restart of its key is in flight at that moment.
   */
  lemma CommitKeepsIff(s: Sys, obs: seq<Obs>)
    requires Flags(s.(creator := None)) && s.creator.Some? && s.creator.value.pc.Launched?
    requires s.creator.value.key !in s.pods
    requires s.creator.value.spec.containers != [] && |s.creator.value.spec.containers| <= |obs|
    ensures Flags(Committed(s, obs)) <==> !Busy(s, s.creator.value.key)
  {
    var k := s.creator.value.key;
    var t := Committed(s, obs);
    if Busy(s, k) {
      var x :| InFlight(s, x, k);
      assert InFlight(s.(creator := None), x, k);
      CommitStale(s, obs, x);
    } else {
      assert forall x :: InFlight(s.(creator := None), x, k) ==> InFlight(s, x, k);
      CreatorMoves(s.(creator := None), s);
      CommitKeeps(s, obs);
    }
  }

  lemma CommitStale(s: Sys, obs: seq<Obs>, x: nat)
    requires Numbered(s.(creator := None)) && s.creator.Some? && s.creator.value.pc.Launched?
    requires s.creator.value.spec.containers != [] && |s.creator.value.spec.containers| <= |obs|
    requires InFlight(s, x, s.creator.value.key)
    ensures !OneRestart(Committed(s, obs))
  {
    var t := Committed(s, obs);
    assert t.pods[s.creator.value.key].inc == s.nextInc;
    assert x < s.nextThread && t.restarters[x] == s.restarters[x];
    assert InFlight(t, x, s.creator.value.key);
  }

  ghost predicate DoubleRestart(t: Sys) {
    exists k, x, y :: k in t.pods && x != y && InFlight(t, x, k) && InFlight(t, y, k)
  }

  /** A Pod whose workload is gone at its first reconcile starts a restart. */
  lemma StoredRestarts(c: Cidr, s: Sys, k: Key)
    requires CursorOk(c, s.ipam) && Ipam.AllocateSpec(c, s.ipam, k).0.Got?
    ensures var t := Stored(c, s, k, PLAIN, [NotFound]);
            && k in t.pods && t.creator == s.creator && t.deleters == s.deleters && t.nextThread == s.nextThread + 1
            && t.restarters == s.restarters[s.nextThread := Restarter(k, s.nextInc, "vm", Backoff)]
            && t.ipam == Ipam.AllocateSpec(c, s.ipam, k).1
  {
    var made := Made(s.nextInc, PLAIN, Ipam.AllocateSpec(c, s.ipam, k).0.ip);
    assert FindWorkload(made.workloads, "app") == Some("vm");
    assert ScanN(made, [NotFound], 1) == ScanOne(made, "app", NotFound, ScanN(made, [NotFound], 0));
  }

  /** A delete and a re-create during the backoff leave one tracked Pod with two restarts in flight. */
  lemma RecreateDoublesRestart()
    ensures Init(TINY, FRESH) && exists t :: Reaches(TINY, Assume(true, false, true), FRESH, t) && DoubleRestart(t)
  {
    FreshInit();
    var need, k := Assume(true, false, true), "default/web";
    var s := RecreateStart(need, k);
    RecreateTail(need, k, s);
  }

  lemma RecreateStart(need: Assume, k: Key) returns (s: Sys)
    requires need == Assume(true, false, true)
    ensures Reaches(TINY, need, FRESH, s) && k !in s.pods && s.creator.None? && s.deleters == map[]
    ensures s.ipam.byIP == map[] && s.ipam.byKey == map[] && s.ipam.cursor == 3
    ensures s.nextThread == 2 && 0 in s.restarters && InFlight(s, 0, k)
  {
    TinyAllocates(FRESH.ipam, k);
    CreateRun(TINY, need, FRESH, k, PLAIN, SMOOTH, [NotFound]);
    StoredRestarts(TINY, FRESH, k);
    var s1 := Stored(TINY, FRESH, k, PLAIN, [NotFound]);
    DeleteRun(TINY, need, s1, k);
    s := Deleted(s1, k);
    ReachOn(TINY, need, FRESH, s1, s);
  }

  lemma RecreateTail(need: Assume, k: Key, s: Sys)
    requires need == Assume(true, false, true) && Reaches(TINY, need, FRESH, s)
    requires k !in s.pods && s.creator.None? && s.deleters == map[]
    requires s.ipam.byIP == map[] && s.ipam.byKey == map[] && s.ipam.cursor == 3
    requires s.nextThread == 2 && 0 in s.restarters && InFlight(s, 0, k)
    ensures exists t :: Reaches(TINY, need, FRESH, t) && DoubleRestart(t)
  {
    TinyAllocates(s.ipam, k);
    CreateRun(TINY, need, s, k, PLAIN, SMOOTH, [NotFound]);
    StoredRestarts(TINY, s, k);
    var t := Stored(TINY, s, k, PLAIN, [NotFound]);
    ReachOn(TINY, need, FRESH, s, t);
    assert InFlight(t, 0, k) && InFlight(t, 2, k);
  }

  /* ---- creating a key while its delete is under way ---- */

  /** Releasing in DeletePod keeps live Pods bound exactly when no live Pod is tracked under the released key. */
  lemma ReleaseKeepsIff(c: Cidr, s: Sys, x: nat)
    requires Ipam.Inv(c, s.ipam) && PodsBound(s) && x in s.deleters
    ensures PodsBound(NextDelete(s, DeleteRelease(x))) <==>
            !(s.deleters[x].key in s.pods && s.pods[s.deleters[x].key].terminal.None?)
  {
    var t := NextDelete(s, DeleteRelease(x));
    var k := s.deleters[x].key;
    assert Held(t, k) == None;
    assert forall j :: j != k ==> Held(t, j) == Held(s, j);
  }

  ghost predicate SharedIP(t: Sys) {
    exists j, k :: j in t.pods && k in t.pods && j != k && t.pods[j].terminal.None? && t.pods[k].terminal.None?
                   && t.pods[j].status.podIP == t.pods[k].status.podIP
  }

  const ALIVE := [Seen(Running, 0, [])]

  lemma StoredRuns(c: Cidr, s: Sys, k: Key)
    requires CursorOk(c, s.ipam) && Ipam.AllocateSpec(c, s.ipam, k).0.Got? && Ipam.AllocateSpec(c, s.ipam, k).0.ip != []
    ensures var t := Stored(c, s, k, PLAIN, ALIVE);
            && k in t.pods && t.pods == s.pods[k := t.pods[k]] && t.pods[k].terminal.None?
            && t.pods[k].status.podIP == Ipam.AllocateSpec(c, s.ipam, k).0.ip
            && t.pods[k].workloads == [Workload("app", "vm")] && t.pods[k].inc == s.nextInc
            && t == s.(pods := t.pods, ipam := Ipam.AllocateSpec(c, s.ipam, k).1, nextInc := s.nextInc + 1)
  {
    var made := Made(s.nextInc, PLAIN, Ipam.AllocateSpec(c, s.ipam, k).0.ip);
    assert FindWorkload(made.workloads, "app") == Some("vm");
    ScanKeepsIP(made, ALIVE, 1);
    assert ScanN(made, ALIVE, 1) == ScanOne(made, "app", ALIVE[0], ScanN(made, ALIVE, 0));
  }

  /** A create overlapping the delete of its key lets two live Pods end up with one address. */
  lemma OverlapSharesIP()
    ensures Init(TINY, FRESH) && exists t :: Reaches(TINY, Assume(false, true, true), FRESH, t) && SharedIP(t)
  {
    FreshInit();
    var need, j := Assume(false, true, true), "default/a";
    var s := OverlapStart(need, j);
    OverlapMiddle(need, j, s);
  }

  lemma OverlapStart(need: Assume, j: Key) returns (s: Sys)
    requires need == Assume(false, true, true)
    ensures Reaches(TINY, need, FRESH, s) && s.pods == map[] && s.creator.None? && s.restarters == map[]
    ensures s.deleters == map[0 := Deleter(j, false)]
    ensures var ip := Ipam.OffsetIP(TINY, 2); s.ipam == Ipam.State(map[j := ip], map[ip := j], 3)
  {
    TinyAllocates(FRESH.ipam, j);
    CreateRun(TINY, need, FRESH, j, PLAIN, SMOOTH, ALIVE);
    StoredRuns(TINY, FRESH, j);
    var s1 := Stored(TINY, FRESH, j, PLAIN, ALIVE);
    ReachThen(TINY, need, FRESH, s1, DeleteBegin(j));
    s := NextDelete(s1, DeleteBegin(j));
  }

  /** The delete has forgotten the Pod but not released its address; the new create is handed the same one. */
  lemma OverlapMiddle(need: Assume, j: Key, s: Sys)
    requires need == Assume(false, true, true) && j == "default/a" && Reaches(TINY, need, FRESH, s)
    requires s.pods == map[] && s.creator.None? && s.restarters == map[] && s.deleters == map[0 := Deleter(j, false)]
    requires var ip := Ipam.OffsetIP(TINY, 2); s.ipam == Ipam.State(map[j := ip], map[ip := j], 3)
    ensures exists t :: Reaches(TINY, need, FRESH, t) && SharedIP(t)
  {
    TinyAllocates(Ipam.EMPTY, j);
    CreateRun(TINY, need, s, j, PLAIN, SMOOTH, ALIVE);
    StoredRuns(TINY, s, j);
    var t := Stored(TINY, s, j, PLAIN, ALIVE);
    ReachOn(TINY, need, FRESH, s, t);
    ReachThen(TINY, need, FRESH, t, DeleteRelease(0));
    OverlapTail(need, j, NextDelete(t, DeleteRelease(0)));
  }

  /** The late release has freed an address that is in use; the next create takes it. */
  lemma OverlapTail(need: Assume, j: Key, s: Sys)
    requires need == Assume(false, true, true) && j == "default/a" && Reaches(TINY, need, FRESH, s)
    requires s.pods.Keys == {j} && s.pods[j].terminal.None? && s.pods[j].status.podIP == Ipam.OffsetIP(TINY, 2)
    requires s.creator.None? && s.restarters == map[]
    requires s.ipam.byIP == map[] && s.ipam.byKey == map[] && s.ipam.cursor == 3
    ensures exists t :: Reaches(TINY, need, FRESH, t) && SharedIP(t)
  {
    var k := "default/b";
    TinyAllocates(s.ipam, k);
    CreateRun(TINY, need, s, k, PLAIN, SMOOTH, ALIVE);
    StoredRuns(TINY, s, k);
    var t := Stored(TINY, s, k, PLAIN, ALIVE);
    ReachOn(TINY, need, FRESH, s, t);
    assert t.pods[j].status.podIP == t.pods[k].status.podIP && j != k;
  }

  /* ---- a Pod that arrives with a failed container ---- */

  const BROKEN := PLAIN.(arrived := [CStatus("app", "", Terminated(1, "Error"), false, None, 0)])

  ghost predicate FailedUnderAlways(t: Sys) {
    exists k :: k in t.pods && t.pods[k].terminal.None? && t.pods[k].policy == Always && t.pods[k].status.phase == PodFailed
  }

  lemma BrokenReplays(ip: IP)
    ensures var (q, spawn) := Reconcile(Made(0, BROKEN, ip), [Error("busy")]);
            q.terminal.None? && q.policy == Always && q.status.phase == PodFailed && spawn.None?
  {
    var made, obs := Made(0, BROKEN, ip), [Error("busy")];
    assert FindWorkload(made.workloads, "app") == Some("vm");
    var a := ScanN(made, obs, 1);
    assert a == ScanOne(made, "app", obs[0], ScanN(made, obs, 0));
    assert IsFailed(a.statuses[0]);
  }

  /** The status a Pod arrives with is replayed by a first query that fails, so an Always Pod reports Failed. */
  lemma ArrivedFailedReports()
    ensures Init(TINY, FRESH) && exists t :: Reaches(TINY, Assume(true, true, false), FRESH, t) && FailedUnderAlways(t)
  {
    var need, k := Assume(true, true, false), "default/web";
    FreshInit();
    TinyAllocates(FRESH.ipam, k);
    CreateRun(TINY, need, FRESH, k, BROKEN, SMOOTH, [Error("busy")]);
    BrokenReplays(Ipam.AllocateSpec(TINY, FRESH.ipam, k).0.ip);
    var t := Stored(TINY, FRESH, k, BROKEN, [Error("busy")]);
    assert t.pods[k] == CommitPod(Made(0, BROKEN, Ipam.AllocateSpec(TINY, FRESH.ipam, k).0.ip), [Error("busy")]).0;
  }
}
