/** Runs that end Ready, or unready, against what the probes say. */
module ReadyRuns {
  import opened Common
  import opened Net
  import opened Status
  import opened Provider
  import opened Lifecycle
  import B = Boundaries
  import Ipam

  /* ---- Ready without a probe having passed ---- */

  const PROBED := B.PLAIN.(declared := Declared(NoProbe, Active(1, 3), NoProbe))

  /** A live Pod that declares a readiness probe is stored Ready, in a run where no probe has reported anything. */
  ghost predicate Unproven(p: Pod) {
    p.terminal.None? && p.declared.readiness.Active? && p.status.podReady
  }

  /** A live one-container Pod with an address. */
  predicate Steady(p: Pod) {
    && p.containers == ["app"] && FindWorkload(p.workloads, "app").Some? && p.terminal.None?
    && p.status.podIP != [] && p.policy == Always
  }

  /** A Pod of that kind, wherever it stands. */
  predicate IsProbed(p: Pod) { Steady(p) && p.declared == PROBED.declared }

  lemma AliveRuns(p: Pod)
    requires Steady(p)
    ensures var (q, spawn) := Reconcile(p, B.ALIVE);
            && q == p.(status := q.status) && spawn.None? && Steady(q)
            && q.status.phase == PodRunning && q.status.message == ""
  {
    var a := ScanN(p, B.ALIVE, 1);
    assert a == ScanOne(p, "app", B.ALIVE[0], ScanN(p, B.ALIVE, 0));
    assert a.statuses[0].state.Live? && AggregatePhase(a.statuses) == PodRunning;
  }

  lemma AliveIsReady(p: Pod)
    requires IsProbed(p) && p.probes.None?
    ensures var (q, spawn) := Reconcile(p, B.ALIVE);
            q == p.(status := q.status) && spawn.None? && IsProbed(q) && Unproven(q) && q.status.phase == PodRunning
  {
    AliveRuns(p);
    PodReadyIff(p, B.ALIVE);
  }

  const ALL := Assume(true, true, true)

  lemma MadeProbed(ip: IP)
    requires ip != []
    ensures IsProbed(B.Made(0, PROBED, ip)) && B.Made(0, PROBED, ip).probes.None? && !B.Made(0, PROBED, ip).restarting
  {
  }

  lemma CreateProbed(k: Key, spec: PodSpec, obs: seq<Obs>)
    requires |obs| == |spec.containers| == 1 && spec.arrived == []
    ensures Init(B.TINY, B.FRESH) && B.CursorOk(B.TINY, B.FRESH.ipam) && Ipam.AllocateSpec(B.TINY, B.FRESH.ipam, k).0.Got?
    ensures B.Reaches(B.TINY, ALL, B.FRESH, B.Stored(B.TINY, B.FRESH, k, spec, obs))
    ensures Ipam.AllocateSpec(B.TINY, B.FRESH.ipam, k).0.ip != []
  {
    B.FreshInit();
    B.TinyAllocates(B.FRESH.ipam, k);
    B.CreateRun(B.TINY, ALL, B.FRESH, k, spec, B.SMOOTH, obs);
  }

  /** Stored Ready by the reconcile that precedes the arming of its probers. */
  ghost predicate ReadyAtCommit(t: Sys) {
    exists k :: k in t.pods && Unproven(t.pods[k]) && t.pods[k].probes.Some? && !t.pods[k].probes.value.ready
  }

  /** Ready between the stopping of its probers and the end of the restart. */
  ghost predicate ReadyMidRestart(t: Sys) {
    exists k :: k in t.pods && Unproven(t.pods[k]) && t.pods[k].probes.None? && t.pods[k].restarting
  }

  /** Ready with no prober, and no restart under way that would arm one. */
  ghost predicate ReadyUngated(t: Sys) {
    exists k :: k in t.pods && Unproven(t.pods[k]) && t.pods[k].probes.None? && !t.pods[k].restarting && t.restarters == map[]
  }

  lemma CommitReadyUnprobed()
    ensures Init(B.TINY, B.FRESH) && exists t :: B.Reaches(B.TINY, ALL, B.FRESH, t) && ReadyAtCommit(t)
  {
    var k := "default/web";
    CreateProbed(k, PROBED, B.ALIVE);
    var ip := Ipam.AllocateSpec(B.TINY, B.FRESH.ipam, k).0.ip;
    MadeProbed(ip);
    AliveIsReady(B.Made(0, PROBED, ip));
    var t := B.Stored(B.TINY, B.FRESH, k, PROBED, B.ALIVE);
    assert t.pods[k] == CommitPod(B.Made(0, PROBED, ip), B.ALIVE).0;
  }

  /** A running VM whose first status query failed never gets probers, and is Ready from its next reconcile on. */
  lemma NeverArmedReady()
    ensures Init(B.TINY, B.FRESH) && exists t :: B.Reaches(B.TINY, ALL, B.FRESH, t) && ReadyUngated(t)
  {
    var k, obs := "default/web", [Error("busy")];
    CreateProbed(k, PROBED, obs);
    var ip := Ipam.AllocateSpec(B.TINY, B.FRESH.ipam, k).0.ip;
    var made := B.Made(0, PROBED, ip);
    MadeProbed(ip);
    BusyIsPending(made);
    var s := B.Stored(B.TINY, B.FRESH, k, PROBED, obs);
    assert s.pods[k] == CommitPod(made, obs).0 && s.restarters == map[];
    ObserveAlive(k, s);
  }

  lemma BusyIsPending(p: Pod)
    requires IsProbed(p) && p.probes.None? && p.status.containers == []
    ensures var (q, spawn) := Reconcile(p, [Error("busy")]);
            q == p.(status := q.status) && spawn.None? && IsProbed(q) && q.status.phase == Pending
  {
    var obs := [Error("busy")];
    var a := ScanN(p, obs, 1);
    assert a == ScanOne(p, "app", obs[0], ScanN(p, obs, 0));
    assert a.statuses[0].state.Waiting? && AggregatePhase(a.statuses) == Pending;
  }

  lemma ObserveAlive(k: Key, s: Sys)
    requires B.Reaches(B.TINY, ALL, B.FRESH, s) && k in s.pods && IsProbed(s.pods[k]) && s.pods[k].probes.None?
    ensures exists t :: B.Reaches(B.TINY, ALL, B.FRESH, t) && t.restarters == s.restarters && k in t.pods
                        && Unproven(t.pods[k]) && t.pods[k].probes.None? && t.pods[k].restarting == s.pods[k].restarting
  {
    AliveIsReady(s.pods[k]);
    B.ReachThen(B.TINY, ALL, B.FRESH, s, Observe(k, B.ALIVE));
    var t := Next(B.TINY, s, Observe(k, B.ALIVE));
    assert t.pods[k] == Reconcile(s.pods[k], B.ALIVE).0;
  }

  /** A VM that vanishes for one query starts a restart. */
  lemma GoneRestarts(p: Pod)
    requires IsProbed(p) && !p.restarting
    ensures var (q, spawn) := Reconcile(p, [NotFound]);
            q == p.(status := q.status, restarting := true) && IsProbed(q)
            && spawn == Some(Spawn(FindWorkload(p.workloads, "app").value, Count(p.restarts, "app")))
  {
    var a := ScanN(p, [NotFound], 1);
    assert a == ScanOne(p, "app", NotFound, ScanN(p, [NotFound], 0));
  }

  /** The restart has stopped the probers and is at its runtime calls. */
  ghost predicate AtWork(k: Key, s: Sys) {
    && B.Reaches(B.TINY, ALL, B.FRESH, s) && k in s.pods && IsProbed(s.pods[k]) && s.pods[k].probes.None? && s.pods[k].restarting
    && s.restarters.Keys == {0} && s.restarters[0].key == k && s.restarters[0].pc.Working?
  }

  lemma RestartUnderWay() returns (k: Key, s: Sys)
    ensures AtWork(k, s)
  {
    k := "default/web";
    CreateProbed(k, PROBED, B.ALIVE);
    var ip := Ipam.AllocateSpec(B.TINY, B.FRESH.ipam, k).0.ip;
    MadeProbed(ip);
    AliveIsReady(B.Made(0, PROBED, ip));
    var s1 := B.Stored(B.TINY, B.FRESH, k, PROBED, B.ALIVE);
    assert s1.pods[k] == CommitPod(B.Made(0, PROBED, ip), B.ALIVE).0 && s1.restarters == map[] && s1.nextThread == 0;
    s := GoneAndBegun(k, s1);
  }

  lemma GoneAndBegun(k: Key, s1: Sys) returns (s: Sys)
    requires B.Reaches(B.TINY, ALL, B.FRESH, s1) && k in s1.pods && IsProbed(s1.pods[k]) && !s1.pods[k].restarting
    requires s1.restarters == map[] && s1.nextThread == 0
    ensures AtWork(k, s)
  {
    GoneRestarts(s1.pods[k]);
    B.ReachThen(B.TINY, ALL, B.FRESH, s1, Observe(k, [NotFound]));
    var s2 := Next(B.TINY, s1, Observe(k, [NotFound]));
    assert s2 == StorePod(s1, k, Reconcile(s1.pods[k], [NotFound]));
    B.ReachThen(B.TINY, ALL, B.FRESH, s2, RestartBegin(0));
    s := Next(B.TINY, s2, RestartBegin(0));
    assert s == NextRestart(s2, RestartBegin(0));
  }

  /** A VM that still answers while its restart is under way is reported Ready, whatever its probes said. */
  lemma MidRestartReady()
    ensures Init(B.TINY, B.FRESH) && exists t :: B.Reaches(B.TINY, ALL, B.FRESH, t) && ReadyMidRestart(t)
  {
    B.FreshInit();
    var k, s := RestartUnderWay();
    ObserveAlive(k, s);
  }

  /** And after that restart has failed, until a later one. */
  lemma FailedRestartReady()
    ensures Init(B.TINY, B.FRESH) && exists t :: B.Reaches(B.TINY, ALL, B.FRESH, t) && ReadyUngated(t)
  {
    B.FreshInit();
    var k, s := RestartUnderWay();
    var s2 := GaveUp(k, s);
    ObserveAlive(k, s2);
  }

  lemma GaveUp(k: Key, s: Sys) returns (u: Sys)
    requires AtWork(k, s)
    ensures B.Reaches(B.TINY, ALL, B.FRESH, u) && k in u.pods && IsProbed(u.pods[k]) && u.pods[k].probes.None?
    ensures !u.pods[k].restarting && u.restarters == map[]
  {
    var w := RestartWork(0, WorkEnv(None, false, false, [], false));
    B.ReachThen(B.TINY, ALL, B.FRESH, s, w);
    var s2 := Next(B.TINY, s, w);
    assert s2 == NextRestart(s, w);
    B.ReachThen(B.TINY, ALL, B.FRESH, s2, RestartEnd(0));
    u := Next(B.TINY, s2, RestartEnd(0));
    assert u == NextRestart(s2, RestartEnd(0));
  }
}
