/** Runs in which a goroutine is about to destroy the VM of a Pod it was not launched for. */
module VmRuns {
  import opened Common
  import opened Net
  import opened Status
  import opened Provider
  import opened Lifecycle
  import opened VmHarm
  import B = Boundaries
  import Ipam

  const ALL := Assume(true, true, true)

  /* ---- runs with the goroutines that destroy ---- */

  /** Reached by steps that keep all assumptions on the caller, while no killing prober finishes. */
  ghost predicate Reached(v: World) {
    exists acts :: LegalActs(B.TINY, Start(B.FRESH), acts) && ActedAll(B.TINY, Start(B.FRESH), acts) == v
                   && KeptAll(Start(B.FRESH), acts)
  }

  ghost predicate KeptAll(v: World, acts: seq<Act>)
    requires LegalActs(B.TINY, v, acts)
    decreases |acts|
  {
    acts != [] ==> acts[0].Do? && Kept(ALL, v.sys, acts[0].st) && KeptAll(Acted(B.TINY, v, acts[0]), acts[1..])
  }

  lemma {:induction false} ReachedOn(v: World, acts: seq<Act>, st: Step)
    requires LegalActs(B.TINY, v, acts) && KeptAll(v, acts)
    requires Enabled(B.TINY, ActedAll(B.TINY, v, acts).sys, st) && Kept(ALL, ActedAll(B.TINY, v, acts).sys, st)
    ensures LegalActs(B.TINY, v, acts + [Do(st)]) && KeptAll(v, acts + [Do(st)])
    ensures ActedAll(B.TINY, v, acts + [Do(st)]) == Acted(B.TINY, ActedAll(B.TINY, v, acts), Do(st))
    decreases |acts|
  {
    var a := Do(st);
    if acts == [] {
      var u := Acted(B.TINY, v, a);
      assert acts + [a] == [a] && [a][1..] == [];
      assert LegalActs(B.TINY, u, []) && KeptAll(u, []) && ActedAll(B.TINY, u, []) == u;
    } else {
      assert (acts + [a])[1..] == acts[1..] + [a];
      ReachedOn(Acted(B.TINY, v, acts[0]), acts[1..], st);
    }
  }

  lemma ReachedThen(v: World, st: Step)
    requires Reached(v) && Enabled(B.TINY, v.sys, st) && Kept(ALL, v.sys, st)
    ensures Reached(Acted(B.TINY, v, Do(st)))
  {
    var acts :| LegalActs(B.TINY, Start(B.FRESH), acts) && ActedAll(B.TINY, Start(B.FRESH), acts) == v
                && KeptAll(Start(B.FRESH), acts);
    ReachedOn(Start(B.FRESH), acts, st);
  }

  lemma ReachedStart()
    ensures Reached(Start(B.FRESH))
  {
    var v, none := Start(B.FRESH), [];
    assert LegalActs(B.TINY, v, none) && ActedAll(B.TINY, v, none) == v && KeptAll(v, none);
  }

  /** Killing probers that have not finished stay. */
  ghost predicate KeepsKillers(v: World, u: World) {
    && v.nextKiller <= u.nextKiller
    && forall x :: x in v.killers && x < v.nextKiller ==> x in u.killers && u.killers[x] == v.killers[x]
  }

  lemma StepKeepsKillers(v: World, st: Step)
    requires Enabled(B.TINY, v.sys, st)
    ensures KeepsKillers(v, Acted(B.TINY, v, Do(st)))
  {
  }

  lemma {:induction false} Along(v: World, steps: seq<Step>) returns (u: World)
    requires Reached(v) && Legal(B.TINY, ALL, v.sys, steps)
    ensures Reached(u) && u.sys == Run(B.TINY, ALL, v.sys, steps) && KeepsKillers(v, u)
    decreases |steps|
  {
    if steps == [] {
      return v;
    }
    ReachedThen(v, steps[0]);
    StepKeepsKillers(v, steps[0]);
    u := Along(Acted(B.TINY, v, Do(steps[0])), steps[1..]);
  }

  /** A run of the provider goes on as one with its goroutines. */
  lemma Follow(v: World, s: Sys) returns (u: World)
    requires Reached(v) && B.Reaches(B.TINY, ALL, v.sys, s)
    ensures Reached(u) && u.sys == s && KeepsKillers(v, u)
  {
    var steps :| Legal(B.TINY, ALL, v.sys, steps) && B.Unprobed(steps) && Run(B.TINY, ALL, v.sys, steps) == s;
    u := Along(v, steps);
  }

  lemma UsesVM(s: Sys, k: Key, inc: nat, id: string)
    requires k in s.pods && s.pods[k].inc != inc && s.pods[k].workloads == [Workload("app", id)]
    ensures Used(s, inc, id)
  {
    assert Workload("app", id) in s.pods[k].workloads;
  }

  /* ---- a restart that reaps ---- */

  /** A Pod deleted at the end of its restart: the goroutine still has the new VM to destroy. */
  ghost predicate StillReaping(k: Key, s: Sys) {
    && B.Reaches(B.TINY, ALL, B.FRESH, s) && k !in s.pods && s.creator.None? && s.deleters == map[]
    && s.ipam.byIP == map[] && s.ipam.byKey == map[] && s.ipam.cursor == 3
    && s.restarters == map[0 := Restarter(k, 0, "vm", Reaping("vm"))] && s.nextThread == 2 && s.nextInc == 1
  }

  lemma RestartAtWork(k: Key) returns (s: Sys)
    ensures B.Reaches(B.TINY, ALL, B.FRESH, s) && k in s.pods && s.creator.None? && s.deleters == map[]
    ensures s.nextThread == 1 && s.nextInc == 1
    ensures s.restarters == map[0 := Restarter(k, 0, "vm", Finishing(Some("vm"), false, []))]
    ensures var ip := Ipam.OffsetIP(B.TINY, 2); s.ipam == Ipam.State(map[k := ip], map[ip := k], 3)
  {
    B.TinyAllocates(B.FRESH.ipam, k);
    B.CreateRun(B.TINY, ALL, B.FRESH, k, B.PLAIN, B.SMOOTH, [NotFound]);
    B.StoredRestarts(B.TINY, B.FRESH, k);
    var s1 := B.Stored(B.TINY, B.FRESH, k, B.PLAIN, [NotFound]);
    assert s1.pods[k].terminal.None?;
    s := WorkDone(k, s1);
  }

  lemma WorkDone(k: Key, s1: Sys) returns (s: Sys)
    requires B.Reaches(B.TINY, ALL, B.FRESH, s1) && k in s1.pods && s1.pods[k].terminal.None?
    requires s1.restarters == map[0 := Restarter(k, 0, "vm", Backoff)]
    ensures B.Reaches(B.TINY, ALL, B.FRESH, s) && k in s.pods && s == s1.(pods := s.pods, restarters := s.restarters)
    ensures s.restarters == map[0 := Restarter(k, 0, "vm", Finishing(Some("vm"), false, []))]
  {
    B.ReachThen(B.TINY, ALL, B.FRESH, s1, RestartBegin(0));
    var s2 := Next(B.TINY, s1, RestartBegin(0));
    assert s2 == NextRestart(s1, RestartBegin(0));
    var w := RestartWork(0, WorkEnv(Some("vm"), true, false, [], false));
    B.ReachThen(B.TINY, ALL, B.FRESH, s2, w);
    s := Next(B.TINY, s2, w);
    assert s == NextRestart(s2, w);
  }

  lemma DeletedAtEnd(k: Key, s: Sys) returns (u: Sys)
    requires B.Reaches(B.TINY, ALL, B.FRESH, s) && k in s.pods && s.creator.None? && s.deleters == map[]
    requires s.nextThread == 1 && s.nextInc == 1
    requires s.restarters == map[0 := Restarter(k, 0, "vm", Finishing(Some("vm"), false, []))]
    requires var ip := Ipam.OffsetIP(B.TINY, 2); s.ipam == Ipam.State(map[k := ip], map[ip := k], 3)
    ensures StillReaping(k, u)
  {
    B.DeleteRun(B.TINY, ALL, s, k);
    var d := B.Deleted(s, k);
    B.ReachOn(B.TINY, ALL, B.FRESH, s, d);
    B.ReachThen(B.TINY, ALL, B.FRESH, d, RestartEnd(0));
    u := Next(B.TINY, d, RestartEnd(0));
    assert u == NextRestart(d, RestartEnd(0));
  }

  /** A restart is about to reap the VM that a Pod created meanwhile has adopted. */
  ghost predicate ReapsAdopted(v: World) {
    Harmed(v) && exists x :: x in v.sys.restarters && v.sys.restarters[x].pc.Reaping?
  }

  lemma AdoptedVMReaped()
    ensures Init(B.TINY, B.FRESH) && exists v :: Reached(v) && ReapsAdopted(v)
  {
    var k := "default/web";
    B.FreshInit();
    var s := RestartAtWork(k);
    var u := DeletedAtEnd(k, s);
    AdoptTail(k, u);
  }

  lemma AdoptTail(k: Key, s: Sys)
    requires StillReaping(k, s)
    ensures exists v :: Reached(v) && ReapsAdopted(v)
  {
    var t := Readopted(k, s);
    ReachedStart();
    var v := Follow(Start(B.FRESH), t);
    UsesVM(t, k, 0, "vm");
    ReaperHarms(v, 0, 0, "vm");
  }

  lemma ReaperHarms(v: World, x: nat, inc: nat, id: string)
    requires x in v.sys.restarters && v.sys.restarters[x].pc == Reaping(id) && v.sys.restarters[x].inc == inc && Used(v.sys, inc, id)
    ensures ReapsAdopted(v)
  {
    assert id in RestarterDoom(v.sys.restarters[x]);
    assert Dooms(v, inc, id);
  }

  lemma Readopted(k: Key, s: Sys) returns (t: Sys)
    requires StillReaping(k, s)
    ensures B.Reaches(B.TINY, ALL, B.FRESH, t) && t.restarters == s.restarters
    ensures k in t.pods && t.pods[k].inc == 1 && t.pods[k].workloads == [Workload("app", "vm")]
  {
    B.TinyAllocates(s.ipam, k);
    assert !Busy(s, k);
    B.CreateRun(B.TINY, ALL, s, k, B.PLAIN, B.ADOPT, B.ALIVE);
    B.StoredRuns(B.TINY, s, k);
    t := B.Stored(B.TINY, s, k, B.PLAIN, B.ALIVE);
    B.ReachOn(B.TINY, ALL, B.FRESH, s, t);
  }

  /* ---- a prober that kills ---- */

  /** Under Never a failed liveness probe fails the Pod and leaves a prober with the VM to destroy. */
  const MORTAL := B.PLAIN.(policy := Set(Never), declared := Declared(NoProbe, NoProbe, Active(1, 1)))

  /** A Pod on that VM, and nothing else going on. */
  predicate Still(k: Key, s: Sys, inc: nat) {
    && k in s.pods && s.pods[k].inc == inc && s.pods[k].workloads == [Workload("app", "vm")]
    && s.restarters == map[] && s.deleters == map[] && s.creator.None? && s.nextInc == inc + 1
  }

  predicate Spent(a: Ipam.State, k: Key) {
    var ip := Ipam.OffsetIP(B.TINY, 2); a == Ipam.State(map[k := ip], map[ip := k], 3)
  }

  /** A Never Pod that is seen running. */
  lemma MortalRuns(inc: nat, ip: IP)
    ensures var (q, spawn) := CommitPod(B.Made(inc, MORTAL, ip), B.ALIVE);
            q.inc == inc && q.workloads == [Workload("app", "vm")] && q.terminal.None? && q.policy == Never && spawn.None?
  {
    var p := B.Made(inc, MORTAL, ip);
    assert FindWorkload(p.workloads, "app") == Some("vm");
    assert ScanN(p, B.ALIVE, 1) == ScanOne(p, "app", B.ALIVE[0], ScanN(p, B.ALIVE, 0));
  }

  lemma CreateMortal(k: Key, s: Sys, inc: nat) returns (t: Sys)
    requires s.pods == map[] && s.creator.None? && s.restarters == map[] && s.deleters == map[] && s.nextInc == inc
    requires s.ipam.byIP == map[] && s.ipam.byKey == map[] && 2 <= s.ipam.cursor <= 3
    ensures B.Reaches(B.TINY, ALL, s, t) && Still(k, t, inc) && Spent(t.ipam, k) && t.pods.Keys == {k}
    ensures t.pods[k].terminal.None? && t.pods[k].policy == Never
  {
    B.TinyAllocates(s.ipam, k);
    B.CreateRun(B.TINY, ALL, s, k, MORTAL, B.SMOOTH, B.ALIVE);
    MortalRuns(inc, Ipam.AllocateSpec(B.TINY, s.ipam, k).0.ip);
    t := B.Stored(B.TINY, s, k, MORTAL, B.ALIVE);
    assert t.pods == s.pods[k := t.pods[k]];
  }

  /** The probe fails: the Pod is Failed, and its prober is between unlocking and destroying. */
  lemma ProbeFails(k: Key, v: World) returns (u: World)
    requires Reached(v) && Still(k, v.sys, 0) && Spent(v.sys.ipam, k) && v.sys.pods.Keys == {k}
    requires v.sys.pods[k].terminal.None? && v.sys.pods[k].policy == Never
    ensures Reached(u) && Still(k, u.sys, 0) && Spent(u.sys.ipam, k) && u.sys.pods.Keys == {k}
    ensures exists x :: x in u.killers && x < u.nextKiller && u.killers[x] == Doom(k, 0, {"vm"})
  {
    var st := ProbeFailed(k, "app");
    ReachedThen(v, st);
    u := Acted(B.TINY, v, Do(st));
    assert FindWorkload(v.sys.pods[k].workloads, "app") == Some("vm");
    FailProbeUse(v.sys.pods[k], "app");
    assert u.sys == StorePod(v.sys, k, FailProbe(v.sys.pods[k], "app"));
    assert u.killers[v.nextKiller] == Doom(k, 0, {"vm"});
  }

  lemma DeleteMortal(k: Key, s: Sys) returns (t: Sys)
    requires Still(k, s, 0) && Spent(s.ipam, k) && s.pods.Keys == {k}
    ensures B.Reaches(B.TINY, ALL, s, t) && t.pods == map[] && t.creator.None? && t.restarters == map[] && t.deleters == map[]
    ensures t.nextInc == 1 && t.ipam.byIP == map[] && t.ipam.byKey == map[] && t.ipam.cursor == 3
  {
    B.DeleteRun(B.TINY, ALL, s, k);
    t := B.Deleted(s, k);
  }

  /** A prober of a deleted Pod is about to destroy the VM of its successor, with no restart anywhere. */
  ghost predicate KillsSuccessor(v: World) {
    Harmed(v) && v.sys.restarters == map[] && v.sys.deleters == map[]
  }

  lemma KillerRun(k: Key) returns (v: World)
    ensures Reached(v) && KillsSuccessor(v)
  {
    ReachedStart();
    var s1 := CreateMortal(k, B.FRESH, 0);
    var v1 := Follow(Start(B.FRESH), s1);
    var v2 := ProbeFails(k, v1);
    var x :| x in v2.killers && x < v2.nextKiller && v2.killers[x] == Doom(k, 0, {"vm"});
    var s3 := DeleteMortal(k, v2.sys);
    var v3 := Follow(v2, s3);
    var s4 := CreateMortal(k, s3, 1);
    v := Follow(v3, s4);
    KillerHarms(k, v, x);
  }

  lemma KillerHarms(k: Key, v: World, x: nat)
    requires Still(k, v.sys, 1) && x in v.killers && v.killers[x] == Doom(k, 0, {"vm"})
    ensures KillsSuccessor(v)
  {
    UsesVM(v.sys, k, 0, "vm");
    assert "vm" in v.killers[x].ids;
    assert ThreadDooms(v.killers, 0, "vm");
    assert Dooms(v, 0, "vm");
  }

  /** A Pod failed by its probe, deleted and created again: the old prober destroys the new Pod's VM. */
  lemma SuccessorKilled()
    ensures Init(B.TINY, B.FRESH) && exists v :: Reached(v) && KillsSuccessor(v)
  {
    B.FreshInit();
    var v := KillerRun("default/web");
  }
}
