/**
 * When no goroutine destroys the VM of a Pod it was not launched for: VM names of different keys differ, and no key is
 * created again while a goroutine of an earlier Pod under it is alive.
 */
module VmSafety {
  import opened Common
  import opened Net
  import opened Status
  import opened Provider
  import opened Lifecycle
  import opened VmHarm

  /** The VM `id` is named for a container of the Pods under `k`. */
  predicate GoodId(owner: string -> Key, k: Key, id: string) { id != "" && owner(id) == k }

  /** The name of a VM tells its key, whatever the container, and the runtime hands back the name it was asked for. */
  predicate Named(owner: string -> Key, s: Sys, st: Step) {
    match st
    case CreateLaunch(env) =>
      s.creator.Some? ==>
        && (env.found.Present? ==> GoodId(owner, s.creator.value.key, env.found.id))
        && (env.created.Some? ==> GoodId(owner, s.creator.value.key, env.created.value))
    case RestartWork(x, w) => x in s.restarters && w.created.Some? ==> GoodId(owner, s.restarters[x].key, w.created.value)
    case _ => true
  }

  /** No key is created again while a restart, in whatever section, or a killing prober of it is alive. */
  ghost predicate Quiet(v: World, st: Step) {
    st.CreateBegin? ==> NoGoroutine(v, st.key)
  }

  ghost predicate NoGoroutine(v: World, k: Key) {
    && (forall x :: x in v.sys.restarters ==> v.sys.restarters[x].key != k)
    && (forall x :: x in v.killers ==> v.killers[x].key != k)
  }

  ghost predicate Allowed(c: Cidr, owner: string -> Key, v: World, a: Act) {
    CanAct(c, v, a) && (a.Do? ==> Serial(v.sys, a.st) && Quiet(v, a.st) && Named(owner, v.sys, a.st))
  }

  /* ---- the invariant ---- */

  predicate PodVMs(owner: string -> Key, k: Key, ws: seq<Workload>) {
    forall i :: 0 <= i < |ws| ==> GoodId(owner, k, ws[i].id)
  }

  /** A restart whose container has no VM carries an empty name. */
  predicate RestarterVM(owner: string -> Key, r: Restarter) {
    && (r.oldId == "" || GoodId(owner, r.key, r.oldId))
    && match r.pc
       case Finishing(newId, _, _) => newId.Some? ==> GoodId(owner, r.key, newId.value)
       case Reaping(id) => GoodId(owner, r.key, id)
       case _ => true
  }

  /** A goroutine of a tracked key was launched for the Pod tracked there. */
  predicate Current(s: Sys, k: Key, inc: nat) { k in s.pods ==> s.pods[k].inc == inc }

  ghost predicate RestartsOk(owner: string -> Key, s: Sys) {
    forall x :: x in s.restarters ==>
      && RestarterVM(owner, s.restarters[x]) && Current(s, s.restarters[x].key, s.restarters[x].inc)
      && (s.restarters[x].pc.Reaping? ==> s.restarters[x].key !in s.pods)
  }

  ghost predicate PodsOk(owner: string -> Key, s: Sys) {
    forall k :: k in s.pods ==> PodVMs(owner, k, s.pods[k].workloads)
  }

  ghost predicate DeletersOk(s: Sys) { forall x :: x in s.deleters ==> s.deleters[x].key !in s.pods }

  ghost predicate CreatorOk(owner: string -> Key, s: Sys) {
    s.creator.Some? ==>
      && (s.creator.value.pc.Launched? ==> GoodId(owner, s.creator.value.key, s.creator.value.pc.id))
      && (forall x :: x in s.deleters ==> s.deleters[x].key != s.creator.value.key)
      && (!s.creator.value.pc.Unwinding? ==> Untouched(s, s.creator.value.key))
  }

  ghost predicate Untouched(s: Sys, k: Key) { k !in s.pods && forall x :: x in s.restarters ==> s.restarters[x].key != k }

  ghost predicate SysOk(owner: string -> Key, s: Sys) {
    PodsOk(owner, s) && RestartsOk(owner, s) && DeletersOk(s) && CreatorOk(owner, s)
  }

  ghost predicate TeardownsOk(owner: string -> Key, v: World) {
    forall x :: x in v.teardowns ==>
      && x in v.sys.deleters && v.sys.deleters[x].key == v.teardowns[x].key
      && forall id :: id in v.teardowns[x].ids ==> GoodId(owner, v.teardowns[x].key, id)
  }

  ghost predicate KillersOk(owner: string -> Key, v: World) {
    && (forall x :: x in v.killers ==>
          && Current(v.sys, v.killers[x].key, v.killers[x].inc)
          && forall id :: id in v.killers[x].ids ==> id == "" || GoodId(owner, v.killers[x].key, id))
    && (v.sys.creator.Some? && !v.sys.creator.value.pc.Unwinding? ==>
          forall x :: x in v.killers ==> v.killers[x].key != v.sys.creator.value.key)
  }

  ghost predicate Inv(owner: string -> Key, v: World) {
    SysOk(owner, v.sys) && TeardownsOk(owner, v) && KillersOk(owner, v)
  }

  /* ---- steps on Pods and restarts ---- */

  lemma {:induction false} FoundVM(owner: string -> Key, k: Key, ws: seq<Workload>, name: string)
    requires PodVMs(owner, k, ws)
    ensures FindWorkload(ws, name).Some? ==> GoodId(owner, k, FindWorkload(ws, name).value)
    ensures IdOf(ws, name) == "" || GoodId(owner, k, IdOf(ws, name))
  {
    if ws != [] {
      FoundVM(owner, k, ws[..|ws| - 1], name);
    }
  }

  lemma {:induction false} ScanVM(owner: string -> Key, k: Key, p: Pod, obs: seq<Obs>, n: nat)
    requires n <= |p.containers| <= |obs| && PodVMs(owner, k, p.workloads)
    ensures ScanN(p, obs, n).spawn.Some? ==> GoodId(owner, k, ScanN(p, obs, n).spawn.value.oldId)
  {
    if n > 0 {
      ScanVM(owner, k, p, obs, n - 1);
      FoundVM(owner, k, p.workloads, p.containers[n - 1]);
    }
  }

  lemma ReconcileVM(owner: string -> Key, k: Key, p: Pod, obs: seq<Obs>)
    requires PodVMs(owner, k, p.workloads) && (p.terminal.None? ==> |p.containers| <= |obs|)
    ensures SpawnVM(owner, k, Reconcile(p, obs).1)
  {
    if p.terminal.None? {
      ScanVM(owner, k, p, obs, |p.containers|);
    }
  }

  predicate SpawnVM(owner: string -> Key, k: Key, spawn: Option<Spawn>) {
    spawn.Some? ==> spawn.value.oldId == "" || GoodId(owner, k, spawn.value.oldId)
  }

  lemma FailProbeVM(owner: string -> Key, k: Key, p: Pod, name: string)
    requires PodVMs(owner, k, p.workloads)
    ensures SpawnVM(owner, k, FailProbe(p, name).1)
  {
    FoundVM(owner, k, p.workloads, name);
  }

  /** Storing a Pod under a key whose goroutines, if any, are its own. */
  lemma StoreOk(owner: string -> Key, s: Sys, k: Key, r: (Pod, Option<Spawn>))
    requires SysOk(owner, s) && PodVMs(owner, k, r.0.workloads) && SpawnVM(owner, k, r.1)
    requires k in s.pods ==> r.0.inc == s.pods[k].inc
    requires k !in s.pods ==> Untouched(s, k) && (forall x :: x in s.deleters ==> s.deleters[x].key != k) && s.creator.None?
    ensures SysOk(owner, StorePod(s, k, r))
  {
  }

  lemma PodStepOk(c: Cidr, owner: string -> Key, s: Sys, st: Step)
    requires SysOk(owner, s) && Enabled(c, s, st) && !IsCreate(st) && !IsDelete(st) && !IsRestart(st)
    ensures SysOk(owner, Next(c, s, st))
  {
    var k := st.key;
    if k in s.pods {
      var p := s.pods[k];
      match st
      case Observe(_, obs) =>
        ReconcileUse(p, obs);
        ReconcileVM(owner, k, p, obs);
        StoreOk(owner, s, k, Reconcile(p, obs));
      case ProbeFailed(_, name) =>
        FailProbeUse(p, name);
        FailProbeVM(owner, k, p, name);
        StoreOk(owner, s, k, FailProbe(p, name));
      case StartupPassed(_) =>
        if Probing(s, k) {
          StoreOk(owner, s, k, (p.(probes := Some(p.probes.value.(startupDone := true))), None));
        }
      case ReadinessSet(_, b) =>
        if Probing(s, k) {
          StoreOk(owner, s, k, (p.(probes := Some(p.probes.value.(ready := b))), None));
        }
    }
  }

  lemma SwapVMs(owner: string -> Key, k: Key, ws: seq<Workload>, oldId: string, newId: string)
    requires PodVMs(owner, k, ws) && GoodId(owner, k, newId)
    ensures PodVMs(owner, k, SwapIds(ws, oldId, newId))
  {
  }

  lemma ThreadGoneOk(owner: string -> Key, s: Sys, x: nat)
    requires SysOk(owner, s)
    ensures SysOk(owner, s.(restarters := s.restarters - {x}))
  {
  }

  lemma ThreadMovesOk(owner: string -> Key, s: Sys, x: nat, r: Restarter)
    requires SysOk(owner, s) && x in s.restarters && r.key == s.restarters[x].key && r.inc == s.restarters[x].inc
    requires RestarterVM(owner, r) && (r.pc.Reaping? ==> r.key !in s.pods)
    ensures SysOk(owner, s.(restarters := s.restarters[x := r]))
  {
  }

  lemma BeginOk(owner: string -> Key, s: Sys, x: nat)
    requires SysOk(owner, s) && x in s.restarters && s.restarters[x].pc.Backoff?
    ensures SysOk(owner, NextRestart(s, RestartBegin(x)))
  {
    var r := s.restarters[x];
    if r.key in s.pods {
      var u := StorePod(s, r.key, (SnapshotPods(s.pods, r.key)[r.key], None));
      StoreOk(owner, s, r.key, (SnapshotPods(s.pods, r.key)[r.key], None));
      if GivesUp(s.pods, r.key) {
        ThreadGoneOk(owner, u, x);
      } else {
        ThreadMovesOk(owner, u, x, r.(pc := Working(s.pods[r.key].status.podIP)));
      }
    } else {
      ThreadGoneOk(owner, s, x);
    }
  }

  lemma WorkOk(owner: string -> Key, s: Sys, st: Step)
    requires SysOk(owner, s) && st.RestartWork? && st.thread in s.restarters && s.restarters[st.thread].pc.Working?
    requires Named(owner, s, st)
    ensures SysOk(owner, NextRestart(s, st))
  {
    var r := s.restarters[st.thread];
    ThreadMovesOk(owner, s, st.thread, r.(pc := RestartVM(r.pc.podIP, st.work)));
  }

  lemma EndGoneOk(owner: string -> Key, s: Sys, x: nat)
    requires SysOk(owner, s) && x in s.restarters && s.restarters[x].pc.Finishing? && s.restarters[x].key !in s.pods
    ensures SysOk(owner, NextRestart(s, RestartEnd(x)))
  {
    var r := s.restarters[x];
    if r.pc.newId.None? {
      ThreadGoneOk(owner, s, x);
    } else {
      ThreadMovesOk(owner, s, x, r.(pc := Reaping(r.pc.newId.value)));
    }
  }

  lemma CountsOk(owner: string -> Key, s: Sys, commits: map<nat, nat>)
    requires SysOk(owner, s)
    ensures SysOk(owner, s.(commits := commits))
  {
  }

  lemma EndFoundOk(owner: string -> Key, s: Sys, x: nat)
    requires SysOk(owner, s) && x in s.restarters && s.restarters[x].pc.Finishing? && s.restarters[x].key in s.pods
    ensures SysOk(owner, NextRestart(s, RestartEnd(x)))
  {
    var r := s.restarters[x];
    var p := s.pods[r.key];
    var q := FinishPod(p, r.oldId, r.pc.newId, r.pc.attached, r.pc.vmIP);
    FinishUse(p, r.oldId, r.pc.newId, r.pc.attached, r.pc.vmIP);
    if r.pc.newId.Some? {
      SwapVMs(owner, r.key, p.workloads, r.oldId, r.pc.newId.value);
    }
    StoreOk(owner, s, r.key, (q, None));
    var t := StorePod(s, r.key, (q, None));
    ThreadGoneOk(owner, t, x);
    CountsOk(owner, t.(restarters := t.restarters - {x}), NextRestart(s, RestartEnd(x)).commits);
  }

  lemma EndOk(owner: string -> Key, s: Sys, x: nat)
    requires SysOk(owner, s) && x in s.restarters && s.restarters[x].pc.Finishing?
    ensures SysOk(owner, NextRestart(s, RestartEnd(x)))
  {
    if s.restarters[x].key in s.pods {
      EndFoundOk(owner, s, x);
    } else {
      EndGoneOk(owner, s, x);
    }
  }

  lemma RestartOk(c: Cidr, owner: string -> Key, s: Sys, st: Step)
    requires SysOk(owner, s) && Enabled(c, s, st) && IsRestart(st) && Named(owner, s, st)
    ensures SysOk(owner, Next(c, s, st))
  {
    match st
    case RestartBegin(x) => BeginOk(owner, s, x);
    case RestartWork(_, _) => WorkOk(owner, s, st);
    case RestartEnd(x) => EndOk(owner, s, x);
    case RestartReap(_) =>
  }

  /* ---- creates and deletes ---- */

  /** A failed launch destroys at most a VM of its own key's name, and a successful one runs on such a VM. */
  lemma LaunchNamed(owner: string -> Key, k: Key, ip: IP, env: LaunchEnv)
    requires env.found.Present? ==> GoodId(owner, k, env.found.id)
    requires env.created.Some? ==> GoodId(owner, k, env.created.value)
    ensures LaunchVM(ip, env).outcome.Up? ==> GoodId(owner, k, LaunchVM(ip, env).outcome.id)
    ensures forall id :: id in LaunchVM(ip, env).destroyed ==> GoodId(owner, k, id)
  {
  }

  lemma CreateOk(c: Cidr, owner: string -> Key, v: World, st: Step)
    requires SysOk(owner, v.sys) && Allowed(c, owner, v, Do(st)) && IsCreate(st) && !st.CreateCommit? && !st.CreateReject?
    ensures SysOk(owner, NextCreate(c, v.sys, st))
  {
    CreateEffect(c, v.sys, st);
    if st.CreateLaunch? {
      LaunchNamed(owner, v.sys.creator.value.key, v.sys.creator.value.pc.ip, st.env);
    }
  }

  lemma RejectOk(owner: string -> Key, s: Sys)
    requires SysOk(owner, s) && s.creator.Some? && (s.creator.value.pc.Rejected? || s.creator.value.pc.ArchRejected?)
    ensures SysOk(owner, RejectedPod(s))
  {
  }

  lemma CommitPodUse(p: Pod, obs: seq<Obs>)
    requires p.terminal.None? ==> |p.containers| <= |obs|
    ensures CommitPod(p, obs).0.inc == p.inc && CommitPod(p, obs).0.workloads == p.workloads
    ensures CommitPod(p, obs).1 == Reconcile(p, obs).1
  {
    ReconcileUse(p, obs);
  }

  lemma LaunchedOk(owner: string -> Key, s: Sys)
    requires SysOk(owner, s) && s.creator.Some? && s.creator.value.pc.Launched?
    ensures var t := s.(creator := None, nextInc := s.nextInc + 1);
            && SysOk(owner, t) && Untouched(t, s.creator.value.key)
            && forall x :: x in t.deleters ==> t.deleters[x].key != s.creator.value.key
  {
  }

  lemma CommitOk(owner: string -> Key, s: Sys, obs: seq<Obs>)
    requires SysOk(owner, s) && s.creator.Some? && s.creator.value.pc.Launched?
    requires s.creator.value.spec.containers != [] && |s.creator.value.spec.containers| <= |obs|
    ensures SysOk(owner, Committed(s, obs))
  {
    var cr := s.creator.value;
    var p := NewPod(s.nextInc, cr.spec, cr.pc.ip, cr.pc.id, cr.pc.vmIP, cr.pc.attached);
    assert p.workloads == [Workload(cr.spec.containers[0], cr.pc.id)];
    CommitPodUse(p, obs);
    ReconcileVM(owner, cr.key, p, obs);
    LaunchedOk(owner, s);
    StoreOk(owner, s.(creator := None, nextInc := s.nextInc + 1), cr.key, CommitPod(p, obs));
  }

  lemma DeleteOk(c: Cidr, owner: string -> Key, s: Sys, st: Step)
    requires SysOk(owner, s) && Enabled(c, s, st) && Serial(s, st) && IsDelete(st)
    ensures SysOk(owner, NextDelete(s, st))
  {
  }

  lemma StepOk(c: Cidr, owner: string -> Key, v: World, st: Step)
    requires SysOk(owner, v.sys) && Allowed(c, owner, v, Do(st))
    ensures SysOk(owner, Next(c, v.sys, st))
  {
    var s := v.sys;
    if IsDelete(st) {
      DeleteOk(c, owner, s, st);
    } else if IsRestart(st) {
      RestartOk(c, owner, s, st);
    } else if !IsCreate(st) {
      PodStepOk(c, owner, s, st);
    } else {
      assert Next(c, s, st) == NextCreate(c, s, st);
      if st.CreateReject? {
        RejectOk(owner, s);
      } else if st.CreateCommit? {
        CommitOk(owner, s, st.obs);
      } else {
        CreateOk(c, owner, v, st);
      }
    }
  }

  /* ---- the goroutines that destroy ---- */

  lemma TeardownsKept(c: Cidr, owner: string -> Key, v: World, st: Step)
    requires Inv(owner, v) && Numbered(v) && CanAct(c, v, Do(st))
    ensures TeardownsOk(owner, Acted(c, v, Do(st)))
  {
    var u := Acted(c, v, Do(st));
    if IsDelete(st) {
      assert u.sys == NextDelete(v.sys, st);
      if st.DeleteBegin? && st.key in v.sys.pods {
        assert PodVMs(owner, st.key, v.sys.pods[st.key].workloads);
      }
    } else {
      DeletersSame(c, v.sys, st);
    }
  }

  lemma DeletersSame(c: Cidr, s: Sys, st: Step)
    requires Enabled(c, s, st) && !IsDelete(st)
    ensures Next(c, s, st).deleters == s.deleters
  {
    if IsCreate(st) {
      assert Next(c, s, st) == NextCreate(c, s, st);
      if !st.CreateCommit? && !st.CreateReject? {
        CreateEffect(c, s, st);
      }
    } else {
      PodEffect(c, s, st);
    }
  }

  /** A step keeps the Pod under a tracked key, or forgets it; only a create stores another. */
  lemma SamePods(c: Cidr, s: Sys, st: Step, k: Key, inc: nat)
    requires Enabled(c, s, st) && Current(s, k, inc)
    requires st.CreateCommit? || st.CreateReject? ==> s.creator.value.key != k
    ensures Current(Next(c, s, st), k, inc)
  {
    if IsCreate(st) {
      assert Next(c, s, st) == NextCreate(c, s, st);
      if st.CreateCommit? {
        assert Next(c, s, st) == Committed(s, st.obs);
      } else if st.CreateReject? {
        assert Next(c, s, st) == RejectedPod(s);
      } else {
        CreateEffect(c, s, st);
      }
    } else if IsDelete(st) {
      assert Next(c, s, st) == NextDelete(s, st);
    } else {
      PodEffect(c, s, st);
      if StepKey(s, st) in s.pods {
        PodAfterInc(c, s, st);
      }
    }
  }

  lemma PodAfterInc(c: Cidr, s: Sys, st: Step)
    requires Enabled(c, s, st) && !IsCreate(st) && !IsDelete(st) && StepKey(s, st) in s.pods
    ensures PodAfter(s, st, s.pods[StepKey(s, st)]).inc == s.pods[StepKey(s, st)].inc
  {
    var p := s.pods[StepKey(s, st)];
    match st
    case Observe(_, obs) => ReconcileUse(p, obs);
    case ProbeFailed(_, name) => FailProbeUse(p, name);
    case RestartEnd(x) =>
      var r := s.restarters[x];
      FinishUse(p, r.oldId, r.pc.newId, r.pc.attached, r.pc.vmIP);
    case _ =>
  }

  /** What a create has in hand stays its own until it is stored. */
  lemma CreatorKept(c: Cidr, s: Sys, st: Step)
    requires Enabled(c, s, st)
    ensures var t := Next(c, s, st).creator;
            t.Some? && !t.value.pc.Unwinding? ==>
              || (st.CreateBegin? && t.value.key == st.key)
              || (s.creator.Some? && !s.creator.value.pc.Unwinding? && t.value.key == s.creator.value.key)
  {
    if IsCreate(st) {
      assert Next(c, s, st) == NextCreate(c, s, st);
      if !st.CreateCommit? && !st.CreateReject? {
        CreateEffect(c, s, st);
      }
    } else if !IsDelete(st) {
      PodEffect(c, s, st);
    }
  }

  /** No Pod is stored under a key that a killing prober is at work on. */
  lemma OldKillers(c: Cidr, owner: string -> Key, v: World, st: Step, x: nat)
    requires KillersOk(owner, v) && Allowed(c, owner, v, Do(st)) && x in v.killers
    ensures var t := Next(c, v.sys, st);
            && Current(t, v.killers[x].key, v.killers[x].inc)
            && (t.creator.Some? && !t.creator.value.pc.Unwinding? ==> v.killers[x].key != t.creator.value.key)
  {
    SamePods(c, v.sys, st, v.killers[x].key, v.killers[x].inc);
    CreatorKept(c, v.sys, st);
  }

  ghost predicate KillerOk(owner: string -> Key, t: Sys, d: Doom) {
    && Current(t, d.key, d.inc) && (forall id :: id in d.ids ==> id == "" || GoodId(owner, d.key, id))
    && (t.creator.Some? && !t.creator.value.pc.Unwinding? ==> d.key != t.creator.value.key)
  }

  lemma KillersKept(c: Cidr, owner: string -> Key, v: World, st: Step)
    requires Inv(owner, v) && Allowed(c, owner, v, Do(st))
    ensures KillersOk(owner, Acted(c, v, Do(st)))
  {
    var u := Acted(c, v, Do(st));
    forall x | x in u.killers
      ensures KillerOk(owner, u.sys, u.killers[x])
    {
      if Kills(v.sys, st) && x == v.nextKiller {
        NewKiller(c, owner, v, st);
      } else {
        OldKillers(c, owner, v, st, x);
      }
    }
  }

  lemma NewKiller(c: Cidr, owner: string -> Key, v: World, st: Step)
    requires Inv(owner, v) && Kills(v.sys, st)
    ensures var t := Next(c, v.sys, st);
            var p := v.sys.pods[st.key];
            && Current(t, st.key, p.inc)
            && (IdOf(p.workloads, st.container) == "" || GoodId(owner, st.key, IdOf(p.workloads, st.container)))
            && (t.creator.Some? && !t.creator.value.pc.Unwinding? ==> t.creator.value.key != st.key)
  {
    SamePods(c, v.sys, st, st.key, v.sys.pods[st.key].inc);
    CreatorKept(c, v.sys, st);
    FoundVM(owner, st.key, v.sys.pods[st.key].workloads, st.container);
  }

  lemma ActInv(c: Cidr, owner: string -> Key, v: World, a: Act)
    requires Inv(owner, v) && Numbered(v) && Allowed(c, owner, v, a)
    ensures Inv(owner, Acted(c, v, a))
  {
    if a.Do? {
      StepOk(c, owner, v, a.st);
      TeardownsKept(c, owner, v, a.st);
      KillersKept(c, owner, v, a.st);
    }
  }

  /* ---- runs ---- */

  ghost predicate QuietRun(c: Cidr, owner: string -> Key, v: World, acts: seq<Act>)
    requires LegalActs(c, v, acts)
    decreases |acts|
  {
    acts != [] ==> Allowed(c, owner, v, acts[0]) && QuietRun(c, owner, Acted(c, v, acts[0]), acts[1..])
  }

  lemma {:induction false} RunInv(c: Cidr, owner: string -> Key, v: World, acts: seq<Act>)
    requires Inv(owner, v) && Numbered(v) && LegalActs(c, v, acts) && QuietRun(c, owner, v, acts)
    ensures Inv(owner, ActedAll(c, v, acts))
    decreases |acts|
  {
    if acts != [] {
      ActInv(c, owner, v, acts[0]);
      ActNumbered(c, v, acts[0]);
      RunInv(c, owner, Acted(c, v, acts[0]), acts[1..]);
    }
  }

  /** The VM of a tracked Pod is named for its key. */
  lemma RunsOnGood(owner: string -> Key, s: Sys, j: Key, w: Workload)
    requires PodsOk(owner, s) && j in s.pods && w in s.pods[j].workloads
    ensures GoodId(owner, j, w.id)
  {
    assert PodVMs(owner, j, s.pods[j].workloads);
  }

  /** So a Pod that runs on a VM named for a key is the one tracked under it. */
  lemma UsedBy(owner: string -> Key, s: Sys, k: Key, inc: nat, id: string)
    requires PodsOk(owner, s) && (id == "" || GoodId(owner, k, id)) && Current(s, k, inc)
    ensures !Used(s, inc, id)
  {
    forall j, w | j in s.pods && w in s.pods[j].workloads
      ensures GoodId(owner, j, w.id)
    {
      RunsOnGood(owner, s, j, w);
    }
  }

  lemma SafeState(owner: string -> Key, v: World)
    requires Inv(owner, v)
    ensures !Harmed(v)
  {
    forall inc, id | Dooms(v, inc, id)
      ensures !Used(v.sys, inc, id)
    {
      if RestartDooms(v.sys.restarters, inc, id) {
        var x :| x in v.sys.restarters && v.sys.restarters[x].inc == inc && id in RestarterDoom(v.sys.restarters[x]);
        UsedBy(owner, v.sys, v.sys.restarters[x].key, inc, id);
      } else if ThreadDooms(v.teardowns, inc, id) {
        var x :| x in v.teardowns && v.teardowns[x].inc == inc && id in v.teardowns[x].ids;
        UsedBy(owner, v.sys, v.teardowns[x].key, inc, id);
      } else {
        var x :| x in v.killers && v.killers[x].inc == inc && id in v.killers[x].ids;
        UsedBy(owner, v.sys, v.killers[x].key, inc, id);
      }
    }
  }

  /** What the next step destroys at once: a launch that fails its VM, a restart its half-started one. */
  ghost predicate DestroysOther(v: World, st: Step) {
    match st
    case CreateLaunch(env) =>
      v.sys.creator.Some? && v.sys.creator.value.pc.Allocated?
      && exists id :: id in LaunchVM(v.sys.creator.value.pc.ip, env).destroyed && Used(v.sys, v.sys.nextInc, id)
    case RestartWork(x, w) =>
      x in v.sys.restarters && w.created.Some? && !w.startOk && Used(v.sys, v.sys.restarters[x].inc, w.created.value)
    case _ => false
  }

  /**
   * With VM names of different keys distinct, creates and deletes of a key serialised, and no key created again while a
   * restart or a killing prober of it is alive: in no run is any goroutine about to destroy, or does a launch or restart on
   * its way out destroy, the VM of a Pod other than its own.
   */
  lemma NoTrackedVMDestroyed(c: Cidr, owner: string -> Key, s: Sys, acts: seq<Act>, st: Step)
    requires Init(c, s) && LegalActs(c, Start(s), acts) && QuietRun(c, owner, Start(s), acts)
    ensures var v := ActedAll(c, Start(s), acts);
            !Harmed(v) && (Allowed(c, owner, v, Do(st)) ==> !DestroysOther(v, st))
  {
    RunInv(c, owner, Start(s), acts);
    var v := ActedAll(c, Start(s), acts);
    SafeState(owner, v);
    if Allowed(c, owner, v, Do(st)) {
      SafeStep(c, owner, v, st);
    }
  }

  lemma SafeStep(c: Cidr, owner: string -> Key, v: World, st: Step)
    requires Inv(owner, v) && Allowed(c, owner, v, Do(st))
    ensures !DestroysOther(v, st)
  {
    match st
    case CreateLaunch(env) =>
      var cr := v.sys.creator.value;
      LaunchNamed(owner, cr.key, cr.pc.ip, env);
      forall id | id in LaunchVM(cr.pc.ip, env).destroyed
        ensures !Used(v.sys, v.sys.nextInc, id)
      {
        UsedBy(owner, v.sys, cr.key, v.sys.nextInc, id);
      }
    case RestartWork(x, w) =>
      if w.created.Some? {
        UsedBy(owner, v.sys, v.sys.restarters[x].key, v.sys.restarters[x].inc, w.created.value);
      }
    case _ =>
  }
}
