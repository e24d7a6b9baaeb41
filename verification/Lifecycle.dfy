/**
 * The provider as an interleaving of steps: CreatePod, DeletePod, status reconciles, probers and restart
 * goroutines share the Pod table and the allocator, and the runtime answers as it likes.
 */
module Lifecycle {
  import opened Common
  import opened Net
  import opened Status
  import opened Provider
  import Ipam

  /* ---- threads ---- */

  datatype RestartPc =
    | Backoff
    | Working(podIP: IP)
    | Finishing(newId: Option<string>, attached: bool, vmIP: IP)
    | Reaping(orphanId: string)

  /** A restart goroutine; `inc` is the Pod it was launched for, which the goroutine itself never checks. */
  datatype Restarter = Restarter(key: Key, inc: nat, oldId: string, pc: RestartPc)

  datatype CreatePc =
    | Translated
    | Rejected
    | HadRead(had: bool)
    | Allocated(had: bool, ip: IP)
    | Launched(had: bool, ip: IP, id: string, vmIP: IP, attached: bool)
    | ArchRejected(had: bool)
    | Unwinding(had: bool)

  /** The one CreatePod that holds `createMu`; `before` is the binding its key had on entry. */
  datatype Creator = Creator(key: Key, spec: PodSpec, before: Option<IP>, pc: CreatePc)

  /** A DeletePod after its lock section. */
  datatype Deleter = Deleter(key: Key, released: bool)

  /**
   * `commits` counts, per Pod, the restarts that its own goroutines committed; `recovered` holds the keys
   * reserved at startup and not released since.
   */
  datatype Sys = Sys(
    pods: Pods, ipam: Ipam.State, creator: Option<Creator>, deleters: map<nat, Deleter>,
    restarters: map<nat, Restarter>, nextInc: nat, nextThread: nat,
    commits: map<nat, nat>, recovered: set<Key>)

  /* ---- the environment's answers ---- */

  datatype Translation = NotReady | Unsupported | VolumesFailed | Supported

  /** The query for a VM of the Pod's name: there is none, there is one, or it failed, whether one exists or not. */
  datatype Found = Absent | Present(id: string, phase: VmPhase) | QueryFailed(exists_: bool)
  datatype Pull = PullOk | PullArch | PullFailed

  /** The runtime and network answers one launch meets, in call order. */
  datatype LaunchEnv = LaunchEnv(
    found: Found, authOk: bool, pull: Pull, created: Option<string>, startOk: bool,
    podNet: bool, vmIP: IP, attachOk: bool)

  datatype Outcome = Up(id: string, vmIP: IP, attached: bool) | Down | WrongArch

  /** What a launch leads to, the VM it created (`made`), and the VM it destroyed on the way out (`destroyed`). */
  datatype LaunchResult = LaunchResult(outcome: Outcome, made: set<string>, destroyed: set<string>)

  /** The network attach fails: no VM address yet, or the router refuses. */
  predicate AttachFails(podIP: IP, env: LaunchEnv) { env.podNet && podIP != [] && (env.vmIP == [] || !env.attachOk) }

  function Attached(id: string, podIP: IP, env: LaunchEnv): Outcome {
    if env.podNet && podIP != [] then Up(id, env.vmIP, true) else Up(id, [], false)
  }

  /** A recovered VM: started if it was only created, and left alone when the attach fails. */
  function AdoptVM(id: string, phase: VmPhase, podIP: IP, env: LaunchEnv): LaunchResult {
    if (phase == Created && !env.startOk) || AttachFails(podIP, env) then LaunchResult(Down, {}, {})
    else LaunchResult(Attached(id, podIP, env), {}, {})
  }

  /** A new VM: Create hands back one that exists under the name, and any later failure destroys what it handed back. */
  function BuildVM(podIP: IP, env: LaunchEnv): LaunchResult {
    if !env.authOk || env.pull == PullFailed then LaunchResult(Down, {}, {})
    else if env.pull == PullArch then LaunchResult(WrongArch, {}, {})
    else if env.created.None? then LaunchResult(Down, {}, {})
    else
      var id := env.created.value;
      var made := if env.found == QueryFailed(true) then {} else {id};
      if !env.startOk || AttachFails(podIP, env) then LaunchResult(Down, made, {id})
      else LaunchResult(Attached(id, podIP, env), made, {})
  }

  /** A query that fails counts as not found. */
  function LaunchVM(podIP: IP, env: LaunchEnv): LaunchResult {
    match env.found
    case Present(id, phase) => AdoptVM(id, phase, podIP, env)
    case Absent => BuildVM(podIP, env)
    case QueryFailed(_) => BuildVM(podIP, env)
  }

  /** A create that does not end with its VM up leaves none that it made; one that does destroys none. */
  lemma LaunchLeavesNoVM(podIP: IP, env: LaunchEnv)
    ensures var r := LaunchVM(podIP, env);
            && (r.outcome.Up? ==> r.destroyed == {} && r.made <= {r.outcome.id})
            && (!r.outcome.Up? ==> r.made <= r.destroyed)
            && (r.outcome.Up? && r.outcome.attached ==> r.outcome.vmIP != [])
  {
  }

  /**
   * It destroys a VM it did not make if and only if the query for one failed although it exists, Create handed it back,
   * and its start or attach then failed.
   */
  lemma DestroysSurvivorIff(podIP: IP, env: LaunchEnv)
    ensures var r := LaunchVM(podIP, env);
            !(r.destroyed <= r.made) <==>
            && env.found == QueryFailed(true) && env.authOk && env.pull == PullOk && env.created.Some?
            && (!env.startOk || AttachFails(podIP, env))
  {
    var r := LaunchVM(podIP, env);
    if env.created.Some? {
      assert env.created.value in {env.created.value};
    }
  }

  /** As when the runtime is briefly unreachable at the query, and the guest has no address yet. */
  lemma SurvivorDestroyed(podIP: IP, id: string)
    requires podIP != []
    ensures var r := LaunchVM(podIP, LaunchEnv(QueryFailed(true), true, PullOk, Some(id), true, true, [], true));
            r.outcome.Down? && r.made == {} && r.destroyed == {id}
  {
  }

  datatype WorkEnv = WorkEnv(created: Option<string>, startOk: bool, podNet: bool, vmIP: IP, attachOk: bool)

  /** The runtime calls of a restart, summarised by what it hands to its last section. */
  function RestartVM(podIP: IP, env: WorkEnv): RestartPc {
    if env.created.None? || !env.startOk then Finishing(None, false, [])
    else if env.podNet && podIP != [] && env.vmIP != [] && env.attachOk then Finishing(env.created, true, env.vmIP)
    else Finishing(env.created, false, [])
  }

  /* ---- steps ---- */

  datatype Step =
    | CreateBegin(key: Key, spec: PodSpec, tr: Translation)
    | CreateReject
    | CreateReadHad
    | CreateAllocate
    | CreateLaunch(env: LaunchEnv)
    | CreateCommit(obs: seq<Obs>)
    | CreateUnwind
    | DeleteBegin(key: Key)
    | DeleteRelease(thread: nat)
    | DeleteEnd(thread: nat)
    | Observe(key: Key, obs: seq<Obs>)
    | ProbeFailed(key: Key, container: string)
    | StartupPassed(key: Key)
    | ReadinessSet(key: Key, ready: bool)
    | RestartBegin(thread: nat)
    | RestartWork(thread: nat, work: WorkEnv)
    | RestartEnd(thread: nat)
    | RestartReap(thread: nat)

  /** CreatePod steps by the creator standing at the right point, threads at theirs. */
  predicate Enabled(c: Cidr, s: Sys, st: Step) {
    match st
    case CreateBegin(k, spec, tr) => s.creator.None?
    case CreateReject => s.creator.Some? && (s.creator.value.pc.Rejected? || s.creator.value.pc.ArchRejected?)
    case CreateReadHad => s.creator.Some? && s.creator.value.pc.Translated?
    case CreateAllocate =>
      && s.creator.Some? && s.creator.value.pc.HadRead?
      && Ipam.FIRST <= s.ipam.cursor && (s.ipam.cursor == Ipam.FIRST || s.ipam.cursor <= Ipam.Last(c) + 1)
    case CreateLaunch(env) => s.creator.Some? && s.creator.value.pc.Allocated?
    case CreateCommit(obs) =>
      && s.creator.Some? && s.creator.value.pc.Launched?
      && s.creator.value.spec.containers != [] && |s.creator.value.spec.containers| <= |obs|
    case CreateUnwind => s.creator.Some? && s.creator.value.pc.Unwinding?
    case DeleteBegin(k) => true
    case DeleteRelease(t) => t in s.deleters && !s.deleters[t].released
    case DeleteEnd(t) => t in s.deleters && s.deleters[t].released
    case Observe(k, obs) => k in s.pods && s.pods[k].terminal.None? ==> |s.pods[k].containers| <= |obs|
    case ProbeFailed(k, name) => true
    case StartupPassed(k) => true
    case ReadinessSet(k, b) => true
    case RestartBegin(t) => t in s.restarters && s.restarters[t].pc.Backoff?
    case RestartWork(t, w) => t in s.restarters && s.restarters[t].pc.Working?
    case RestartEnd(t) => t in s.restarters && s.restarters[t].pc.Finishing?
    case RestartReap(t) => t in s.restarters && s.restarters[t].pc.Reaping?
  }

  /** `go p.restartWorkload(...)` when the section asked for one. */
  function Spawned(s: Sys, key: Key, inc: nat, spawn: Option<Spawn>): Sys {
    if spawn.None? then s
    else s.(restarters := s.restarters[s.nextThread := Restarter(key, inc, spawn.value.oldId, Backoff)],
            nextThread := s.nextThread + 1)
  }

  function StorePod(s: Sys, key: Key, r: (Pod, Option<Spawn>)): Sys {
    Spawned(s.(pods := s.pods[key := r.0]), key, r.0.inc, r.1)
  }

  function At(s: Sys, pc: CreatePc): Sys
    requires s.creator.Some?
  {
    s.(creator := Some(s.creator.value.(pc := pc)))
  }

  /** Record the sticky failure; a Pod rejected after allocation still has its address to give back. */
  function RejectedPod(s: Sys): Sys
    requires s.creator.Some? && (s.creator.value.pc.Rejected? || s.creator.value.pc.ArchRejected?)
  {
    var cr := s.creator.value;
    var arch := cr.pc.ArchRejected?;
    var reason := if arch then "ImageArchitectureMismatch" else "UnsupportedPodSpec";
    s.(pods := s.pods[cr.key := TerminalPod(s.nextInc, cr.spec, reason, reason)],
       nextInc := s.nextInc + 1,
       creator := if arch then Some(cr.(pc := Unwinding(cr.pc.had))) else None)
  }

  /** Store the launched Pod. */
  function Committed(s: Sys, obs: seq<Obs>): Sys
    requires s.creator.Some? && s.creator.value.pc.Launched?
    requires s.creator.value.spec.containers != [] && |s.creator.value.spec.containers| <= |obs|
  {
    var cr := s.creator.value;
    var p := NewPod(s.nextInc, cr.spec, cr.pc.ip, cr.pc.id, cr.pc.vmIP, cr.pc.attached);
    StorePod(s.(creator := None, nextInc := s.nextInc + 1), cr.key, CommitPod(p, obs))
  }

  predicate IsCreate(st: Step) {
    st.CreateBegin? || st.CreateReject? || st.CreateReadHad? || st.CreateAllocate? || st.CreateLaunch?
    || st.CreateCommit? || st.CreateUnwind?
  }

  /** Entry: a tracked key is a no-op, a Pod whose configuration or volumes are not ready an error. */
  function Begun(s: Sys, k: Key, spec: PodSpec, tr: Translation): Sys {
    var unsupported := tr == Unsupported || |spec.containers| != 1;
    if k in s.pods || (!unsupported && tr != Supported) then s
    else s.(creator := Some(Creator(k, spec, Lookup(s.ipam.byKey, k), if unsupported then Rejected else Translated)))
  }

  function ReadHad(s: Sys): Sys
    requires s.creator.Some?
  {
    At(s, HadRead(s.creator.value.key in s.ipam.byKey))
  }

  function Assigned(c: Cidr, s: Sys): Sys
    requires Enabled(c, s, CreateAllocate)
  {
    var cr := s.creator.value;
    var (r, ipam) := Ipam.AllocateSpec(c, s.ipam, cr.key);
    if r.Exhausted? then s.(creator := None) else At(s.(ipam := ipam), Allocated(cr.pc.had, r.ip))
  }

  function LaunchStep(s: Sys, env: LaunchEnv): Sys
    requires s.creator.Some? && s.creator.value.pc.Allocated?
  {
    var pc := s.creator.value.pc;
    match LaunchVM(pc.ip, env).outcome
    case Up(id, vmIP, attached) => At(s, Launched(pc.had, pc.ip, id, vmIP, attached))
    case Down => At(s, Unwinding(pc.had))
    case WrongArch => At(s, ArchRejected(pc.had))
  }

  /** The deferred release of an address this create assigned. */
  function Unwound(s: Sys): Sys
    requires s.creator.Some? && s.creator.value.pc.Unwinding?
  {
    var cr := s.creator.value;
    if cr.pc.had then s.(creator := None)
    else s.(creator := None, ipam := Ipam.ReleaseSpec(s.ipam, cr.key))
  }

  function NextCreate(c: Cidr, s: Sys, st: Step): Sys
    requires Enabled(c, s, st) && IsCreate(st)
  {
    match st
    case CreateBegin(k, spec, tr) => Begun(s, k, spec, tr)
    case CreateReject => RejectedPod(s)
    case CreateReadHad => ReadHad(s)
    case CreateAllocate => Assigned(c, s)
    case CreateLaunch(env) => LaunchStep(s, env)
    case CreateCommit(obs) => Committed(s, obs)
    case CreateUnwind => Unwound(s)
  }

  function NextDelete(s: Sys, st: Step): Sys
    requires st.DeleteBegin? || (st.DeleteRelease? && st.thread in s.deleters) || st.DeleteEnd?
  {
    match st
    case DeleteBegin(k) =>
      if k !in s.pods then s
      else s.(pods := s.pods - {k}, deleters := s.deleters[s.nextThread := Deleter(k, false)],
              nextThread := s.nextThread + 1)
    case DeleteRelease(t) =>
      var k := s.deleters[t].key;
      s.(ipam := Ipam.ReleaseSpec(s.ipam, k), deleters := s.deleters[t := Deleter(k, true)],
         recovered := s.recovered - {k})
    case DeleteEnd(t) => s.(deleters := s.deleters - {t})
  }

  function NextRestart(s: Sys, st: Step): Sys
    requires st.RestartBegin? || st.RestartWork? || st.RestartEnd? || st.RestartReap?
    requires st.thread in s.restarters
    requires st.RestartWork? ==> s.restarters[st.thread].pc.Working?
    requires st.RestartEnd? ==> s.restarters[st.thread].pc.Finishing?
  {
    var t := st.thread;
    var r := s.restarters[t];
    match st
    case RestartBegin(_) =>
      var u := s.(pods := SnapshotPods(s.pods, r.key));
      if GivesUp(s.pods, r.key) then u.(restarters := u.restarters - {t})
      else u.(restarters := u.restarters[t := r.(pc := Working(s.pods[r.key].status.podIP))])
    case RestartWork(_, w) =>
      s.(restarters := s.restarters[t := r.(pc := RestartVM(r.pc.podIP, w))])
    case RestartEnd(_) =>
      var u := s.(pods := FinishPods(s.pods, r.key, r.oldId, r.pc.newId, r.pc.attached, r.pc.vmIP));
      if r.key !in s.pods then
        if r.pc.newId.None? then u.(restarters := u.restarters - {t})
        else u.(restarters := u.restarters[t := r.(pc := Reaping(r.pc.newId.value))])
      else
        u.(restarters := u.restarters - {t},
           commits := if r.pc.newId.None? then u.commits else u.commits[r.inc := Commits(u, r.inc) + 1])
    case RestartReap(_) => s.(restarters := s.restarters - {t})
  }

  function Commits(s: Sys, inc: nat): nat {
    if inc in s.commits then s.commits[inc] else 0
  }

  predicate Probing(s: Sys, k: Key) { k in s.pods && s.pods[k].probes.Some? }

  function SetProbes(s: Sys, k: Key, flags: ProbeFlags): Sys
    requires k in s.pods
  {
    s.(pods := s.pods[k := s.pods[k].(probes := Some(flags))])
  }

  function Next(c: Cidr, s: Sys, st: Step): Sys
    requires Enabled(c, s, st)
  {
    match st
    case DeleteBegin(_) => NextDelete(s, st)
    case DeleteRelease(_) => NextDelete(s, st)
    case DeleteEnd(_) => NextDelete(s, st)
    case Observe(k, obs) => if k in s.pods then StorePod(s, k, Reconcile(s.pods[k], obs)) else s
    case ProbeFailed(k, name) => if k in s.pods then StorePod(s, k, FailProbe(s.pods[k], name)) else s
    case StartupPassed(k) => if Probing(s, k) then SetProbes(s, k, s.pods[k].probes.value.(startupDone := true)) else s
    case ReadinessSet(k, b) => if Probing(s, k) then SetProbes(s, k, s.pods[k].probes.value.(ready := b)) else s
    case RestartBegin(_) => NextRestart(s, st)
    case RestartWork(_, _) => NextRestart(s, st)
    case RestartEnd(_) => NextRestart(s, st)
    case RestartReap(_) => NextRestart(s, st)
    case _ => NextCreate(c, s, st)
  }

  /* ---- what a step does to one Pod ---- */

  predicate IsDelete(st: Step) { st.DeleteBegin? || st.DeleteRelease? || st.DeleteEnd? }

  predicate IsRestart(st: Step) { st.RestartBegin? || st.RestartWork? || st.RestartEnd? || st.RestartReap? }

  /** The key a status, prober or restart step works on. */
  function StepKey(s: Sys, st: Step): Key
    requires !IsCreate(st) && !IsDelete(st) && (IsRestart(st) ==> st.thread in s.restarters)
  {
    if IsRestart(st) then s.restarters[st.thread].key else st.key
  }

  /** What such a step makes of the Pod it finds there. */
  function PodAfter(s: Sys, st: Step, p: Pod): Pod
    requires !IsCreate(st) && !IsDelete(st) && (IsRestart(st) ==> st.thread in s.restarters)
    requires st.Observe? && p.terminal.None? ==> |p.containers| <= |st.obs|
    requires st.RestartEnd? ==> s.restarters[st.thread].pc.Finishing?
  {
    match st
    case Observe(_, obs) => Reconcile(p, obs).0
    case ProbeFailed(_, name) => FailProbe(p, name).0
    case StartupPassed(_) => if p.probes.None? then p else p.(probes := Some(p.probes.value.(startupDone := true)))
    case ReadinessSet(_, b) => if p.probes.None? then p else p.(probes := Some(p.probes.value.(ready := b)))
    case RestartBegin(_) => if p.terminal.Some? then p.(restarting := false) else StopProbes(p)
    case RestartWork(_, _) => p
    case RestartEnd(x) =>
      var r := s.restarters[x];
      FinishPod(p, r.oldId, r.pc.newId, r.pc.attached, r.pc.vmIP)
    case RestartReap(_) => p
  }

  /** What a step outside CreatePod and DeletePod may change. */
  predicate OnlyPod(s: Sys, st: Step, t: Sys)
    requires !IsCreate(st) && !IsDelete(st) && (IsRestart(st) ==> st.thread in s.restarters)
    requires st.Observe? && st.key in s.pods && s.pods[st.key].terminal.None? ==> |s.pods[st.key].containers| <= |st.obs|
    requires st.RestartEnd? ==> s.restarters[st.thread].pc.Finishing?
  {
    var k := StepKey(s, st);
    && t.pods == (if k in s.pods then s.pods[k := PodAfter(s, st, s.pods[k])] else s.pods)
    && t == s.(pods := t.pods, restarters := t.restarters, nextThread := t.nextThread, commits := t.commits)
    && s.nextThread <= t.nextThread
  }

  lemma RestartEffect(s: Sys, st: Step)
    requires IsRestart(st) && st.thread in s.restarters && (st.RestartWork? ==> s.restarters[st.thread].pc.Working?)
    requires st.RestartEnd? ==> s.restarters[st.thread].pc.Finishing?
    ensures OnlyPod(s, st, NextRestart(s, st))
  {
    var k := s.restarters[st.thread].key;
    if k in s.pods {
      assert s.pods == s.pods[k := s.pods[k]];
    }
  }

  lemma StoreEffect(s: Sys, k: Key, r: (Pod, Option<Spawn>))
    ensures var t := StorePod(s, k, r);
            && t == s.(pods := s.pods[k := r.0], restarters := t.restarters, nextThread := t.nextThread)
            && s.nextThread <= t.nextThread
  {
  }

  /** A step outside CreatePod and DeletePod changes at most the Pod under its key. */
  lemma PodEffect(c: Cidr, s: Sys, st: Step)
    requires Enabled(c, s, st) && !IsCreate(st) && !IsDelete(st)
    ensures var t := Next(c, s, st);
            var k := StepKey(s, st);
            && t.pods == (if k in s.pods then s.pods[k := PodAfter(s, st, s.pods[k])] else s.pods)
            && t == s.(pods := t.pods, restarters := t.restarters, nextThread := t.nextThread, commits := t.commits)
            && s.nextThread <= t.nextThread
  {
    if IsRestart(st) {
      RestartEffect(s, st);
    } else if st.key in s.pods {
      if st.Observe? {
        StoreEffect(s, st.key, Reconcile(s.pods[st.key], st.obs));
      } else if st.ProbeFailed? {
        StoreEffect(s, st.key, FailProbe(s.pods[st.key], st.container));
      } else {
        assert s.pods == s.pods[st.key := s.pods[st.key]];
      }
    }
  }

  /** `t` differs from `s` in the allocator and in where the one creator stands. */
  predicate CreatorOnly(s: Sys, t: Sys) {
    && t == s.(creator := t.creator, ipam := t.ipam)
    && s.creator.Some?
    && (t.creator.Some? ==>
          && t.creator.value == s.creator.value.(pc := t.creator.value.pc)
          && (s.creator.value.pc.Unwinding? ==> t.creator.value.pc.Unwinding?))
  }

  /** Between entry and the storing of a Pod, CreatePod changes only the allocator and its own progress. */
  lemma CreateEffect(c: Cidr, s: Sys, st: Step)
    requires Enabled(c, s, st) && IsCreate(st) && !st.CreateReject? && !st.CreateCommit?
    ensures st.CreateBegin? ==> NextCreate(c, s, st) == Begun(s, st.key, st.spec, st.tr)
    ensures !st.CreateBegin? ==> CreatorOnly(s, NextCreate(c, s, st))
  {
    match st
    case CreateBegin(k, spec, tr) =>
    case CreateReadHad => assert CreatorOnly(s, ReadHad(s));
    case CreateAllocate => assert CreatorOnly(s, Assigned(c, s));
    case CreateLaunch(env) => assert CreatorOnly(s, LaunchStep(s, env));
    case CreateUnwind => assert CreatorOnly(s, Unwound(s));
  }

  /* ---- assumptions on the caller, and runs ---- */

  /** A goroutine that has not yet passed its last lock section. */
  predicate InFlight(s: Sys, t: nat, k: Key) {
    t in s.restarters && s.restarters[t].key == k && !s.restarters[t].pc.Reaping?
  }

  ghost predicate Busy(s: Sys, k: Key) {
    exists t :: InFlight(s, t, k)
  }

  /** Virtual Kubelet's per-key queue: no create and delete of one key at the same time. */
  ghost predicate Serial(s: Sys, st: Step) {
    match st
    case CreateBegin(k, _, _) => forall t :: t in s.deleters ==> s.deleters[t].key != k
    case DeleteBegin(k) => s.creator.None? || s.creator.value.key != k
    case _ => true
  }

  /** No key is created again while a restart of an earlier Pod under it is in flight. */
  ghost predicate Settled(s: Sys, st: Step) {
    st.CreateBegin? ==> !Busy(s, st.key)
  }

  /** Pods arrive without a terminated container status that their policy would restart from. */
  predicate CleanArrival(st: Step) {
    st.CreateBegin? ==> StatusAllowed(EffectivePolicy(st.spec.policy), st.spec.arrived)
  }

  /** Which of the assumptions a run keeps. */
  datatype Assume = Assume(serial: bool, settled: bool, clean: bool)

  ghost predicate Kept(need: Assume, s: Sys, st: Step) {
    && (need.serial ==> Serial(s, st))
    && (need.settled ==> Settled(s, st))
    && (need.clean ==> CleanArrival(st))
  }

  ghost predicate Legal(c: Cidr, need: Assume, s: Sys, steps: seq<Step>)
    decreases |steps|
  {
    steps == [] ||
    (Enabled(c, s, steps[0]) && Kept(need, s, steps[0]) && Legal(c, need, Next(c, s, steps[0]), steps[1..]))
  }

  ghost function Run(c: Cidr, need: Assume, s: Sys, steps: seq<Step>): Sys
    requires Legal(c, need, s, steps)
    decreases |steps|
  {
    if steps == [] then s else Run(c, need, Next(c, s, steps[0]), steps[1..])
  }

  /** A freshly started provider whose allocator holds what recovery reserved. */
  ghost predicate Init(c: Cidr, s: Sys) {
    && c.Valid() && c.width > 0 && Ipam.Inv(c, s.ipam)
    && s == Sys(map[], s.ipam, None, map[], map[], 0, 0, map[], s.ipam.byKey.Keys)
  }
}
