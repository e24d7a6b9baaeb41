/**
 * What the runtime's answers make of a create and of a restart: which VM the Pod ends up on, when it is terminal, when
 * nothing is left behind, and that a Pod's restart count counts the restarts whose VM was created and started.
 */
module Launches {
  import opened Common
  import opened Net
  import opened Status
  import opened Provider
  import opened Lifecycle
  import Ipam

  /* ---- the answers ---- */

  /** A VM is there to run on: a recovered one that runs or starts, or a new one pulled, created and started. */
  predicate VmRuns(env: LaunchEnv) {
    match env.found
    case Present(_, phase) => phase == Created ==> env.startOk
    case _ => env.authOk && env.pull == PullOk && env.created.Some? && env.startOk
  }

  function VmId(env: LaunchEnv): string
    requires VmRuns(env)
  {
    if env.found.Present? then env.found.id else env.created.value
  }

  /** Where there is a Pod network, it takes the VM in. */
  predicate Joins(podIP: IP, env: LaunchEnv) { env.podNet && podIP != [] ==> env.vmIP != [] && env.attachOk }

  /** Only an image that has to be pulled can be of the wrong architecture. */
  predicate Misfits(env: LaunchEnv) { !env.found.Present? && env.authOk && env.pull == PullArch }

  lemma LaunchExact(podIP: IP, env: LaunchEnv)
    ensures var r := LaunchVM(podIP, env).outcome;
            && (r.Up? <==> VmRuns(env) && Joins(podIP, env)) && (r.WrongArch? <==> Misfits(env))
            && (r.Up? ==> r.id == VmId(env) && (r.attached <==> env.podNet && podIP != [])
                          && r.vmIP == if r.attached then env.vmIP else [])
  {
  }

  /** A restart hands on its new VM exactly if that was created and started, and marks it attached exactly if it was. */
  lemma RestartExact(podIP: IP, w: WorkEnv)
    ensures var r := RestartVM(podIP, w);
            && r.Finishing? && (r.newId.Some? <==> w.created.Some? && w.startOk) && (r.newId.Some? ==> r.newId == w.created)
            && (r.attached <==> r.newId.Some? && w.podNet && podIP != [] && w.vmIP != [] && w.attachOk)
            && r.vmIP == if r.attached then w.vmIP else []
  {
  }

  /* ---- a create on its own ---- */

  predicate CursorOk(c: Cidr, a: Ipam.State) {
    Ipam.FIRST <= a.cursor && (a.cursor == Ipam.FIRST || a.cursor <= Ipam.Last(c) + 1)
  }

  /** From its address on. */
  function LaunchAlone(s: Sys, env: LaunchEnv, obs: seq<Obs>): Sys
    requires s.creator.Some? && s.creator.value.pc.Allocated?
    requires s.creator.value.spec.containers != [] && |s.creator.value.spec.containers| <= |obs|
  {
    var launched := LaunchStep(s, env);
    match launched.creator.value.pc
    case Launched(_, _, _, _, _) => Committed(launched, obs)
    case ArchRejected(_) => Unwound(RejectedPod(launched))
    case _ => Unwound(launched)
  }

  /** The steps of one CreatePod with nothing in between. */
  function CreateAlone(c: Cidr, s: Sys, k: Key, spec: PodSpec, tr: Translation, env: LaunchEnv, obs: seq<Obs>): Sys
    requires s.creator.None? && CursorOk(c, s.ipam) && |spec.containers| <= |obs|
  {
    var begun := Begun(s, k, spec, tr);
    if begun.creator.None? then begun
    else if begun.creator.value.pc.Rejected? then RejectedPod(begun)
    else
      var addressed := Assigned(c, ReadHad(begun));
      if addressed.creator.None? then addressed else LaunchAlone(addressed, env, obs)
  }

  /** The Pod is of a shape this node can never run. */
  predicate Unrunnable(spec: PodSpec, tr: Translation) { tr == Unsupported || |spec.containers| != 1 }

  /** A terminal Pod: Failed for this reason, now and whatever is observed later. */
  predicate FailedFor(p: Pod, reason: string) {
    && p.terminal.Some? && p.terminal.value == p.status && p.status.phase == PodFailed && p.status.reason == reason
    && !p.status.podReady && !p.status.containersReady && !p.status.initialized && p.status.podIP == []
    && p.workloads == [] && !p.attached && !p.restarting && p.restarts == map[] && p.probes.None?
  }

  /** A live Pod on the VM its launch ended with. */
  predicate RunsOn(p: Pod, spec: PodSpec, ip: IP, env: LaunchEnv)
    requires VmRuns(env) && spec.containers != []
  {
    && p.terminal.None? && p.containers == spec.containers && p.declared == spec.declared && p.restarts == map[]
    && p.policy == (if spec.policy.Unset? then Always else spec.policy.policy)
    && p.workloads == [Workload(spec.containers[0], VmId(env))]
    && (p.attached <==> env.podNet && ip != []) && p.vmIP == (if p.attached then env.vmIP else [])
    && (ip != [] ==> p.status.podIP == ip)
  }

  /** What is left of a create that stores no live Pod: nothing but, where it is final, the Failed status. */
  predicate SameBindings(a: Ipam.State, b: Ipam.State) { a.byKey == b.byKey && a.byIP == b.byIP }

  lemma CommitRuns(spec: PodSpec, inc: nat, ip: IP, env: LaunchEnv, obs: seq<Obs>)
    requires VmRuns(env) && spec.containers != [] && |spec.containers| <= |obs|
    ensures var up := env.podNet && ip != [];
            var p := NewPod(inc, spec, ip, VmId(env), if up then env.vmIP else [], up);
            RunsOn(CommitPod(p, obs).0, spec, ip, env) && CommitPod(p, obs).0.inc == inc
  {
    var up := env.podNet && ip != [];
    var p := NewPod(inc, spec, ip, VmId(env), if up then env.vmIP else [], up);
    ScanKeepsIP(p, obs, |p.containers|);
  }

  /** A create that has its address. */
  function Addressed(s: Sys, k: Key, spec: PodSpec, ip: IP, ipam: Ipam.State): Sys {
    s.(creator := Some(Creator(k, spec, Lookup(s.ipam.byKey, k), Allocated(k in s.ipam.byKey, ip))), ipam := ipam)
  }

  lemma Addresses(c: Cidr, s: Sys, k: Key, spec: PodSpec, env: LaunchEnv, obs: seq<Obs>)
    requires s.creator.None? && CursorOk(c, s.ipam) && |spec.containers| == 1 <= |obs| && k !in s.pods
    requires Ipam.AllocateSpec(c, s.ipam, k).0.Got?
    ensures var (r, ipam) := Ipam.AllocateSpec(c, s.ipam, k);
            CreateAlone(c, s, k, spec, Supported, env, obs) == LaunchAlone(Addressed(s, k, spec, r.ip, ipam), env, obs)
  {
    var (r, ipam) := Ipam.AllocateSpec(c, s.ipam, k);
    assert Assigned(c, ReadHad(Begun(s, k, spec, Supported))) == Addressed(s, k, spec, r.ip, ipam);
  }

  lemma LaunchesUp(s: Sys, k: Key, spec: PodSpec, ip: IP, ipam: Ipam.State, env: LaunchEnv, obs: seq<Obs>)
    requires |spec.containers| == 1 <= |obs| && VmRuns(env) && Joins(ip, env)
    ensures var t := LaunchAlone(Addressed(s, k, spec, ip, ipam), env, obs);
            && t.creator.None? && t.ipam == ipam && k in t.pods && t.pods == s.pods[k := t.pods[k]]
            && RunsOn(t.pods[k], spec, ip, env) && t.pods[k].inc == s.nextInc
  {
    LaunchExact(ip, env);
    CommitRuns(spec, s.nextInc, ip, env, obs);
    var a := Addressed(s, k, spec, ip, ipam);
    var launched := LaunchStep(a, env);
    assert launched.creator.value.pc == Launched(k in s.ipam.byKey, ip, VmId(env), if env.podNet && ip != [] then env.vmIP else [], env.podNet && ip != []);
    assert LaunchAlone(a, env, obs) == Committed(launched, obs);
  }

  lemma LaunchesMisfit(s: Sys, k: Key, spec: PodSpec, ip: IP, ipam: Ipam.State, env: LaunchEnv, obs: seq<Obs>)
    requires |spec.containers| == 1 <= |obs| && Misfits(env)
    ensures var t := LaunchAlone(Addressed(s, k, spec, ip, ipam), env, obs);
            && t.creator.None? && t.ipam == (if k in s.ipam.byKey then ipam else Ipam.ReleaseSpec(ipam, k))
            && k in t.pods && t.pods == s.pods[k := t.pods[k]] && FailedFor(t.pods[k], "ImageArchitectureMismatch")
  {
    LaunchExact(ip, env);
    var a := Addressed(s, k, spec, ip, ipam);
    var launched := LaunchStep(a, env);
    assert launched.creator.value.pc == ArchRejected(k in s.ipam.byKey);
    assert LaunchAlone(a, env, obs) == Unwound(RejectedPod(launched));
  }

  lemma LaunchesDown(s: Sys, k: Key, spec: PodSpec, ip: IP, ipam: Ipam.State, env: LaunchEnv, obs: seq<Obs>)
    requires |spec.containers| == 1 <= |obs| && !(VmRuns(env) && Joins(ip, env)) && !Misfits(env)
    ensures var t := LaunchAlone(Addressed(s, k, spec, ip, ipam), env, obs);
            && t.creator.None? && t.ipam == (if k in s.ipam.byKey then ipam else Ipam.ReleaseSpec(ipam, k)) && t.pods == s.pods
  {
    LaunchExact(ip, env);
    var launched := LaunchStep(Addressed(s, k, spec, ip, ipam), env);
    assert launched.creator.value.pc == Unwinding(k in s.ipam.byKey);
  }

  /** A binding that a create made for its key goes with it. */
  lemma GivesBack(c: Cidr, a: Ipam.State, k: Key)
    requires c.Valid() && Ipam.Inv(c, a) && CursorOk(c, a)
    ensures var ipam := Ipam.AllocateSpec(c, a, k).1;
            SameBindings(if k in a.byKey then ipam else Ipam.ReleaseSpec(ipam, k), a)
  {
    if k !in a.byKey {
      Ipam.ReleaseUndoesAllocate(c, a, k);
    }
  }

  /** What a launch comes to, by the answers it gets. */
  predicate LaunchEnds(s: Sys, k: Key, spec: PodSpec, ip: IP, ipam: Ipam.State, env: LaunchEnv, t: Sys)
    requires spec.containers != []
  {
    if VmRuns(env) && Joins(ip, env) then
      k in t.pods && t.pods == s.pods[k := t.pods[k]] && RunsOn(t.pods[k], spec, ip, env) && t.ipam == ipam
    else
      && SameBindings(t.ipam, s.ipam)
      && if Misfits(env)
         then k in t.pods && t.pods == s.pods[k := t.pods[k]] && FailedFor(t.pods[k], "ImageArchitectureMismatch")
         else t.pods == s.pods
  }

  lemma LaunchOutcome(c: Cidr, s: Sys, k: Key, spec: PodSpec, env: LaunchEnv, obs: seq<Obs>)
    requires c.Valid() && Ipam.Inv(c, s.ipam) && CursorOk(c, s.ipam) && s.creator.None? && |spec.containers| == 1 <= |obs|
    requires k !in s.pods && Ipam.AllocateSpec(c, s.ipam, k).0.Got?
    ensures var t, (r, ipam) := CreateAlone(c, s, k, spec, Supported, env, obs), Ipam.AllocateSpec(c, s.ipam, k);
            t.creator.None? && LaunchEnds(s, k, spec, r.ip, ipam, env, t)
  {
    var (r, ipam) := Ipam.AllocateSpec(c, s.ipam, k);
    Addresses(c, s, k, spec, env, obs);
    GivesBack(c, s.ipam, k);
    if VmRuns(env) && Joins(r.ip, env) {
      LaunchesUp(s, k, spec, r.ip, ipam, env, obs);
    } else if Misfits(env) {
      LaunchesMisfit(s, k, spec, r.ip, ipam, env, obs);
    } else {
      LaunchesDown(s, k, spec, r.ip, ipam, env, obs);
    }
  }

  lemma CreateLeft(c: Cidr, s: Sys, k: Key, spec: PodSpec, tr: Translation, env: LaunchEnv, obs: seq<Obs>)
    requires CursorOk(c, s.ipam) && s.creator.None? && |spec.containers| <= |obs|
    requires k in s.pods || (!Unrunnable(spec, tr) && tr != Supported)
    ensures CreateAlone(c, s, k, spec, tr, env, obs) == s
  {
  }

  lemma CreateUnrunnable(c: Cidr, s: Sys, k: Key, spec: PodSpec, tr: Translation, env: LaunchEnv, obs: seq<Obs>)
    requires CursorOk(c, s.ipam) && s.creator.None? && |spec.containers| <= |obs| && k !in s.pods && Unrunnable(spec, tr)
    ensures var t := CreateAlone(c, s, k, spec, tr, env, obs);
            && t.creator.None? && t.ipam == s.ipam
            && k in t.pods && t.pods == s.pods[k := t.pods[k]] && FailedFor(t.pods[k], "UnsupportedPodSpec")
  {
    assert Begun(s, k, spec, tr).creator.value.pc.Rejected?;
  }

  lemma CreateExhausted(c: Cidr, s: Sys, k: Key, spec: PodSpec, env: LaunchEnv, obs: seq<Obs>)
    requires CursorOk(c, s.ipam) && s.creator.None? && |spec.containers| == 1 <= |obs| && k !in s.pods
    requires Ipam.AllocateSpec(c, s.ipam, k).0.Exhausted?
    ensures var t := CreateAlone(c, s, k, spec, Supported, env, obs);
            t.creator.None? && t.pods == s.pods && t.ipam == s.ipam
  {
    assert Assigned(c, ReadHad(Begun(s, k, spec, Supported))).creator.None?;
  }

  /** What a create comes to. */
  predicate CreateEnds(c: Cidr, s: Sys, k: Key, spec: PodSpec, tr: Translation, env: LaunchEnv, t: Sys)
    requires CursorOk(c, s.ipam)
  {
    var (r, ipam) := Ipam.AllocateSpec(c, s.ipam, k);
    if k in s.pods then t == s
    else if Unrunnable(spec, tr) then
      k in t.pods && t.pods == s.pods[k := t.pods[k]] && FailedFor(t.pods[k], "UnsupportedPodSpec") && t.ipam == s.ipam
    else if tr != Supported then t == s
    else if r.Exhausted? then t.pods == s.pods && t.ipam == s.ipam
    else LaunchEnds(s, k, spec, r.ip, ipam, env, t)
  }

  /**
   * CreatePod, by its inputs and the answers it gets: a tracked key is left alone; a shape this node can never run and an
   * image of the wrong architecture are final; a configuration that is not ready, an exhausted pool and a launch that
   * fails leave everything as it was; and otherwise the Pod runs on the VM that was found or made.
   */
  lemma CreateOutcome(c: Cidr, s: Sys, k: Key, spec: PodSpec, tr: Translation, env: LaunchEnv, obs: seq<Obs>)
    requires c.Valid() && Ipam.Inv(c, s.ipam) && CursorOk(c, s.ipam) && s.creator.None? && |spec.containers| <= |obs|
    ensures var t := CreateAlone(c, s, k, spec, tr, env, obs);
            t.creator.None? && CreateEnds(c, s, k, spec, tr, env, t)
  {
    if k in s.pods || (!Unrunnable(spec, tr) && tr != Supported) {
      CreateLeft(c, s, k, spec, tr, env, obs);
    } else if Unrunnable(spec, tr) {
      CreateUnrunnable(c, s, k, spec, tr, env, obs);
    } else if Ipam.AllocateSpec(c, s.ipam, k).0.Exhausted? {
      CreateExhausted(c, s, k, spec, env, obs);
    } else {
      LaunchOutcome(c, s, k, spec, env, obs);
    }
  }
}
