/** How a Pod's status is rebuilt from what the runtime reports, and when a restart is asked for. */
module Status {
  import opened Common
  import opened Net

  datatype Policy = Always | OnFailure | Never

  /** The restart policy as written in the Pod; an unset one means Always. */
  datatype SpecPolicy = Unset | Set(policy: Policy)

  function EffectivePolicy(p: SpecPolicy): Policy {
    match p
    case Unset => Always
    case Set(q) => q
  }

  datatype VmPhase = Unknown | Created | Running | Stopped | Failed

  type ErrText = s: string | s != "" witness "error"

  /** The runtime's answer to a Status query; an empty address means none. */
  datatype Obs = NotFound | Error(msg: ErrText) | Seen(phase: VmPhase, exit: int, ip: IP)

  datatype CState = NoState | Waiting(reason: string) | Live | Terminated(exit: int, reason: string)

  datatype CStatus = CStatus(name: string, id: string, state: CState, ready: bool, started: Option<bool>, restartCount: nat)

  datatype PodPhase = Pending | PodRunning | PodSucceeded | PodFailed

  datatype PodStatus = PodStatus(
    phase: PodPhase, podIP: IP, message: string, reason: string, containers: seq<CStatus>,
    initialized: bool, containersReady: bool, podReady: bool)

  datatype Workload = Workload(container: string, id: string)

  /** A probe of the container: none, one with a handler that is not supported, or one with its raw threshold fields. */
  datatype ProbeDef = NoProbe | Ignored | Active(success: int, failure: int)

  /** The probes the container declares. */
  datatype Declared = Declared(startup: ProbeDef, readiness: ProbeDef, liveness: ProbeDef) {
    predicate Any() { !startup.NoProbe? || !readiness.NoProbe? || !liveness.NoProbe? }
  }

  datatype ProbeFlags = ProbeFlags(hasStartup: bool, hasReadiness: bool, hasLiveness: bool, startupDone: bool, ready: bool)

  /** One tracked Pod. `inc` tells apart successive Pods stored under the same key. */
  datatype Pod = Pod(
    inc: nat, containers: seq<string>, declared: Declared, policy: Policy, terminal: Option<PodStatus>,
    status: PodStatus, workloads: seq<Workload>, restarting: bool, restarts: map<string, nat>,
    vmIP: IP, attached: bool, probes: Option<ProbeFlags>)

  /** A restart goroutine to launch: the dead workload and how many restarts the backoff counts. */
  datatype Spawn = Spawn(oldId: string, count: nat)

  function Count(restarts: map<string, nat>, name: string): nat {
    if name in restarts then restarts[name] else 0
  }

  /* ---- restart decisions ---- */

  predicate ShouldRestart(policy: Policy, exit: int) {
    match policy
    case Always => true
    case OnFailure => exit != 0
    case Never => false
  }

  /** Go's conversion to int32. */
  function Int32(x: int): int {
    (x + 0x8000_0000) % 0x1_0000_0000 - 0x8000_0000
  }

  function NonZero(code: int): int { if code == 0 then 1 else code }

  const RESTART_BACKOFF_MAX: int := 300_000_000_000

  /** Go's wrap-around doubling of a 64-bit duration. */
  function Double64(d: int): int {
    (2 * d + 0x8000_0000_0000_0000) % 0x1_0000_0000_0000_0000 - 0x8000_0000_0000_0000
  }

  lemma Double64Fits(d: int)
    requires 0 <= d < 0x4000_0000_0000_0000
    ensures Double64(d) == 2 * d
  {
  }

  function Scaled(base: int, count: nat): int {
    if count == 0 then base else 2 * Scaled(base, count - 1)
  }

  lemma {:induction false} ScaledGrows(base: int, i: nat, j: nat)
    requires 0 <= base && i <= j
    ensures 0 <= Scaled(base, i) <= Scaled(base, j)
  {
    if i < j {
      ScaledGrows(base, i, j - 1);
    } else if i > 0 {
      ScaledGrows(base, i - 1, j - 1);
    }
  }

  function Backoff(base: int, count: nat): int {
    if count > 0 && Scaled(base, count) >= RESTART_BACKOFF_MAX then RESTART_BACKOFF_MAX else Scaled(base, count)
  }

  const SECOND: int := 1_000_000_000

  /** From the default of ten seconds: 10, 20, 40, 80, 160 seconds, and five minutes from the sixth restart on. */
  lemma DefaultBackoff(count: nat)
    ensures Backoff(10 * SECOND, 0) == 10 * SECOND && Backoff(10 * SECOND, 1) == 20 * SECOND
    ensures Backoff(10 * SECOND, 2) == 40 * SECOND && Backoff(10 * SECOND, 3) == 80 * SECOND
    ensures Backoff(10 * SECOND, 4) == 160 * SECOND
    ensures count >= 5 ==> Backoff(10 * SECOND, count) == 300 * SECOND
  {
    var base := 10 * SECOND;
    assert Scaled(base, 1) == 2 * base && Scaled(base, 2) == 4 * base && Scaled(base, 3) == 8 * base;
    assert Scaled(base, 4) == 16 * base && Scaled(base, 5) == 32 * base;
    if count >= 5 {
      ScaledGrows(base, 5, count);
    }
  }

  /** The delay before a restart: the base doubled once per completed restart, capped at five minutes. */
  method RestartBackoff(base: int, count: nat) returns (d: int)
    requires -0x8000_0000_0000_0000 <= base < 0x8000_0000_0000_0000
    ensures 0 <= base < 0x4000_0000_0000_0000 ==> d == Backoff(base, count)
  {
    d := base;
    var i := 0;
    while i < count
      invariant 0 <= i <= count
      invariant 0 <= base < 0x4000_0000_0000_0000 ==> d == Scaled(base, i) && (i > 0 ==> d < RESTART_BACKOFF_MAX)
    {
      if 0 <= base < 0x4000_0000_0000_0000 {
        ScaledGrows(base, 0, i);
        Double64Fits(d);
      }
      d := Double64(d);
      if d >= RESTART_BACKOFF_MAX {
        if 0 <= base < 0x4000_0000_0000_0000 {
          ScaledGrows(base, i + 1, count);
        }
        return RESTART_BACKOFF_MAX;
      }
      i := i + 1;
    }
  }

  /* ---- one container ---- */

  function FindWorkload(ws: seq<Workload>, name: string): Option<string> {
    if ws == [] then None
    else if ws[|ws| - 1].container == name then Some(ws[|ws| - 1].id)
    else FindWorkload(ws[..|ws| - 1], name)
  }

  function Previous(cs: seq<CStatus>, name: string): (r: Option<CStatus>)
    ensures r.Some? ==> r.value in cs
  {
    if cs == [] then None else if cs[0].name == name then Some(cs[0]) else Previous(cs[1..], name)
  }

  function WaitingStatus(name: string, reason: string): CStatus {
    CStatus(name, "", Waiting(reason), false, None, 0)
  }

  function RestartingStatus(name: string, count: nat): CStatus {
    CStatus(name, "", Waiting("CrashLoopBackOff"), false, None, count)
  }

  function LostStatus(name: string, id: string): CStatus {
    CStatus(name, id, Terminated(0, "Lost"), false, None, 0)
  }

  function ContainerStatus(name: string, id: string, phase: VmPhase, exit: int, count: nat): CStatus {
    match phase
    case Running => CStatus(name, id, Live, true, Some(true), count)
    case Stopped => CStatus(name, id, Terminated(Int32(exit), "Completed"), false, None, count)
    case Failed => CStatus(name, id, Terminated(NonZero(Int32(exit)), "Error"), false, None, count)
    case Created => CStatus(name, id, Waiting("Created"), false, None, count)
    case Unknown => CStatus(name, id, Waiting("Unknown"), false, None, count)
  }

  /** The exit code a terminated workload is judged by. */
  function JudgedExit(phase: VmPhase, exit: int): int {
    if phase == Failed then NonZero(Int32(exit)) else exit
  }

  /** What the container loop has accumulated so far. */
  datatype Scan = Scan(statuses: seq<CStatus>, restarting: bool, spawn: Option<Spawn>, message: string, podIP: IP)

  /** `maybeTriggerRestart` once the policy has agreed: launch only when nothing is in flight. */
  function Trigger(p: Pod, name: string, id: string, a: Scan): Scan {
    a.(statuses := a.statuses + [RestartingStatus(name, Count(p.restarts, name))],
       restarting := true,
       spawn := if a.restarting then a.spawn else Some(Spawn(id, Count(p.restarts, name))))
  }

  function ScanOne(p: Pod, name: string, o: Obs, a: Scan): Scan {
    match FindWorkload(p.workloads, name)
    case None => a.(statuses := a.statuses + [WaitingStatus(name, "NotCreated")])
    case Some(id) =>
      match o
      case NotFound =>
        if ShouldRestart(p.policy, 1) then Trigger(p, name, id, a)
        else a.(statuses := a.statuses + [LostStatus(name, id)])
      case Error(msg) =>
        (match Previous(p.status.containers, name)
         case Some(prev) => a.(statuses := a.statuses + [prev], message := msg)
         case None => a.(statuses := a.statuses + [WaitingStatus(name, "RuntimeError")]))
      case Seen(phase, exit, ip) =>
        if (phase == Stopped || phase == Failed) && ShouldRestart(p.policy, JudgedExit(phase, exit)) then
          Trigger(p, name, id, a)
        else
          a.(statuses := a.statuses + [ContainerStatus(name, id, phase, exit, Count(p.restarts, name))],
             podIP := if a.podIP == [] then ip else a.podIP)
  }

  function ScanN(p: Pod, obs: seq<Obs>, n: nat): (a: Scan)
    requires n <= |p.containers| <= |obs|
    ensures |a.statuses| == n
  {
    if n == 0 then Scan([], p.restarting, None, "", p.status.podIP)
    else ScanOne(p, p.containers[n - 1], obs[n - 1], ScanN(p, obs, n - 1))
  }

  /* ---- the Pod phase ---- */

  predicate IsFailed(s: CStatus) { s.state.Terminated? && s.state.exit != 0 }
  predicate IsDone(s: CStatus) { s.state.Terminated? && s.state.exit == 0 }

  /** The kubelet's aggregation rules, by precedence. */
  function AggregatePhase(ss: seq<CStatus>): PodPhase {
    if exists i :: 0 <= i < |ss| && IsFailed(ss[i]) then PodFailed
    else if exists i :: 0 <= i < |ss| && ss[i].state.Waiting? then Pending
    else if exists i :: 0 <= i < |ss| && ss[i].state.Live? then PodRunning
    else if ss != [] && forall i :: 0 <= i < |ss| ==> IsDone(ss[i]) then PodSucceeded
    else Pending
  }

  /** The counting loop computes the aggregation rules. */
  method ComputePhase(ss: seq<CStatus>) returns (phase: PodPhase)
    ensures phase == AggregatePhase(ss)
  {
    if |ss| == 0 {
      return Pending;
    }
    var running, succeeded, failed, waiting := 0, 0, 0, 0;
    var i := 0;
    while i < |ss|
      invariant 0 <= i <= |ss|
      invariant failed >= 0 && waiting >= 0 && running >= 0 && 0 <= succeeded <= i
      invariant failed > 0 <==> exists j :: 0 <= j < i && IsFailed(ss[j])
      invariant waiting > 0 <==> exists j :: 0 <= j < i && ss[j].state.Waiting?
      invariant running > 0 <==> exists j :: 0 <= j < i && ss[j].state.Live?
      invariant succeeded == i <==> forall j :: 0 <= j < i ==> IsDone(ss[j])
    {
      var s := ss[i];
      match s.state {
        case Waiting(_) => waiting := waiting + 1;
        case Live => running := running + 1;
        case Terminated(exit, _) =>
          if exit == 0 {
            succeeded := succeeded + 1;
          } else {
            failed := failed + 1;
          }
        case NoState =>
      }
      i := i + 1;
    }
    if failed > 0 {
      return PodFailed;
    } else if waiting > 0 {
      return Pending;
    } else if running > 0 {
      return PodRunning;
    } else if succeeded == |ss| {
      return PodSucceeded;
    } else {
      return Pending;
    }
  }

  /* ---- the whole status ---- */

  /** (started, ready) as the probes see them. */
  function ProbeReadiness(probes: Option<ProbeFlags>, phase: PodPhase): (bool, bool) {
    var running := phase == PodRunning;
    if probes.None? || !running then (running, running)
    else
      var ps := probes.value;
      var started := if ps.hasStartup then ps.startupDone else running;
      (started, if !started then false else if ps.hasReadiness then ps.ready else true)
  }

  function WithProbes(s: CStatus, started: bool, ready: bool): CStatus {
    if s.state.Live? then s.(ready := ready, started := Some(started)) else s
  }

  function OverlayProbes(ss: seq<CStatus>, probes: Option<ProbeFlags>, started: bool, ready: bool): seq<CStatus> {
    if probes.None? then ss else seq(|ss|, i requires 0 <= i < |ss| => WithProbes(ss[i], started, ready))
  }

  function BuildStatus(p: Pod, a: Scan): PodStatus {
    var phase := AggregatePhase(a.statuses);
    var (started, probeReady) := ProbeReadiness(p.probes, phase);
    var ready := probeReady && a.podIP != [];
    var reason :=
      if a.message != "" then "RuntimeStatusError"
      else if phase == PodRunning && a.podIP == [] then "PodNetworkNotReady"
      else if phase == PodRunning && !ready then "ContainersNotReady"
      else "";
    PodStatus(phase, a.podIP, a.message, reason,
              OverlayProbes(a.statuses, p.probes, started, probeReady),
              phase != Pending, ready && reason == "", ready && reason == "")
  }

  /** `reconcileStatus`: the updated Pod, and the restart to launch if one was triggered. */
  function Reconcile(p: Pod, obs: seq<Obs>): (r: (Pod, Option<Spawn>))
    requires p.terminal.None? ==> |p.containers| <= |obs|
  {
    match p.terminal
    case Some(sticky) => (p.(status := sticky), None)
    case None =>
      var a := ScanN(p, obs, |p.containers|);
      (p.(status := BuildStatus(p, a), restarting := a.restarting), a.spawn)
  }

  /* ---- what a reconcile guarantees ---- */

  /** A restart is launched exactly when the flag goes up, so never while one is in flight. */
  lemma {:induction false} SpawnRaisesFlag(p: Pod, obs: seq<Obs>, n: nat)
    requires n <= |p.containers| <= |obs|
    ensures var a := ScanN(p, obs, n);
            && (p.restarting ==> a.restarting)
            && (a.spawn.Some? <==> a.restarting && !p.restarting)
            && (a.spawn.Some? ==> p.policy != Never)
  {
    if n > 0 {
      SpawnRaisesFlag(p, obs, n - 1);
    }
  }

  /** An assigned Pod IP is never replaced by the address the runtime reports. */
  lemma {:induction false} ScanKeepsIP(p: Pod, obs: seq<Obs>, n: nat)
    requires n <= |p.containers| <= |obs|
    ensures p.status.podIP != [] ==> ScanN(p, obs, n).podIP == p.status.podIP
  {
    if n > 0 {
      ScanKeepsIP(p, obs, n - 1);
    }
  }

  /** The state a replayed or fresh container status carries never breaks the restart policy. */
  predicate StateAllowed(policy: Policy, s: CState) {
    match policy
    case Always => !s.Terminated?
    case OnFailure => s.Terminated? ==> s.exit == 0
    case Never => true
  }

  predicate StatusAllowed(policy: Policy, ss: seq<CStatus>) {
    forall i :: 0 <= i < |ss| ==> StateAllowed(policy, ss[i].state)
  }

  /** Phases a live Pod may report under its policy. */
  predicate PhaseAllowed(policy: Policy, phase: PodPhase) {
    match policy
    case Always => phase != PodFailed && phase != PodSucceeded
    case OnFailure => phase != PodFailed
    case Never => true
  }

  /** Container `i` hits a transient error and replays its previous status. */
  predicate Replays(p: Pod, obs: seq<Obs>, i: nat)
    requires i < |p.containers| <= |obs|
  {
    && FindWorkload(p.workloads, p.containers[i]).Some? && obs[i].Error?
    && Previous(p.status.containers, p.containers[i]).Some?
  }

  /** Container `i` replays a status the policy forbids. */
  predicate ReplaysBad(p: Pod, obs: seq<Obs>, i: nat)
    requires i < |p.containers| <= |obs|
  {
    Replays(p, obs, i) && !StateAllowed(p.policy, Previous(p.status.containers, p.containers[i]).value.state)
  }

  /** Container `i` hits a transient error and replays a failed exit. */
  predicate ReplaysFailed(p: Pod, obs: seq<Obs>, i: nat)
    requires i < |p.containers| <= |obs|
  {
    Replays(p, obs, i) && IsFailed(Previous(p.status.containers, p.containers[i]).value)
  }

  /** A container's state is forbidden by the policy exactly when it replays a forbidden status. */
  predicate ExactlyReplays(p: Pod, obs: seq<Obs>, i: nat, status: CStatus)
    requires i < |p.containers| <= |obs|
  {
    && (StateAllowed(p.policy, status.state) <==> !ReplaysBad(p, obs, i))
    && (p.policy != Never ==> (IsFailed(status) <==> ReplaysFailed(p, obs, i)))
  }

  lemma ScanLast(p: Pod, obs: seq<Obs>, n: nat)
    requires 0 < n <= |p.containers| <= |obs|
    ensures ScanN(p, obs, n).statuses[..n - 1] == ScanN(p, obs, n - 1).statuses
    ensures ExactlyReplays(p, obs, n - 1, ScanN(p, obs, n).statuses[n - 1])
  {
  }

  lemma {:induction false} ScanAllowedIff(p: Pod, obs: seq<Obs>, n: nat)
    requires n <= |p.containers| <= |obs|
    ensures forall i :: 0 <= i < n ==> ExactlyReplays(p, obs, i, ScanN(p, obs, n).statuses[i])
  {
    if n > 0 {
      ScanAllowedIff(p, obs, n - 1);
      ScanLast(p, obs, n);
      var a, b := ScanN(p, obs, n - 1), ScanN(p, obs, n);
      assert forall i :: 0 <= i < n - 1 ==> b.statuses[i] == b.statuses[..n - 1][i];
    }
  }

  lemma OverlayKeepsStates(ss: seq<CStatus>, probes: Option<ProbeFlags>, started: bool, ready: bool)
    ensures var t := OverlayProbes(ss, probes, started, ready);
            |t| == |ss| && forall i :: 0 <= i < |ss| ==> t[i].state == ss[i].state && t[i].name == ss[i].name
  {
  }

  lemma PhaseFromStates(policy: Policy, ss: seq<CStatus>)
    requires StatusAllowed(policy, ss)
    ensures PhaseAllowed(policy, AggregatePhase(ss))
  {
    if policy == Always && ss != [] {
      assert !IsDone(ss[0]);
    }
  }

  /**
   * Under a policy that restarts failures, a live Pod reports Failed exactly when a transient error
   * replays a failed exit it was already carrying.
   */
  lemma FailedIff(p: Pod, obs: seq<Obs>)
    requires p.policy != Never && p.terminal.None? && |p.containers| <= |obs|
    ensures Reconcile(p, obs).0.status.phase == PodFailed <==>
            exists i :: 0 <= i < |p.containers| && ReplaysFailed(p, obs, i)
  {
    var n := |p.containers|;
    var ss := ScanN(p, obs, n).statuses;
    ScanAllowedIff(p, obs, n);
    forall i | 0 <= i < n
      ensures IsFailed(ss[i]) <==> ReplaysFailed(p, obs, i)
    {
      assert ExactlyReplays(p, obs, i, ss[i]);
    }
  }

  /** Container `i` hits a transient error and replays a clean exit. */
  predicate ReplaysDone(p: Pod, obs: seq<Obs>, i: nat)
    requires i < |p.containers| <= |obs|
  {
    Replays(p, obs, i) && IsDone(Previous(p.status.containers, p.containers[i]).value)
  }

  /** Under Always it reports Succeeded exactly when every container replays a clean exit. */
  lemma SucceededIff(p: Pod, obs: seq<Obs>)
    requires p.policy == Always && p.terminal.None? && |p.containers| <= |obs|
    ensures Reconcile(p, obs).0.status.phase == PodSucceeded <==>
            p.containers != [] && forall i :: 0 <= i < |p.containers| ==> ReplaysDone(p, obs, i)
  {
    var n := |p.containers|;
    var ss := ScanN(p, obs, n).statuses;
    ScanAllowedIff(p, obs, n);
    forall i | 0 <= i < n
      ensures IsDone(ss[i]) <==> ReplaysDone(p, obs, i)
    {
      assert ExactlyReplays(p, obs, i, ss[i]);
    }
    assert n > 0 ==> (IsDone(ss[0]) ==> !ss[0].state.Waiting? && !ss[0].state.Live?);
  }

  /** A reconcile of a live Pod whose recorded states respect the policy reports an allowed phase and keeps it so. */
  lemma ReconcileAllowed(p: Pod, obs: seq<Obs>)
    requires p.terminal.None? && |p.containers| <= |obs|
    requires StatusAllowed(p.policy, p.status.containers)
    ensures PhaseAllowed(p.policy, Reconcile(p, obs).0.status.phase)
    ensures StatusAllowed(p.policy, Reconcile(p, obs).0.status.containers)
  {
    var n := |p.containers|;
    var a := ScanN(p, obs, n);
    forall i | 0 <= i < n
      ensures !ReplaysBad(p, obs, i)
    {
    }
    ScanAllowedIff(p, obs, n);
    PhaseFromStates(p.policy, a.statuses);
    var (started, ready) := ProbeReadiness(p.probes, AggregatePhase(a.statuses));
    OverlayKeepsStates(a.statuses, p.probes, started, ready);
  }

  /** The Ready condition, in the words of the endpoint contract. */
  lemma PodReadyIff(p: Pod, obs: seq<Obs>)
    requires p.terminal.None? && |p.containers| <= |obs|
    ensures var st := Reconcile(p, obs).0.status;
            st.podReady <==>
              && st.phase == PodRunning && st.podIP != [] && st.message == ""
              && (p.probes.Some? ==>
                    && (p.probes.value.hasStartup ==> p.probes.value.startupDone)
                    && (p.probes.value.hasReadiness ==> p.probes.value.ready))
  {
  }

  /** The message is set exactly when some container's status query failed and was replayed. */
  lemma {:induction false} MessageIff(p: Pod, obs: seq<Obs>, n: nat)
    requires n <= |p.containers| <= |obs|
    ensures ScanN(p, obs, n).message != "" <==>
            exists i :: 0 <= i < n && Replays(p, obs, i)
  {
    if n > 0 {
      MessageIff(p, obs, n - 1);
      assert ScanN(p, obs, n).message != "" <==>
             ScanN(p, obs, n - 1).message != "" || Replays(p, obs, n - 1);
    }
  }
}
