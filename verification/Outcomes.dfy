/**
 * What a reconciled status says, in terms of what the runtime answered for each container: under every restart policy,
 * which state and exit code a container shows, which phase and address the Pod reports, and which restart is launched.
 */
module Outcomes {
  import opened Common
  import opened Net
  import opened Status

  /* ---- lookups ---- */

  /** Container `i` has a workload. */
  predicate Backed(p: Pod, i: nat)
    requires i < |p.containers|
  {
    exists j :: 0 <= j < |p.workloads| && p.workloads[j].container == p.containers[i]
  }

  /** The workload recorded last under a name is the one that counts. */
  lemma {:induction false} FindExact(ws: seq<Workload>, name: string)
    ensures FindWorkload(ws, name).None? <==> forall j :: 0 <= j < |ws| ==> ws[j].container != name
    ensures FindWorkload(ws, name).Some? ==>
              exists j :: 0 <= j < |ws| && ws[j] == Workload(name, FindWorkload(ws, name).value)
                          && forall k :: j < k < |ws| ==> ws[k].container != name
  {
    if ws != [] {
      var n := |ws| - 1;
      FindExact(ws[..n], name);
      if ws[n].container == name {
        assert ws[n] == Workload(name, ws[n].id);
      }
    }
  }

  /** The status recorded first under a name is the one replayed. */
  lemma {:induction false} PreviousExact(cs: seq<CStatus>, name: string)
    ensures Previous(cs, name).None? <==> forall j :: 0 <= j < |cs| ==> cs[j].name != name
    ensures Previous(cs, name).Some? ==>
              && Previous(cs, name).value.name == name
              && exists j :: 0 <= j < |cs| && cs[j] == Previous(cs, name).value && forall k :: 0 <= k < j ==> cs[k].name != name
  {
    if cs != [] && cs[0].name != name {
      PreviousExact(cs[1..], name);
      if Previous(cs, name).Some? {
        var j :| 0 <= j < |cs[1..]| && cs[1..][j] == Previous(cs, name).value && forall k :: 0 <= k < j ==> cs[1..][k].name != name;
        assert cs[j + 1] == Previous(cs, name).value;
        assert forall k :: 0 < k < j + 1 ==> cs[k] == cs[1..][k - 1];
      }
      assert forall k :: 0 < k < |cs| ==> cs[k] == cs[1..][k - 1];
      assert forall k :: 0 <= k < |cs[1..]| ==> cs[1..][k] == cs[k + 1];
    }
  }

  /* ---- what the answers call for ---- */

  /** The policy brings the container back from what was observed. */
  predicate Revives(policy: Policy, o: Obs) {
    match policy
    case Always => o.NotFound? || (o.Seen? && (o.phase == Stopped || o.phase == Failed))
    case OnFailure => o.NotFound? || (o.Seen? && (o.phase == Failed || (o.phase == Stopped && o.exit != 0)))
    case Never => false
  }

  predicate Revived(p: Pod, obs: seq<Obs>, i: nat)
    requires i < |p.containers| <= |obs|
  {
    Backed(p, i) && Revives(p.policy, obs[i])
  }

  /** The low 32 bits of an exit code are zero. */
  predicate CleanExit(exit: int) { exit % 0x1_0000_0000 == 0 }

  /** `e` is the 32-bit reading of `exit`. */
  predicate Reads32(e: int, exit: int) { -0x8000_0000 <= e < 0x8000_0000 && CleanExit(e - exit) }

  function Recorded(p: Pod, i: nat): Option<CStatus>
    requires i < |p.containers|
  {
    Previous(p.status.containers, p.containers[i])
  }

  predicate FailsNow(p: Pod, obs: seq<Obs>, i: nat)
    requires i < |p.containers| <= |obs|
  {
    Backed(p, i) &&
    match obs[i]
    case NotFound => false
    case Error(_) => Recorded(p, i).Some? && IsFailed(Recorded(p, i).value)
    case Seen(phase, exit, _) => p.policy == Never && (phase == Failed || (phase == Stopped && !CleanExit(exit)))
  }

  predicate DoneNow(p: Pod, obs: seq<Obs>, i: nat)
    requires i < |p.containers| <= |obs|
  {
    Backed(p, i) &&
    match obs[i]
    case NotFound => p.policy == Never
    case Error(_) => Recorded(p, i).Some? && IsDone(Recorded(p, i).value)
    case Seen(phase, exit, _) => phase == Stopped && ((p.policy == Never && CleanExit(exit)) || (p.policy == OnFailure && exit == 0))
  }

  predicate RunsNow(p: Pod, obs: seq<Obs>, i: nat)
    requires i < |p.containers| <= |obs|
  {
    Backed(p, i) &&
    match obs[i]
    case NotFound => false
    case Error(_) => Recorded(p, i).Some? && Recorded(p, i).value.state.Live?
    case Seen(phase, _, _) => phase == Running
  }

  predicate WaitsNow(p: Pod, obs: seq<Obs>, i: nat)
    requires i < |p.containers| <= |obs|
  {
    !Backed(p, i) || Revives(p.policy, obs[i]) ||
    match obs[i]
    case NotFound => false
    case Error(_) => Recorded(p, i).None? || Recorded(p, i).value.state.Waiting?
    case Seen(phase, _, _) => phase == Created || phase == Unknown
  }

  /* ---- one container ---- */

  lemma Int32Reads(x: int)
    ensures Reads32(Int32(x), x) && (Int32(x) == 0 <==> CleanExit(x))
  {
  }

  /** The status container `i` ends up with is the one its own turn of the loop adds. */
  lemma {:induction false} ScanAt(p: Pod, obs: seq<Obs>, n: nat, i: nat)
    requires i < n <= |p.containers| <= |obs|
    ensures ScanN(p, obs, n).statuses[i] == ScanN(p, obs, i + 1).statuses[i]
    decreases n
  {
    if i + 1 < n {
      ScanAt(p, obs, n - 1, i);
      TurnAppends(p, p.containers[n - 1], obs[n - 1], ScanN(p, obs, n - 1));
    }
  }

  lemma TurnAppends(p: Pod, name: string, o: Obs, a: Scan)
    ensures var b := ScanOne(p, name, o, a); |b.statuses| == |a.statuses| + 1 && b.statuses[..|a.statuses|] == a.statuses
  {
  }

  /** What one turn of the loop makes of an answer. */
  lemma TurnShows(p: Pod, obs: seq<Obs>, i: nat)
    requires i < |p.containers| <= |obs|
    ensures var s := ScanN(p, obs, i + 1).statuses[i];
            && (IsFailed(s) <==> FailsNow(p, obs, i)) && (IsDone(s) <==> DoneNow(p, obs, i))
            && (s.state.Live? <==> RunsNow(p, obs, i)) && (s.state.Waiting? <==> WaitsNow(p, obs, i))
  {
    FindExact(p.workloads, p.containers[i]);
    if obs[i].Seen? {
      Int32Reads(obs[i].exit);
    }
  }

  /** Under every policy a container shows failed, done, running or waiting exactly as its answer calls for. */
  lemma ContainerShows(p: Pod, obs: seq<Obs>, i: nat)
    requires i < |p.containers| <= |obs|
    ensures var s := ScanN(p, obs, |p.containers|).statuses[i];
            && (IsFailed(s) <==> FailsNow(p, obs, i)) && (IsDone(s) <==> DoneNow(p, obs, i))
            && (s.state.Live? <==> RunsNow(p, obs, i)) && (s.state.Waiting? <==> WaitsNow(p, obs, i))
  {
    TurnShows(p, obs, i);
    ScanAt(p, obs, |p.containers|, i);
  }

  /** The fields of a container's status beside its kind of state. */
  predicate Details(p: Pod, obs: seq<Obs>, i: nat, s: CStatus)
    requires i < |p.containers| <= |obs|
  {
    && s.name == p.containers[i]
    && (!Backed(p, i) ==> s == CStatus(s.name, "", Waiting("NotCreated"), false, None, 0))
    && (Revived(p, obs, i) ==> s == CStatus(s.name, "", Waiting("CrashLoopBackOff"), false, None, Count(p.restarts, s.name)))
    && (Backed(p, i) && !Revived(p, obs, i) ==>
          match obs[i]
          case NotFound => s == CStatus(s.name, s.id, Terminated(0, "Lost"), false, None, 0) && Some(s.id) == FindWorkload(p.workloads, s.name)
          case Error(_) =>
            if Recorded(p, i).Some? then s == Recorded(p, i).value
            else s == CStatus(s.name, "", Waiting("RuntimeError"), false, None, 0)
          case Seen(phase, exit, _) =>
            && s.restartCount == Count(p.restarts, s.name) && Some(s.id) == FindWorkload(p.workloads, s.name)
            && (s.ready <==> phase == Running) && (s.started == if phase == Running then Some(true) else None)
            && (phase == Created ==> s.state == Waiting("Created")) && (phase == Unknown ==> s.state == Waiting("Unknown"))
            && (phase == Stopped ==> s.state.Terminated? && s.state.reason == "Completed" && Reads32(s.state.exit, exit))
            && (phase == Failed ==> s.state.Terminated? && s.state.reason == "Error" && if CleanExit(exit) then s.state.exit == 1 else Reads32(s.state.exit, exit)))
  }

  lemma SeenDetails(p: Pod, obs: seq<Obs>, i: nat)
    requires i < |p.containers| <= |obs| && obs[i].Seen? && Backed(p, i) && !Revived(p, obs, i)
    ensures Details(p, obs, i, ScanN(p, obs, i + 1).statuses[i])
  {
    var name, o := p.containers[i], obs[i];
    FindExact(p.workloads, name);
    Int32Reads(o.exit);
    var id := FindWorkload(p.workloads, name).value;
    assert ScanN(p, obs, i + 1).statuses[i] == ContainerStatus(name, id, o.phase, o.exit, Count(p.restarts, name));
  }

  lemma ReplayDetails(p: Pod, obs: seq<Obs>, i: nat)
    requires i < |p.containers| <= |obs| && obs[i].Error? && Backed(p, i)
    ensures Details(p, obs, i, ScanN(p, obs, i + 1).statuses[i])
  {
    FindExact(p.workloads, p.containers[i]);
    PreviousExact(p.status.containers, p.containers[i]);
  }

  lemma OtherDetails(p: Pod, obs: seq<Obs>, i: nat)
    requires i < |p.containers| <= |obs| && (!Backed(p, i) || obs[i].NotFound? || Revived(p, obs, i))
    ensures Details(p, obs, i, ScanN(p, obs, i + 1).statuses[i])
  {
    FindExact(p.workloads, p.containers[i]);
    if obs[i].Seen? {
      Int32Reads(obs[i].exit);
    }
  }

  /** The exit code, restart count and workload a container shows are those of its own answer. */
  lemma ContainerDetails(p: Pod, obs: seq<Obs>, i: nat)
    requires i < |p.containers| <= |obs|
    ensures Details(p, obs, i, ScanN(p, obs, |p.containers|).statuses[i])
  {
    if !Backed(p, i) || obs[i].NotFound? || Revived(p, obs, i) {
      OtherDetails(p, obs, i);
    } else if obs[i].Error? {
      ReplayDetails(p, obs, i);
    } else {
      SeenDetails(p, obs, i);
    }
    ScanAt(p, obs, |p.containers|, i);
  }

  /** Where probes are armed, a running container's two flags are what they say; nothing else changes on the way out. */
  lemma StoredContainer(p: Pod, obs: seq<Obs>, i: nat)
    requires p.terminal.None? && i < |p.containers| <= |obs|
    ensures var st, s := Reconcile(p, obs).0.status, ScanN(p, obs, |p.containers|).statuses[i];
            && |st.containers| == |p.containers|
            && var t := st.containers[i];
            && t == s.(ready := t.ready, started := t.started)
            && (p.probes.None? || !s.state.Live? ==> t == s)
            && (p.probes.Some? && s.state.Live? ==>
                  var started := st.phase == PodRunning && (p.probes.value.hasStartup ==> p.probes.value.startupDone);
                  t.started == Some(started) && t.ready == (started && (p.probes.value.hasReadiness ==> p.probes.value.ready)))
  {
  }

  /* ---- the Pod ---- */

  ghost predicate AnyFails(p: Pod, obs: seq<Obs>)
    requires |p.containers| <= |obs|
  {
    exists i :: 0 <= i < |p.containers| && FailsNow(p, obs, i)
  }

  ghost predicate AnyWaits(p: Pod, obs: seq<Obs>)
    requires |p.containers| <= |obs|
  {
    exists i :: 0 <= i < |p.containers| && WaitsNow(p, obs, i)
  }

  ghost predicate AnyRuns(p: Pod, obs: seq<Obs>)
    requires |p.containers| <= |obs|
  {
    exists i :: 0 <= i < |p.containers| && RunsNow(p, obs, i)
  }

  ghost predicate AllDone(p: Pod, obs: seq<Obs>)
    requires |p.containers| <= |obs|
  {
    p.containers != [] && forall i :: 0 <= i < |p.containers| ==> DoneNow(p, obs, i)
  }

  /**
   * Under every policy a Pod reports Failed exactly if some container fails, Succeeded exactly if it has containers and
   * all are done, Running exactly if one runs while none fails or waits, and Pending otherwise.
   */
  lemma PhaseExact(p: Pod, obs: seq<Obs>)
    requires p.terminal.None? && |p.containers| <= |obs|
    ensures var phase := Reconcile(p, obs).0.status.phase;
            && (phase == PodFailed <==> AnyFails(p, obs))
            && (phase == PodSucceeded <==> AllDone(p, obs))
            && (phase == PodRunning <==> AnyRuns(p, obs) && !AnyFails(p, obs) && !AnyWaits(p, obs))
            && (phase == Pending <==> !AnyFails(p, obs) && !AllDone(p, obs) && (AnyWaits(p, obs) || !AnyRuns(p, obs)))
  {
    var n := |p.containers|;
    var ss := ScanN(p, obs, n).statuses;
    forall i | 0 <= i < n
      ensures (IsFailed(ss[i]) <==> FailsNow(p, obs, i)) && (IsDone(ss[i]) <==> DoneNow(p, obs, i))
      ensures (ss[i].state.Live? <==> RunsNow(p, obs, i)) && (ss[i].state.Waiting? <==> WaitsNow(p, obs, i))
    {
      ContainerShows(p, obs, i);
    }
    assert |ss| == n;
  }

  lemma OneContainer(p: Pod, obs: seq<Obs>)
    requires |p.containers| == 1 <= |obs|
    ensures AnyFails(p, obs) <==> FailsNow(p, obs, 0)
    ensures AnyRuns(p, obs) <==> RunsNow(p, obs, 0)
    ensures AnyWaits(p, obs) <==> WaitsNow(p, obs, 0)
    ensures AllDone(p, obs) <==> DoneNow(p, obs, 0)
  {
  }

  /** A one-container Pod under Never: a lost VM counts as a clean exit, a failed one never does. */
  lemma NeverPhase(p: Pod, obs: seq<Obs>)
    requires p.terminal.None? && p.policy == Never && |p.containers| == 1 <= |obs| && Backed(p, 0) && !obs[0].Error?
    ensures var phase := Reconcile(p, obs).0.status.phase;
            if obs[0].NotFound? then phase == PodSucceeded
            else
              match obs[0].phase
              case Running => phase == PodRunning
              case Stopped => phase == if obs[0].exit % 0x1_0000_0000 == 0 then PodSucceeded else PodFailed
              case Failed => phase == PodFailed
              case _ => phase == Pending
  {
    PhaseExact(p, obs);
    OneContainer(p, obs);
  }

  /** And one under OnFailure: only a clean stop ends it, and everything else that ends a VM brings it back. */
  lemma OnFailurePhase(p: Pod, obs: seq<Obs>)
    requires p.terminal.None? && p.policy == OnFailure && |p.containers| == 1 <= |obs| && Backed(p, 0) && !obs[0].Error?
    ensures var phase := Reconcile(p, obs).0.status.phase;
            phase == if obs[0].Seen? && obs[0].phase == Running then PodRunning
                     else if obs[0].Seen? && obs[0].phase == Stopped && obs[0].exit == 0 then PodSucceeded
                     else Pending
  {
    PhaseExact(p, obs);
    OneContainer(p, obs);
  }

  /** The conditions and the reason follow from phase, address, message and readiness. */
  lemma ConditionsExact(p: Pod, obs: seq<Obs>)
    requires p.terminal.None? && |p.containers| <= |obs|
    ensures var st := Reconcile(p, obs).0.status;
            && (st.initialized <==> st.phase != Pending) && (st.containersReady <==> st.podReady)
            && (st.podReady ==> st.reason == "")
            && (st.message != "" <==> st.reason == "RuntimeStatusError")
            && (st.reason == "PodNetworkNotReady" <==> st.message == "" && st.phase == PodRunning && st.podIP == [])
            && (st.reason == "ContainersNotReady" <==>
                  st.message == "" && st.phase == PodRunning && st.podIP != [] && !st.podReady)
  {
  }

  /* ---- address, message and restart ---- */

  /** The address container `i` reports, if it is seen and left alone. */
  function Reports(p: Pod, obs: seq<Obs>, i: nat): IP
    requires i < |p.containers| <= |obs|
  {
    if Backed(p, i) && obs[i].Seen? && !Revived(p, obs, i) then obs[i].ip else []
  }

  lemma TurnAddress(p: Pod, obs: seq<Obs>, n: nat)
    requires 0 < n <= |p.containers| <= |obs|
    ensures var a := ScanN(p, obs, n - 1);
            ScanN(p, obs, n).podIP == if a.podIP == [] then Reports(p, obs, n - 1) else a.podIP
  {
    FindExact(p.workloads, p.containers[n - 1]);
    if obs[n - 1].Seen? {
      Int32Reads(obs[n - 1].exit);
    }
  }

  /** The first of the first `n` containers to report an address reports `ip`. */
  predicate FirstReport(p: Pod, obs: seq<Obs>, n: nat, ip: IP)
    requires n <= |p.containers| <= |obs|
  {
    exists i :: 0 <= i < n && Reports(p, obs, i) == ip && forall k :: 0 <= k < i ==> Reports(p, obs, k) == []
  }

  /** A Pod without an address takes the first one reported; with one it keeps it. */
  lemma {:induction false} AddressExact(p: Pod, obs: seq<Obs>, n: nat)
    requires n <= |p.containers| <= |obs|
    ensures var ip := ScanN(p, obs, n).podIP;
            if p.status.podIP != [] then ip == p.status.podIP
            else if ip == [] then forall i :: 0 <= i < n ==> Reports(p, obs, i) == []
            else FirstReport(p, obs, n, ip)
  {
    if n > 0 {
      AddressExact(p, obs, n - 1);
      TurnAddress(p, obs, n);
      var ip := ScanN(p, obs, n).podIP;
      if p.status.podIP == [] && ScanN(p, obs, n - 1).podIP == [] && ip != [] {
        assert Reports(p, obs, n - 1) == ip;
      }
    }
  }

  lemma TurnMessage(p: Pod, obs: seq<Obs>, n: nat)
    requires 0 < n <= |p.containers| <= |obs|
    ensures ScanN(p, obs, n).message == if Replays(p, obs, n - 1) then obs[n - 1].msg else ScanN(p, obs, n - 1).message
  {
  }

  /** `m` is the message of the last of the first `n` containers whose query failed and was replayed. */
  ghost predicate LastReplay(p: Pod, obs: seq<Obs>, n: nat, m: string)
    requires n <= |p.containers| <= |obs|
  {
    exists i :: 0 <= i < n && Replays(p, obs, i) && obs[i].msg == m && forall k :: i < k < n ==> !Replays(p, obs, k)
  }

  lemma {:induction false} MessageExact(p: Pod, obs: seq<Obs>, n: nat)
    requires n <= |p.containers| <= |obs|
    ensures ScanN(p, obs, n).message != "" ==> LastReplay(p, obs, n, ScanN(p, obs, n).message)
  {
    if n > 0 {
      MessageExact(p, obs, n - 1);
      TurnMessage(p, obs, n);
    }
  }

  lemma TurnSpawn(p: Pod, obs: seq<Obs>, n: nat)
    requires 0 < n <= |p.containers| <= |obs|
    ensures var a, b, name := ScanN(p, obs, n - 1), ScanN(p, obs, n), p.containers[n - 1];
            && (b.restarting <==> a.restarting || Revived(p, obs, n - 1))
            && (!Revived(p, obs, n - 1) || a.restarting ==> b.spawn == a.spawn)
            && (Revived(p, obs, n - 1) && !a.restarting ==>
                  && b.spawn.Some? && b.spawn.value.count == Count(p.restarts, name)
                  && FindWorkload(p.workloads, name) == Some(b.spawn.value.oldId))
  {
    FindExact(p.workloads, p.containers[n - 1]);
    if obs[n - 1].Seen? {
      Int32Reads(obs[n - 1].exit);
    }
  }

  ghost predicate AnyRevived(p: Pod, obs: seq<Obs>, n: nat)
    requires n <= |p.containers| <= |obs|
  {
    exists i :: 0 <= i < n && Revived(p, obs, i)
  }

  /** `spawn` restarts the first of the first `n` containers that are revived. */
  ghost predicate FirstRevived(p: Pod, obs: seq<Obs>, n: nat, spawn: Spawn)
    requires n <= |p.containers| <= |obs|
  {
    exists i :: 0 <= i < n && Revived(p, obs, i) && (forall k :: 0 <= k < i ==> !Revived(p, obs, k))
                && FindWorkload(p.workloads, p.containers[i]) == Some(spawn.oldId)
                && spawn.count == Count(p.restarts, p.containers[i])
  }

  /** A restart is launched for the first container to be revived, with its workload and its count, unless one is in flight. */
  lemma {:induction false} SpawnExact(p: Pod, obs: seq<Obs>, n: nat)
    requires n <= |p.containers| <= |obs|
    ensures var a := ScanN(p, obs, n);
            && (a.restarting <==> p.restarting || AnyRevived(p, obs, n))
            && (a.spawn.Some? <==> !p.restarting && AnyRevived(p, obs, n))
            && (a.spawn.Some? ==> FirstRevived(p, obs, n, a.spawn.value))
  {
    if n > 0 {
      SpawnExact(p, obs, n - 1);
      TurnSpawn(p, obs, n);
      if AnyRevived(p, obs, n - 1) {
        var i :| 0 <= i < n - 1 && Revived(p, obs, i);
        assert 0 <= i < n && Revived(p, obs, i);
      }
    }
  }
}
