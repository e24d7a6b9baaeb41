/** The provider's lock sections: what each one does to the table of tracked Pods. */
module Provider {
  import opened Common
  import opened Net
  import opened Status

  type Key = string

  type Pods = map<Key, Pod>

  /* ---- probes on one Pod ---- */

  function StartProbes(p: Pod): Pod {
    var d := p.declared;
    if p.containers == [] || !d.Any() then p
    else p.(probes := Some(ProbeFlags(!d.startup.NoProbe?, !d.readiness.NoProbe?, !d.liveness.NoProbe?, d.startup.NoProbe?, false)))
  }

  function StopProbes(p: Pod): Pod { p.(probes := None) }

  /* ---- CreatePod ---- */

  /** The part of a Pod object that the provider keeps. */
  datatype PodSpec = PodSpec(containers: seq<string>, declared: Declared, policy: SpecPolicy, arrived: seq<CStatus>)

  const BLANK := PodStatus(Pending, [], "", "", [], false, false, false)

  /** `markTerminalFailure`: a sticky Failed status and nothing else. */
  function TerminalPod(inc: nat, spec: PodSpec, reason: string, message: string): Pod {
    var status := PodStatus(PodFailed, [], message, reason, [], false, false, false);
    Pod(inc, spec.containers, spec.declared, Never, Some(status), status, [], false, map[], [], false, None)
  }

  /** The Pod stored at the end of CreatePod, before its first reconcile. */
  function NewPod(inc: nat, spec: PodSpec, podIP: IP, id: string, vmIP: IP, attached: bool): Pod
    requires spec.containers != []
  {
    Pod(inc, spec.containers, spec.declared, EffectivePolicy(spec.policy), None,
        BLANK.(podIP := podIP, containers := spec.arrived), [Workload(spec.containers[0], id)],
        false, map[], vmIP, attached, None)
  }

  /** The commit section: store, reconcile, and arm the probers of a running Pod. */
  function CommitPod(p: Pod, obs: seq<Obs>): (Pod, Option<Spawn>)
    requires p.terminal.None? ==> |p.containers| <= |obs|
  {
    var (q, spawn) := Reconcile(p, obs);
    (if q.status.phase == PodRunning then StartProbes(q) else q, spawn)
  }

  /* ---- failProbe ---- */

  /** A liveness or startup failure: restart per policy, or fail the Pod for good under Never. */
  function FailProbe(p: Pod, container: string): (Pod, Option<Spawn>) {
    var found := FindWorkload(p.workloads, container);
    var id := if found.Some? then found.value else "";
    if p.terminal.Some? then (p, None)
    else if ShouldRestart(p.policy, 1) then
      (p.(restarting := true), if p.restarting then None else Some(Spawn(id, Count(p.restarts, container))))
    else (FailedPod(p, ProbeFailure(p.status.podIP, if p.containers == [] then "" else p.containers[0], id)), None)
  }

  /** The sticky status of a Pod that a probe has failed. */
  function ProbeFailure(podIP: IP, name: string, id: string): PodStatus {
    PodStatus(PodFailed, podIP, "container failed its liveness/startup probe", "ProbeFailure",
              [CStatus(name, id, Terminated(137, "ProbeFailure"), false, None, 0)], true, false, false)
  }

  function FailedPod(p: Pod, status: PodStatus): Pod { StopProbes(p).(terminal := Some(status), status := status) }

  /* ---- the restart goroutine ---- */

  /** First lock section: give up on a deleted or terminal Pod, otherwise disarm the old probers. */
  function SnapshotPods(pods: Pods, key: Key): Pods {
    if key !in pods then pods
    else if pods[key].terminal.Some? then pods[key := pods[key].(restarting := false)]
    else pods[key := StopProbes(pods[key])]
  }

  predicate GivesUp(pods: Pods, key: Key) {
    key !in pods || pods[key].terminal.Some?
  }

  function SwapIds(ws: seq<Workload>, oldId: string, newId: string): seq<Workload> {
    seq(|ws|, i requires 0 <= i < |ws| => if ws[i].id == oldId then ws[i].(id := newId) else ws[i])
  }

  /** Last lock section, on the Pod it finds under the key. */
  function FinishPod(p: Pod, oldId: string, newId: Option<string>, attached: bool, vmIP: IP): Pod {
    if newId.None? then p.(restarting := false)
    else
      StartProbes(
        p.(restarting := false,
           workloads := SwapIds(p.workloads, oldId, newId.value),
           restarts := if p.containers == [] then p.restarts
                       else p.restarts[p.containers[0] := Count(p.restarts, p.containers[0]) + 1],
           vmIP := vmIP, attached := attached))
  }

  function FinishPods(pods: Pods, key: Key, oldId: string, newId: Option<string>, attached: bool, vmIP: IP): Pods {
    if key in pods then pods[key := FinishPod(pods[key], oldId, newId, attached, vmIP)] else pods
  }

  /** A committed restart moves exactly the containers of the old workload to the new one, which may have its name. */
  lemma FinishRebinds(p: Pod, oldId: string, newId: string, attached: bool, vmIP: IP)
    ensures var ws := FinishPod(p, oldId, Some(newId), attached, vmIP).workloads;
            && (forall w :: w in ws && w.id == oldId ==> newId == oldId)
            && (forall w :: w in p.workloads ==> Workload(w.container, if w.id == oldId then newId else w.id) in ws)
            && |ws| == |p.workloads|
  {
    var q := FinishPod(p, oldId, Some(newId), attached, vmIP);
    forall w | w in p.workloads
      ensures Workload(w.container, if w.id == oldId then newId else w.id) in q.workloads
    {
      var i :| 0 <= i < |p.workloads| && p.workloads[i] == w;
      assert q.workloads[i] == Workload(w.container, if w.id == oldId then newId else w.id);
    }
  }

  /* ---- the object ---- */

  /** A `go p.restartWorkload(...)` that a lock section has issued. */
  datatype Launch = Launch(key: Key, spawn: Spawn)

  class PodTable {
    var pods: Pods
    var launched: seq<Launch>

    /** Store the outcome of a section that may have asked for a restart. */
    ghost predicate Stored(key: Key, before: Pods, was: seq<Launch>, r: (Pod, Option<Spawn>))
      reads this
    {
      && pods == before[key := r.0]
      && launched == was + if r.1.Some? then [Launch(key, r.1.value)] else []
    }

    method MaybeTriggerRestart(key: Key, container: string, oldId: string, exit: int) returns (restarting: bool)
      requires key in pods
      modifies this
      ensures restarting == ShouldRestart(old(pods[key]).policy, exit)
      ensures pods == if restarting then old(pods)[key := old(pods[key]).(restarting := true)] else old(pods)
      ensures launched == old(launched) +
                if restarting && !old(pods[key]).restarting
                then [Launch(key, Spawn(oldId, Count(old(pods[key]).restarts, container)))] else []
    {
      var p := pods[key];
      if !ShouldRestart(p.policy, exit) {
        return false;
      }
      if p.restarting {
        assert pods == pods[key := p.(restarting := true)];
        return true;
      }
      pods := pods[key := p.(restarting := true)];
      launched := launched + [Launch(key, Spawn(oldId, Count(p.restarts, container)))];
      return true;
    }

    /** `reconcileStatus` and the status update of its callers. */
    method GetPodStatus(key: Key, obs: seq<Obs>) returns (status: Option<PodStatus>)
      requires key in pods && pods[key].terminal.None? ==> |pods[key].containers| <= |obs|
      modifies this
      ensures status.Some? <==> key in old(pods)
      ensures key !in old(pods) ==> pods == old(pods) && launched == old(launched)
      ensures key in old(pods) ==> Stored(key, old(pods), old(launched), Reconcile(old(pods[key]), obs))
      ensures status.Some? ==> status.value == pods[key].status
    {
      if key !in pods {
        return None;
      }
      var p := pods[key];
      if p.terminal.Some? {
        pods := pods[key := p.(status := p.terminal.value)];
        return Some(p.terminal.value);
      }
      var a := Scan([], p.restarting, None, "", p.status.podIP);
      var i := 0;
      while i < |p.containers|
        invariant 0 <= i <= |p.containers| && a == ScanN(p, obs, i)
        invariant pods == old(pods) && launched == old(launched)
      {
        a := ScanOne(p, p.containers[i], obs[i], a);
        i := i + 1;
      }
      var q := p.(status := BuildStatus(p, a), restarting := a.restarting);
      pods := pods[key := q];
      if a.spawn.Some? {
        launched := launched + [Launch(key, a.spawn.value)];
      }
      return Some(q.status);
    }

    method FailProbeSection(key: Key, container: string)
      modifies this
      ensures key !in old(pods) ==> pods == old(pods) && launched == old(launched)
      ensures key in old(pods) ==> Stored(key, old(pods), old(launched), FailProbe(old(pods[key]), container))
    {
      if key !in pods {
        return;
      }
      if pods[key].terminal.Some? {
        assert pods == pods[key := pods[key]];
        return;
      }
      var p := pods[key];
      var id := "";
      var i := 0;
      while i < |p.workloads|
        invariant 0 <= i <= |p.workloads|
        invariant var f := FindWorkload(p.workloads[..i], container); id == if f.Some? then f.value else ""
      {
        assert p.workloads[..i + 1][..i] == p.workloads[..i];
        if p.workloads[i].container == container {
          id := p.workloads[i].id;
        }
        i := i + 1;
      }
      assert p.workloads[..|p.workloads|] == p.workloads;
      var triggered := MaybeTriggerRestart(key, container, id, 1);
      if triggered {
        return;
      }
      var name := if |p.containers| > 0 then p.containers[0] else "";
      var failed := CStatus(name, id, Terminated(137, "ProbeFailure"), false, None, 0);
      var status := PodStatus(PodFailed, p.status.podIP, "container failed its liveness/startup probe", "ProbeFailure",
                              [failed], true, false, false);
      pods := pods[key := p.(probes := None, terminal := Some(status), status := status)];
    }

    method RestartSnapshot(key: Key) returns (proceed: bool)
      modifies this
      ensures proceed == !GivesUp(old(pods), key)
      ensures pods == SnapshotPods(old(pods), key) && launched == old(launched)
    {
      if key !in pods || pods[key].terminal.Some? {
        if key in pods {
          pods := pods[key := pods[key].(restarting := false)];
        }
        return false;
      }
      pods := pods[key := StopProbes(pods[key])];
      return true;
    }

    /** Returns the new workload to destroy when the Pod is gone. */
    method FinishRestart(key: Key, oldId: string, newId: Option<string>, attached: bool, vmIP: IP)
      returns (orphan: Option<string>)
      modifies this
      ensures pods == FinishPods(old(pods), key, oldId, newId, attached, vmIP) && launched == old(launched)
      ensures orphan == if key in old(pods) then None else newId
    {
      if key !in pods {
        return newId;
      }
      var p := pods[key].(restarting := false);
      if newId.None? {
        pods := pods[key := p];
        return None;
      }
      var ws := p.workloads;
      var i := 0;
      while i < |ws|
        invariant 0 <= i <= |ws| == |p.workloads|
        invariant forall j :: 0 <= j < i ==> ws[j] == SwapIds(p.workloads, oldId, newId.value)[j]
        invariant forall j :: i <= j < |ws| ==> ws[j] == p.workloads[j]
      {
        if ws[i].id == oldId {
          ws := ws[i := ws[i].(id := newId.value)];
        }
        i := i + 1;
      }
      assert ws == SwapIds(p.workloads, oldId, newId.value);
      p := p.(workloads := ws);
      if |p.containers| > 0 {
        p := p.(restarts := p.restarts[p.containers[0] := Count(p.restarts, p.containers[0]) + 1]);
      }
      p := p.(vmIP := vmIP, attached := attached);
      pods := pods[key := StartProbes(p)];
      return None;
    }

    /** The lock section of DeletePod: forget the Pod, handing its last state to the teardown. */
    method Forget(key: Key) returns (gone: Option<Pod>)
      modifies this
      ensures gone == if key in old(pods) then Some(StopProbes(old(pods[key]))) else None
      ensures pods == old(pods) - {key} && launched == old(launched)
    {
      if key !in pods {
        assert pods == pods - {key};
        return None;
      }
      gone := Some(StopProbes(pods[key]));
      pods := pods - {key};
    }
  }
}
