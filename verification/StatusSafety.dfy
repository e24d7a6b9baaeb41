/** Over every run: restarted Pods never look finished, and a terminal status never changes. */
module StatusSafety {
  import opened Common
  import opened Net
  import opened Status
  import opened Provider
  import opened Lifecycle

  predicate PodStatusOk(p: Pod) {
    match p.terminal
    case None => StatusAllowed(p.policy, p.status.containers) && PhaseAllowed(p.policy, p.status.phase)
    case Some(sticky) => p.status == sticky
  }

  ghost predicate Statuses(s: Sys) {
    && (forall k :: k in s.pods ==> PodStatusOk(s.pods[k]))
    && (s.creator.Some? ==> StatusAllowed(EffectivePolicy(s.creator.value.spec.policy), s.creator.value.spec.arrived))
  }

  /** Pods are added or changed at one key only. */
  predicate PodsAt(a: Pods, b: Pods, k: Key) {
    forall j :: j in b && j != k ==> j in a && b[j] == a[j]
  }

  lemma StatusesAt(s: Sys, t: Sys, k: Key)
    requires Statuses(s) && PodsAt(s.pods, t.pods, k)
    requires k in t.pods ==> PodStatusOk(t.pods[k])
    requires t.creator.Some? && t.creator != s.creator ==>
               StatusAllowed(EffectivePolicy(t.creator.value.spec.policy), t.creator.value.spec.arrived)
    ensures Statuses(t)
  {
  }

  lemma ReconcileStatusOk(p: Pod, obs: seq<Obs>)
    requires p.terminal.None? ==> |p.containers| <= |obs| && StatusAllowed(p.policy, p.status.containers)
    ensures PodStatusOk(Reconcile(p, obs).0) && Reconcile(p, obs).0.terminal == p.terminal
  {
    if p.terminal.None? {
      ReconcileAllowed(p, obs);
    }
  }

  lemma CommitStatuses(s: Sys, obs: seq<Obs>)
    requires Statuses(s) && s.creator.Some? && s.creator.value.pc.Launched?
    requires s.creator.value.spec.containers != [] && |s.creator.value.spec.containers| <= |obs|
    ensures Statuses(Committed(s, obs))
  {
    var cr := s.creator.value;
    ReconcileStatusOk(NewPod(s.nextInc, cr.spec, cr.pc.ip, cr.pc.id, cr.pc.vmIP, cr.pc.attached), obs);
    StatusesAt(s, Committed(s, obs), cr.key);
  }

  lemma RejectStatuses(s: Sys)
    requires Statuses(s) && s.creator.Some? && (s.creator.value.pc.Rejected? || s.creator.value.pc.ArchRejected?)
    ensures Statuses(RejectedPod(s))
  {
    var k := s.creator.value.key;
    assert PodStatusOk(RejectedPod(s).pods[k]);
    StatusesAt(s, RejectedPod(s), k);
  }

  lemma CreateStatuses(c: Cidr, s: Sys, st: Step)
    requires Statuses(s) && Enabled(c, s, st) && CleanArrival(st) && IsCreate(st)
    ensures Statuses(NextCreate(c, s, st))
  {
    if st.CreateReject? {
      RejectStatuses(s);
    } else if st.CreateCommit? {
      CommitStatuses(s, st.obs);
    } else {
      CreateEffect(c, s, st);
    }
  }

  lemma PodAfterOk(s: Sys, st: Step, p: Pod)
    requires !IsCreate(st) && !IsDelete(st) && (IsRestart(st) ==> st.thread in s.restarters)
    requires st.Observe? && p.terminal.None? ==> |p.containers| <= |st.obs|
    requires st.RestartEnd? ==> s.restarters[st.thread].pc.Finishing?
    requires PodStatusOk(p)
    ensures PodStatusOk(PodAfter(s, st, p))
  {
    if st.Observe? {
      ReconcileStatusOk(p, st.obs);
    }
  }

  lemma StepStatuses(c: Cidr, s: Sys, st: Step)
    requires Statuses(s) && Enabled(c, s, st) && CleanArrival(st)
    ensures Statuses(Next(c, s, st))
  {
    if IsCreate(st) {
      CreateStatuses(c, s, st);
    } else if !IsDelete(st) {
      var k := StepKey(s, st);
      PodEffect(c, s, st);
      if k in s.pods {
        PodAfterOk(s, st, s.pods[k]);
      }
      StatusesAt(s, Next(c, s, st), k);
    }
  }

  lemma {:induction false} RunStatuses(c: Cidr, need: Assume, s: Sys, steps: seq<Step>)
    requires Statuses(s) && need.clean && Legal(c, need, s, steps)
    ensures Statuses(Run(c, need, s, steps))
    decreases |steps|
  {
    if steps != [] {
      StepStatuses(c, s, steps[0]);
      RunStatuses(c, need, Next(c, s, steps[0]), steps[1..]);
    }
  }

  /**
   * Over every run in which Pods arrive clean, a live Pod under Always never reports Failed or Succeeded and
   * one under OnFailure never reports Failed, although transient errors replay earlier container statuses.
   */
  lemma RestartedPodsLookAlive(c: Cidr, need: Assume, s: Sys, steps: seq<Step>, k: Key)
    requires Init(c, s) && need.clean && Legal(c, need, s, steps)
    requires k in Run(c, need, s, steps).pods && Run(c, need, s, steps).pods[k].terminal.None?
    ensures var p := Run(c, need, s, steps).pods[k];
            && (p.policy == Always ==> p.status.phase == Pending || p.status.phase == PodRunning)
            && (p.policy == OnFailure ==> p.status.phase != PodFailed)
  {
    RunStatuses(c, need, s, steps);
    assert PodStatusOk(Run(c, need, s, steps).pods[k]);
  }

  /* ---- terminal statuses are sticky ---- */

  /** The creator stores only under an untracked key, and numbers already handed out are in the past. */
  ghost predicate Orderly(s: Sys) {
    && (s.creator.Some? && !s.creator.value.pc.Unwinding? ==> s.creator.value.key !in s.pods)
    && forall k :: k in s.pods ==> s.pods[k].inc < s.nextInc
  }

  /** The Pod numbered `inc` under `k`, where still tracked, has the sticky status `sticky`. */
  predicate Sticky(s: Sys, k: Key, inc: nat, sticky: PodStatus) {
    k in s.pods && s.pods[k].inc == inc ==> s.pods[k].terminal == Some(sticky) && s.pods[k].status == sticky
  }

  lemma FreshPod(s: Sys, obs: seq<Obs>)
    requires s.creator.Some? && s.creator.value.pc.Launched?
    requires s.creator.value.spec.containers != [] && |s.creator.value.spec.containers| <= |obs|
    ensures var t := Committed(s, obs);
            var k := s.creator.value.key;
            && k in t.pods && t.pods == s.pods[k := t.pods[k]] && t.pods[k].inc == s.nextInc
            && t.nextInc == s.nextInc + 1 && t.creator == None
  {
  }

  lemma CreateSticky(c: Cidr, s: Sys, st: Step, k: Key, inc: nat, sticky: PodStatus)
    requires Orderly(s) && Enabled(c, s, st) && IsCreate(st)
    ensures var t := NextCreate(c, s, st);
            && Orderly(t) && s.nextInc <= t.nextInc
            && (inc < s.nextInc && Sticky(s, k, inc, sticky) ==> Sticky(t, k, inc, sticky))
  {
    if st.CreateReject? {
      assert RejectedPod(s).pods[s.creator.value.key].inc == s.nextInc;
    } else if st.CreateCommit? {
      FreshPod(s, st.obs);
    } else {
      CreateEffect(c, s, st);
    }
  }

  /** No step outside CreatePod and DeletePod renumbers a Pod or changes a sticky status. */
  lemma PodAfterSticky(s: Sys, st: Step, p: Pod)
    requires !IsCreate(st) && !IsDelete(st) && (IsRestart(st) ==> st.thread in s.restarters)
    requires st.Observe? && p.terminal.None? ==> |p.containers| <= |st.obs|
    requires st.RestartEnd? ==> s.restarters[st.thread].pc.Finishing?
    ensures var q := PodAfter(s, st, p);
            && q.inc == p.inc
            && (p.terminal.Some? && p.status == p.terminal.value ==> q.terminal == p.terminal && q.status == p.status)
  {
    match st
    case Observe(_, obs) => ReconcileSticky(p, obs);
    case ProbeFailed(_, name) => FailProbeSticky(p, name);
    case _ =>
  }

  lemma ReconcileSticky(p: Pod, obs: seq<Obs>)
    requires p.terminal.None? ==> |p.containers| <= |obs|
    ensures var q := Reconcile(p, obs).0;
            q.inc == p.inc && (p.terminal.Some? && p.status == p.terminal.value ==> q.terminal == p.terminal && q.status == p.status)
  {
  }

  lemma FailProbeSticky(p: Pod, name: string)
    ensures var q := FailProbe(p, name).0; q.inc == p.inc && (p.terminal.Some? ==> q == p)
  {
  }

  lemma StepSticky(c: Cidr, s: Sys, st: Step, k: Key, inc: nat, sticky: PodStatus)
    requires Orderly(s) && Enabled(c, s, st)
    ensures var t := Next(c, s, st);
            && Orderly(t) && s.nextInc <= t.nextInc
            && (inc < s.nextInc && Sticky(s, k, inc, sticky) ==> Sticky(t, k, inc, sticky))
  {
    if IsCreate(st) {
      CreateSticky(c, s, st, k, inc, sticky);
    } else if !IsDelete(st) {
      var j := StepKey(s, st);
      PodEffect(c, s, st);
      if j in s.pods {
        PodAfterSticky(s, st, s.pods[j]);
      }
    }
  }

  lemma {:induction false} RunSticky(c: Cidr, need: Assume, s: Sys, steps: seq<Step>, k: Key, inc: nat, sticky: PodStatus)
    requires Orderly(s) && Legal(c, need, s, steps)
    ensures Orderly(Run(c, need, s, steps))
    ensures inc < s.nextInc && Sticky(s, k, inc, sticky) ==> Sticky(Run(c, need, s, steps), k, inc, sticky)
    decreases |steps|
  {
    if steps != [] {
      StepSticky(c, s, steps[0], k, inc, sticky);
      RunSticky(c, need, Next(c, s, steps[0]), steps[1..], k, inc, sticky);
    }
  }

  /** A terminal Pod shows its terminal status. */
  predicate Shown(p: Pod) { p.terminal.Some? ==> p.status == p.terminal.value }

  ghost predicate AllShown(s: Sys) { forall k :: k in s.pods ==> Shown(s.pods[k]) }

  lemma PodAfterShown(s: Sys, st: Step, p: Pod)
    requires !IsCreate(st) && !IsDelete(st) && (IsRestart(st) ==> st.thread in s.restarters)
    requires st.Observe? && p.terminal.None? ==> |p.containers| <= |st.obs|
    requires st.RestartEnd? ==> s.restarters[st.thread].pc.Finishing?
    requires Shown(p)
    ensures Shown(PodAfter(s, st, p))
  {
  }

  lemma CreateShown(c: Cidr, s: Sys, st: Step)
    requires AllShown(s) && Enabled(c, s, st) && IsCreate(st)
    ensures AllShown(NextCreate(c, s, st))
  {
    if st.CreateCommit? {
      var cr := s.creator.value;
      var p := NewPod(s.nextInc, cr.spec, cr.pc.ip, cr.pc.id, cr.pc.vmIP, cr.pc.attached);
      assert CommitPod(p, st.obs).0.terminal.None?;
      FreshPod(s, st.obs);
    } else if !st.CreateReject? {
      CreateEffect(c, s, st);
    }
  }

  lemma StepShown(c: Cidr, s: Sys, st: Step)
    requires AllShown(s) && Enabled(c, s, st)
    ensures AllShown(Next(c, s, st))
  {
    if IsCreate(st) {
      CreateShown(c, s, st);
    } else if !IsDelete(st) {
      PodEffect(c, s, st);
      var k := StepKey(s, st);
      if k in s.pods {
        PodAfterShown(s, st, s.pods[k]);
      }
    }
  }

  lemma {:induction false} RunShown(c: Cidr, need: Assume, s: Sys, steps: seq<Step>)
    requires AllShown(s) && Legal(c, need, s, steps)
    ensures AllShown(Run(c, need, s, steps))
    decreases |steps|
  {
    if steps != [] {
      StepShown(c, s, steps[0]);
      RunShown(c, need, Next(c, s, steps[0]), steps[1..]);
    }
  }

  /** From any reachable state on, a Pod's terminal status is what it reports until that Pod is deleted. */
  lemma TerminalForever(c: Cidr, need: Assume, s: Sys, past: seq<Step>, future: seq<Step>, k: Key)
    requires Init(c, s) && Legal(c, need, s, past)
    requires var t := Run(c, need, s, past);
             k in t.pods && t.pods[k].terminal.Some? && Legal(c, need, t, future)
    ensures var t := Run(c, need, s, past);
            var u := Run(c, need, t, future);
            k in u.pods && u.pods[k].inc == t.pods[k].inc ==>
              u.pods[k].terminal == t.pods[k].terminal && u.pods[k].status == t.pods[k].terminal.value
  {
    var t := Run(c, need, s, past);
    RunShown(c, need, s, past);
    RunSticky(c, need, s, past, k, 0, BLANK);
    RunSticky(c, need, t, future, k, t.pods[k].inc, t.pods[k].terminal.value);
  }
}
