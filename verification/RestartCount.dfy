/**
 * Over every run, with no assumption on the caller: a Pod's restart count is the number of restarts that ended on it
 * after the runtime had created and started their VM, counted from the runtime's answers.
 */
module RestartCount {
  import opened Common
  import opened Net
  import opened Status
  import opened Provider
  import opened Lifecycle
  import L = Launches

  /** The provider with what the runtime answered each restart, and per Pod the restarts that ended well on it. */
  datatype Ledger = Ledger(sys: Sys, answers: map<nat, WorkEnv>, ended: map<nat, nat>)

  /** The restart has a VM that was created and started. */
  predicate Worked(w: WorkEnv) { w.created.Some? && w.startOk }

  function Ended(l: Ledger, inc: nat): nat { if inc in l.ended then l.ended[inc] else 0 }

  /** The last section of a restart whose VM works finds a Pod under its key. */
  predicate EndsWell(l: Ledger, st: Step) {
    && st.RestartEnd? && st.thread in l.sys.restarters && l.sys.restarters[st.thread].key in l.sys.pods
    && st.thread in l.answers && Worked(l.answers[st.thread])
  }

  function Entered(c: Cidr, l: Ledger, st: Step): Ledger
    requires Enabled(c, l.sys, st)
  {
    Ledger(Next(c, l.sys, st),
           if st.RestartWork? then l.answers[st.thread := st.work] else l.answers,
           if EndsWell(l, st) then
             var inc := l.sys.pods[l.sys.restarters[st.thread].key].inc;
             l.ended[inc := Ended(l, inc) + 1]
           else l.ended)
  }

  /* ---- the invariant ---- */

  /** A restart at its last section carries what its answers gave it. */
  predicate Carries(l: Ledger, x: nat)
    requires x in l.sys.restarters && l.sys.restarters[x].pc.Finishing?
  {
    x in l.answers && l.sys.restarters[x].pc.newId == if Worked(l.answers[x]) then l.answers[x].created else None
  }

  predicate Counted(p: Pod, n: nat) { p.containers != [] ==> Count(p.restarts, p.containers[0]) == n }

  ghost predicate Numbered(s: Sys) {
    && (forall k :: k in s.pods ==> s.pods[k].inc < s.nextInc)
    && (forall j, k :: j in s.pods && k in s.pods && j != k ==> s.pods[j].inc != s.pods[k].inc)
  }

  ghost predicate Inv(l: Ledger) {
    && Numbered(l.sys) && (forall i :: i in l.ended ==> i < l.sys.nextInc)
    && (forall k :: k in l.sys.pods ==> Counted(l.sys.pods[k], Ended(l, l.sys.pods[k].inc)))
    && (forall x :: x in l.sys.restarters && l.sys.restarters[x].pc.Finishing? ==> Carries(l, x))
  }

  /* ---- steps that count nothing ---- */

  /** As far as counting goes, the Pod is as it was. */
  predicate SameCount(p: Pod, q: Pod) { q.inc == p.inc && q.restarts == p.restarts && q.containers == p.containers }

  /** Every Pod is one that was there before. */
  ghost predicate SamePods(s: Sys, t: Sys) {
    s.nextInc <= t.nextInc && forall k :: k in t.pods ==> k in s.pods && SameCount(s.pods[k], t.pods[k])
  }

  /** Or it is new and uncounted, under one key. */
  ghost predicate OneNew(s: Sys, t: Sys, k: Key) {
    && k in t.pods && t.pods == s.pods[k := t.pods[k]] && t.pods[k].inc == s.nextInc < t.nextInc
    && t.pods[k].restarts == map[]
  }

  /** No restart reaches its last section. */
  ghost predicate SameEnds(s: Sys, t: Sys) {
    forall x :: x in t.restarters && t.restarters[x].pc.Finishing? ==> x in s.restarters && t.restarters[x] == s.restarters[x]
  }

  ghost predicate Quiet(s: Sys, t: Sys) {
    SameEnds(s, t) && (SamePods(s, t) || exists k :: OneNew(s, t, k))
  }

  lemma SameNumbered(s: Sys, t: Sys)
    requires Numbered(s) && SamePods(s, t)
    ensures Numbered(t)
  {
  }

  lemma NewNumbered(s: Sys, t: Sys, k: Key)
    requires Numbered(s) && OneNew(s, t, k)
    ensures Numbered(t)
  {
  }

  lemma QuietKeeps(l: Ledger, m: Ledger)
    requires Inv(l) && Quiet(l.sys, m.sys) && m.answers == l.answers && m.ended == l.ended
    ensures Inv(m)
  {
    if SamePods(l.sys, m.sys) {
      SameNumbered(l.sys, m.sys);
    } else {
      var k :| OneNew(l.sys, m.sys, k);
      NewNumbered(l.sys, m.sys, k);
    }
  }

  lemma StoreQuiet(s: Sys, k: Key, r: (Pod, Option<Spawn>))
    requires k in s.pods && SameCount(s.pods[k], r.0)
    ensures Quiet(s, StorePod(s, k, r))
  {
  }

  lemma ReconcileCount(p: Pod, obs: seq<Obs>)
    requires p.terminal.None? ==> |p.containers| <= |obs|
    ensures SameCount(p, Reconcile(p, obs).0)
  {
  }

  lemma FailProbeCount(p: Pod, name: string)
    ensures FailProbe(p, name).0.inc == p.inc
    ensures FailProbe(p, name).0.restarts == p.restarts
    ensures FailProbe(p, name).0.containers == p.containers
  {
  }

  lemma PodStepQuiet(c: Cidr, s: Sys, st: Step)
    requires Enabled(c, s, st) && !IsCreate(st) && !IsDelete(st) && !IsRestart(st)
    ensures Quiet(s, Next(c, s, st))
  {
    if st.key in s.pods {
      var p := s.pods[st.key];
      if st.Observe? {
        ReconcileCount(p, st.obs);
        StoreQuiet(s, st.key, Reconcile(p, st.obs));
      } else if st.ProbeFailed? {
        FailProbeCount(p, st.container);
        StoreQuiet(s, st.key, FailProbe(p, st.container));
      } else {
        PodEffect(c, s, st);
      }
    }
  }

  lemma CommitQuiet(s: Sys, obs: seq<Obs>)
    requires s.creator.Some? && s.creator.value.pc.Launched?
    requires s.creator.value.spec.containers != [] && |s.creator.value.spec.containers| <= |obs|
    ensures Quiet(s, Committed(s, obs))
  {
    var cr := s.creator.value;
    var p := NewPod(s.nextInc, cr.spec, cr.pc.ip, cr.pc.id, cr.pc.vmIP, cr.pc.attached);
    CommitCount(p, obs);
    assert OneNew(s, Committed(s, obs), cr.key);
  }

  lemma CommitCount(p: Pod, obs: seq<Obs>)
    requires p.terminal.None? ==> |p.containers| <= |obs|
    ensures CommitPod(p, obs).0.inc == p.inc && CommitPod(p, obs).0.restarts == p.restarts
  {
    ReconcileCount(p, obs);
  }

  lemma CreateQuiet(c: Cidr, s: Sys, st: Step)
    requires Enabled(c, s, st) && IsCreate(st)
    ensures Quiet(s, Next(c, s, st))
  {
    assert Next(c, s, st) == NextCreate(c, s, st);
    if st.CreateCommit? {
      CommitQuiet(s, st.obs);
    } else if st.CreateReject? {
      assert OneNew(s, RejectedPod(s), s.creator.value.key);
    } else {
      CreateEffect(c, s, st);
    }
  }

  lemma RestartQuiet(c: Cidr, s: Sys, st: Step)
    requires Enabled(c, s, st) && (st.RestartBegin? || st.RestartReap?)
    ensures Quiet(s, Next(c, s, st))
  {
    assert Next(c, s, st) == NextRestart(s, st);
  }

  lemma StepQuiet(c: Cidr, s: Sys, st: Step)
    requires Enabled(c, s, st) && !st.RestartWork? && !st.RestartEnd?
    ensures Quiet(s, Next(c, s, st))
  {
    if IsCreate(st) {
      CreateQuiet(c, s, st);
    } else if IsDelete(st) {
      assert Next(c, s, st) == NextDelete(s, st);
    } else if IsRestart(st) {
      RestartQuiet(c, s, st);
    } else {
      PodStepQuiet(c, s, st);
    }
  }

  /* ---- the steps of a restart that matter ---- */

  lemma WorkKeeps(c: Cidr, l: Ledger, st: Step)
    requires Inv(l) && Enabled(c, l.sys, st) && st.RestartWork?
    ensures Inv(Entered(c, l, st))
  {
    assert Next(c, l.sys, st) == NextRestart(l.sys, st);
    L.RestartExact(l.sys.restarters[st.thread].pc.podIP, st.work);
  }

  /** The Pod a restart ends on: counted once more exactly if the restart worked. */
  lemma EndCounts(p: Pod, oldId: string, newId: Option<string>, attached: bool, vmIP: IP, n: nat)
    requires Counted(p, n)
    ensures var q := FinishPod(p, oldId, newId, attached, vmIP);
            q.inc == p.inc && q.containers == p.containers && Counted(q, if newId.Some? then n + 1 else n)
  {
  }

  /** Only the count of the Pod under the key moves. */
  lemma EndFoundKeeps(l: Ledger, m: Ledger, k: Key, q: Pod, worked: bool)
    requires Inv(l) && k in l.sys.pods && m.sys.pods == l.sys.pods[k := q] && m.sys.nextInc == l.sys.nextInc
    requires q.inc == l.sys.pods[k].inc && Counted(q, Ended(l, q.inc) + if worked then 1 else 0)
    requires m.ended == if worked then l.ended[q.inc := Ended(l, q.inc) + 1] else l.ended
    ensures Numbered(m.sys) && forall j :: j in m.sys.pods ==> Counted(m.sys.pods[j], Ended(m, m.sys.pods[j].inc))
  {
    forall j | j in m.sys.pods
      ensures Counted(m.sys.pods[j], Ended(m, m.sys.pods[j].inc))
    {
      if j != k {
        assert l.sys.pods[j].inc != l.sys.pods[k].inc;
      }
    }
  }

  /** `m` is what the last section of the restart `x` makes of `l`. */
  ghost predicate Finishes(l: Ledger, x: nat, m: Ledger)
    requires x in l.sys.restarters && l.sys.restarters[x].pc.Finishing?
  {
    var s, r := l.sys, l.sys.restarters[x];
    && SameEnds(s, m.sys) && m.answers == l.answers && m.sys.nextInc == s.nextInc
    && m.sys.pods == FinishPods(s.pods, r.key, r.oldId, r.pc.newId, r.pc.attached, r.pc.vmIP)
    && m.ended == if EndsWell(l, RestartEnd(x))
                  then l.ended[s.pods[r.key].inc := Ended(l, s.pods[r.key].inc) + 1] else l.ended
  }

  lemma EndIs(c: Cidr, l: Ledger, x: nat)
    requires Enabled(c, l.sys, RestartEnd(x))
    ensures Finishes(l, x, Entered(c, l, RestartEnd(x)))
  {
    assert Next(c, l.sys, RestartEnd(x)) == NextRestart(l.sys, RestartEnd(x));
  }

  lemma FinishesKeeps(l: Ledger, x: nat, m: Ledger)
    requires Inv(l) && x in l.sys.restarters && l.sys.restarters[x].pc.Finishing? && Finishes(l, x, m)
    ensures Inv(m)
  {
    if l.sys.restarters[x].key in l.sys.pods {
      FinishesFound(l, x, m);
    }
  }

  lemma FinishesFound(l: Ledger, x: nat, m: Ledger)
    requires Inv(l) && x in l.sys.restarters && l.sys.restarters[x].pc.Finishing? && Finishes(l, x, m)
    requires l.sys.restarters[x].key in l.sys.pods
    ensures Numbered(m.sys) && forall j :: j in m.sys.pods ==> Counted(m.sys.pods[j], Ended(m, m.sys.pods[j].inc))
  {
    var r := l.sys.restarters[x];
    var p := l.sys.pods[r.key];
    EndCounts(p, r.oldId, r.pc.newId, r.pc.attached, r.pc.vmIP, Ended(l, p.inc));
    assert Carries(l, x);
    EndFoundKeeps(l, m, r.key, m.sys.pods[r.key], EndsWell(l, RestartEnd(x)));
  }

  lemma StepKeeps(c: Cidr, l: Ledger, st: Step)
    requires Inv(l) && Enabled(c, l.sys, st)
    ensures Inv(Entered(c, l, st))
  {
    if st.RestartWork? {
      WorkKeeps(c, l, st);
    } else if st.RestartEnd? {
      EndIs(c, l, st.thread);
      FinishesKeeps(l, st.thread, Entered(c, l, st));
    } else {
      StepQuiet(c, l.sys, st);
      QuietKeeps(l, Entered(c, l, st));
    }
  }

  /* ---- runs ---- */

  predicate LegalRun(c: Cidr, l: Ledger, steps: seq<Step>)
    decreases |steps|
  {
    steps == [] || (Enabled(c, l.sys, steps[0]) && LegalRun(c, Entered(c, l, steps[0]), steps[1..]))
  }

  function RunOf(c: Cidr, l: Ledger, steps: seq<Step>): Ledger
    requires LegalRun(c, l, steps)
    decreases |steps|
  {
    if steps == [] then l else RunOf(c, Entered(c, l, steps[0]), steps[1..])
  }

  lemma {:induction false} RunKeeps(c: Cidr, l: Ledger, steps: seq<Step>)
    requires Inv(l) && LegalRun(c, l, steps)
    ensures Inv(RunOf(c, l, steps))
    decreases |steps|
  {
    if steps != [] {
      StepKeeps(c, l, steps[0]);
      RunKeeps(c, Entered(c, l, steps[0]), steps[1..]);
    }
  }

  /**
   * In every run the restart count of a tracked Pod is the number of restarts that ended on it after Create and Start had
   * both succeeded, and a restart at its last section carries exactly the VM its answers gave it.
   */
  lemma RestartsCounted(c: Cidr, s: Sys, steps: seq<Step>, k: Key)
    requires Init(c, s) && LegalRun(c, Ledger(s, map[], map[]), steps)
    ensures var l := RunOf(c, Ledger(s, map[], map[]), steps);
            && (k in l.sys.pods && l.sys.pods[k].containers != [] ==>
                  Count(l.sys.pods[k].restarts, l.sys.pods[k].containers[0]) == Ended(l, l.sys.pods[k].inc))
            && (forall x :: x in l.sys.restarters && l.sys.restarters[x].pc.Finishing? ==> Carries(l, x))
  {
    RunKeeps(c, Ledger(s, map[], map[]), steps);
  }

  /** What a restart leaves of the Pod it finds, by the answers it got: the new VM in place of the old, or only the flag down. */
  lemma RestartBinds(p: Pod, podIP: IP, oldId: string, w: WorkEnv)
    ensures var r := RestartVM(podIP, w);
            var q := FinishPod(p, oldId, r.newId, r.attached, r.vmIP);
            && !q.restarting && q.status == p.status && q.policy == p.policy && q.terminal == p.terminal && q.declared == p.declared
            && (!Worked(w) ==> q == p.(restarting := false))
            && (Worked(w) ==>
                  && |q.workloads| == |p.workloads|
                  && (forall i :: 0 <= i < |p.workloads| ==>
                        q.workloads[i] == p.workloads[i].(id := if p.workloads[i].id == oldId then w.created.value else p.workloads[i].id))
                  && (q.attached <==> w.podNet && podIP != [] && w.vmIP != [] && w.attachOk)
                  && q.vmIP == if q.attached then w.vmIP else [])
  {
    L.RestartExact(podIP, w);
  }
}
