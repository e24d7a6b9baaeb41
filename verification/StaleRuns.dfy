/** Runs in which probers are armed and Ready still does not follow the Pod's own probes. */
module StaleRuns {
  import opened Common
  import opened Net
  import opened Status
  import opened Provider
  import opened Lifecycle
  import opened ProbeWrites
  import opened ReadySafety
  import opened ReadyRuns
  import B = Boundaries
  import P = Probe
  import Ipam

  ghost predicate Traces(k: Key, t: Traced) {
    exists moves :: TracedLegal(B.TINY, ALL, k, Unprobed(B.FRESH), moves)
                    && TracedRun(B.TINY, ALL, k, Unprobed(B.FRESH), moves) == t
  }

  lemma {:induction false} TracedOn(k: Key, t: Traced, a: seq<Move>, mv: Move)
    requires TracedLegal(B.TINY, ALL, k, t, a) && Allowed(B.TINY, ALL, k, TracedRun(B.TINY, ALL, k, t, a), mv)
    ensures TracedLegal(B.TINY, ALL, k, t, a + [mv])
    ensures TracedRun(B.TINY, ALL, k, t, a + [mv]) == Moved(B.TINY, k, TracedRun(B.TINY, ALL, k, t, a), mv)
    decreases |a|
  {
    if a == [] {
      var u := Moved(B.TINY, k, t, mv);
      assert a + [mv] == [mv] && [mv][1..] == [];
      assert TracedLegal(B.TINY, ALL, k, u, []) && TracedRun(B.TINY, ALL, k, u, []) == u;
    } else {
      assert (a + [mv])[1..] == a[1..] + [mv];
      TracedOn(k, Moved(B.TINY, k, t, a[0]), a[1..], mv);
    }
  }

  lemma TraceThen(k: Key, t: Traced, mv: Move)
    requires Traces(k, t) && Allowed(B.TINY, ALL, k, t, mv)
    ensures Traces(k, Moved(B.TINY, k, t, mv))
  {
    var a :| TracedLegal(B.TINY, ALL, k, Unprobed(B.FRESH), a) && TracedRun(B.TINY, ALL, k, Unprobed(B.FRESH), a) == t;
    TracedOn(k, Unprobed(B.FRESH), a, mv);
  }

  /** No prober has done anything yet. */
  predicate Silent(t: Traced) {
    && t.busy == {} && t.late == multiset{}
    && (t.mode.Armed? ==> t.mode.landings == []) && (t.judged.Armed? ==> t.judged.landings == [])
  }

  lemma {:induction false} Plainly(k: Key, t: Traced, steps: seq<Step>) returns (u: Traced)
    requires Traces(k, t) && Silent(t) && Legal(B.TINY, ALL, t.sys, steps) && B.Unprobed(steps)
    ensures Traces(k, u) && Silent(u) && u.sys == Run(B.TINY, ALL, t.sys, steps)
    decreases |steps|
  {
    if steps == [] {
      return t;
    }
    var mv := Plain(steps[0]);
    TraceThen(k, t, mv);
    u := Plainly(k, Moved(B.TINY, k, t, mv), steps[1..]);
  }

  /** A run of the provider in which no prober acts is one with traces. */
  lemma Lift(k: Key, s: Sys) returns (u: Traced)
    requires B.Reaches(B.TINY, ALL, B.FRESH, s)
    ensures Traces(k, u) && Silent(u) && Inv(k, u) && u.sys == s
  {
    var start, none := Unprobed(B.FRESH), [];
    assert TracedLegal(B.TINY, ALL, k, start, none) && TracedRun(B.TINY, ALL, k, start, none) == start;
    var steps :| Legal(B.TINY, ALL, B.FRESH, steps) && B.Unprobed(steps) && Run(B.TINY, ALL, B.FRESH, steps) == s;
    u := Plainly(k, start, steps);
    TracesInv(k, u);
  }

  lemma TracesInv(k: Key, t: Traced)
    requires Traces(k, t)
    ensures Inv(k, t)
  {
    var a :| TracedLegal(B.TINY, ALL, k, Unprobed(B.FRESH), a) && TracedRun(B.TINY, ALL, k, Unprobed(B.FRESH), a) == t;
    TracedInv(B.TINY, ALL, k, Unprobed(B.FRESH), a);
  }

  /* ---- a Pod with probers ---- */

  /** Created, running, with probers that have done nothing. */
  lemma Armed0(k: Key, spec: PodSpec) returns (t: Traced)
    requires spec.containers == ["app"] && spec.declared.Any() && spec.policy == Set(Always) && spec.arrived == []
    ensures Init(B.TINY, B.FRESH) && Traces(k, t) && Silent(t) && t.mode == Armed([])
    ensures k in t.sys.pods && Steady(t.sys.pods[k]) && t.sys.pods[k].declared == spec.declared
    ensures !t.sys.pods[k].restarting && t.sys.restarters == map[] && t.sys.nextThread == 0
  {
    CreateProbed(k, spec, B.ALIVE);
    var ip := Ipam.AllocateSpec(B.TINY, B.FRESH.ipam, k).0.ip;
    var made, s := B.Made(0, spec, ip), B.Stored(B.TINY, B.FRESH, k, spec, B.ALIVE);
    AliveRuns(made);
    assert s.pods[k] == CommitPod(made, B.ALIVE).0;
    t := Lift(k, s);
  }

  /* ---- a readiness probe whose handler is not supported ---- */

  const UNSUPPORTED := B.PLAIN.(declared := Declared(NoProbe, Ignored, NoProbe))

  /** Running with an address, judged by a reconcile that found its probers, and not Ready. */
  predicate StuckUnready(k: Key, t: Traced) {
    && CanRun(t.sys, k) && t.judged.Armed? && t.sys.pods[k].declared.readiness.Ignored?
    && t.sys.pods[k].status.phase == PodRunning && t.sys.pods[k].status.podIP != [] && t.sys.pods[k].status.message == ""
    && !t.sys.pods[k].status.podReady
  }

  lemma SeenAlive(k: Key, t: Traced) returns (u: Traced)
    requires Traces(k, t) && k in t.sys.pods && Steady(t.sys.pods[k])
    ensures Traces(k, u) && Inv(k, u) && u.mode == t.mode && u.judged == t.mode && CanRun(u.sys, k)
    ensures var p, q := t.sys.pods[k], u.sys.pods[k];
            && q == p.(status := q.status) && Steady(q) && q.status.phase == PodRunning && q.status.message == ""
  {
    AliveRuns(t.sys.pods[k]);
    var st := Observe(k, B.ALIVE);
    TraceThen(k, t, Plain(st));
    u := Stepped(B.TINY, k, t, st);
    PodEffect(B.TINY, t.sys, st);
    TracesInv(k, u);
  }

  lemma IgnoredNeverReady()
    ensures Init(B.TINY, B.FRESH) && exists k, t :: Traces(k, t) && StuckUnready(k, t)
  {
    var k := "default/web";
    var t := Armed0(k, UNSUPPORTED);
    var u := SeenAlive(k, t);
    assert Landed(UNSUPPORTED.declared, []) == P.Start(UNSUPPORTED.declared);
    assert StuckUnready(k, u);
  }

  /* ---- a write that arrives after its VM is gone ---- */

  /** Ready, judged by a reconcile that found probers, none of which has made an attempt since they were armed. */
  predicate ReadyByStale(k: Key, t: Traced) {
    && CanRun(t.sys, k) && t.sys.pods[k].declared.readiness.Active? && t.sys.pods[k].status.podReady
    && t.mode.Armed? && t.judged == t.mode && t.mode.landings == [Foreign(ReadyWrite(true))]
  }

  lemma Attempting(k: Key, t: Traced) returns (u: Traced)
    requires Traces(k, t) && Silent(t) && t.mode == Armed([]) && k in t.sys.pods
    ensures Traces(k, u) && u == t.(busy := {P.Readiness})
  {
    TracesInv(k, t);
    TraceThen(k, t, Begin(P.Readiness));
    u := Moved(B.TINY, k, t, Begin(P.Readiness));
  }

  /** The VM is lost while a readiness attempt is in progress. */
  lemma LostMidAttempt(k: Key, t: Traced) returns (u: Traced)
    requires Traces(k, t) && k in t.sys.pods && IsProbed(t.sys.pods[k])
    requires !t.sys.pods[k].restarting && t.sys.restarters == map[] && t.sys.nextThread == 0
    ensures Traces(k, u) && u.busy == t.busy && u.late == t.late && u.mode == t.mode
    ensures k in u.sys.pods && IsProbed(u.sys.pods[k]) && Alone(k, u.sys, Backoff)
  {
    var st, p := Observe(k, [NotFound]), t.sys.pods[k];
    TraceThen(k, t, Plain(st));
    u := Stepped(B.TINY, k, t, st);
    GoneRestarts(p);
    assert u.sys == StorePod(t.sys, k, Reconcile(p, [NotFound]));
  }

  /** The one restart there is stands at `pc`. */
  predicate Alone(k: Key, s: Sys, pc: RestartPc) {
    s.restarters.Keys == {0} && s.restarters[0].key == k && s.restarters[0].pc == pc
  }

  lemma StoppedMidAttempt(k: Key, t: Traced) returns (u: Traced)
    requires Traces(k, t) && t.busy == {P.Readiness} && t.late == multiset{}
    requires k in t.sys.pods && IsProbed(t.sys.pods[k]) && Alone(k, t.sys, Backoff)
    ensures Traces(k, u) && u.mode.Idle? && P.Readiness in u.late
    ensures k in u.sys.pods && IsProbed(u.sys.pods[k]) && Alone(k, u.sys, Working(u.sys.pods[k].status.podIP))
  {
    var st := RestartBegin(0);
    TraceThen(k, t, Plain(st));
    u := Stepped(B.TINY, k, t, st);
    assert u.sys == NextRestart(t.sys, st);
  }

  lemma Rebuilt(k: Key, t: Traced) returns (u: Traced)
    requires Traces(k, t) && t.mode.Idle? && P.Readiness in t.late
    requires k in t.sys.pods && IsProbed(t.sys.pods[k]) && Alone(k, t.sys, Working(t.sys.pods[k].status.podIP))
    ensures Traces(k, u) && u.mode.Idle? && P.Readiness in u.late
    ensures k in u.sys.pods && IsProbed(u.sys.pods[k]) && Alone(k, u.sys, Finishing(Some("vm"), false, []))
  {
    var st := RestartWork(0, WorkEnv(Some("vm"), true, false, [], false));
    TraceThen(k, t, Plain(st));
    u := Stepped(B.TINY, k, t, st);
    assert u.sys == NextRestart(t.sys, st);
  }

  lemma Rearmed(k: Key, t: Traced) returns (u: Traced)
    requires Traces(k, t) && t.mode.Idle? && P.Readiness in t.late
    requires k in t.sys.pods && IsProbed(t.sys.pods[k]) && Alone(k, t.sys, Finishing(Some("vm"), false, []))
    ensures Traces(k, u) && u.mode == Armed([]) && P.Readiness in u.late
    ensures k in u.sys.pods && IsProbed(u.sys.pods[k])
  {
    var st, p := RestartEnd(0), t.sys.pods[k];
    TraceThen(k, t, Plain(st));
    u := Stepped(B.TINY, k, t, st);
    assert u.sys == NextRestart(t.sys, st);
    var q := u.sys.pods[k];
    SwapFinds(p.workloads, t.sys.restarters[0].oldId, "vm", "app");
    assert q.workloads == SwapIds(p.workloads, t.sys.restarters[0].oldId, "vm");
  }

  lemma {:induction false} SwapFinds(ws: seq<Workload>, oldId: string, newId: string, name: string)
    ensures FindWorkload(SwapIds(ws, oldId, newId), name).Some? <==> FindWorkload(ws, name).Some?
  {
    if ws != [] {
      var n := |ws| - 1;
      SwapFinds(ws[..n], oldId, newId, name);
      assert SwapIds(ws, oldId, newId)[..n] == SwapIds(ws[..n], oldId, newId);
    }
  }

  lemma LandsLate(k: Key, t: Traced) returns (u: Traced)
    requires Traces(k, t) && t.mode == Armed([]) && P.Readiness in t.late && k in t.sys.pods && IsProbed(t.sys.pods[k])
    ensures Traces(k, u) && ReadyByStale(k, u)
  {
    var w, d := ReadyWrite(true), PROBED.declared;
    TracesInv(k, t);
    TraceThen(k, t, Late(w));
    var v := Moved(B.TINY, k, t, Late(w));
    PodEffect(B.TINY, t.sys, WriteStep(k, w));
    LandedStep(d, [], Foreign(w));
    assert [] + [Foreign(w)] == [Foreign(w)];
    assert v.mode == Armed([Foreign(w)]);
    u := SeenAlive(k, v);
  }

  lemma StaleRun(k: Key) returns (t: Traced)
    ensures Init(B.TINY, B.FRESH) && Traces(k, t) && ReadyByStale(k, t)
  {
    t := Armed0(k, PROBED);
    t := Attempting(k, t);
    t := LostMidAttempt(k, t);
    t := StoppedMidAttempt(k, t);
    t := Rebuilt(k, t);
    t := Rearmed(k, t);
    t := LandsLate(k, t);
  }

  /** The answer of the dead VM lands on the new one's flags, and the next reconcile believes it. */
  lemma StaleWriteReady()
    ensures Init(B.TINY, B.FRESH) && exists k, t :: Traces(k, t) && ReadyByStale(k, t)
  {
    var t := StaleRun("default/web");
  }
}
