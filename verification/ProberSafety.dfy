/**
 * When no prober can write to flags that are not its own: probers are stopped only while they sleep, and no key is
 * created again while a restart of it is in flight. Ready then means that the Pod's own probes have passed.
 */
module ProberSafety {
  import opened Common
  import opened Net
  import opened Status
  import opened Provider
  import opened Lifecycle
  import opened ProbeWrites
  import opened ReadySafety
  import P = Probe
  import R = RestartSafety

  /** No prober is stopped between waking and its write. */
  predicate Graceful(k: Key, t: Traced, mv: Move) {
    match mv
    case Plain(st) => Stops(t.sys, st, k) ==> t.busy == {}
    case Finish(e) =>
      Probed(t, k) ==>
        var st := Section(k, t.sys.pods[k], Shown(t, k), e);
        st.Some? && Stops(t.sys, st.value, k) ==> t.busy <= {e.kind}
    case _ => true
  }

  ghost predicate GracefulRun(c: Cidr, need: Assume, k: Key, t: Traced, moves: seq<Move>)
    requires TracedLegal(c, need, k, t, moves)
    decreases |moves|
  {
    moves == [] || (Graceful(k, t, moves[0]) && GracefulRun(c, need, k, Moved(c, k, t, moves[0]), moves[1..]))
  }

  /** A restart of the key between its first and its last section. */
  predicate Underway(s: Sys, x: nat, k: Key) {
    x in s.restarters && s.restarters[x].key == k && (s.restarters[x].pc.Working? || s.restarters[x].pc.Finishing?)
  }

  predicate ModeOwn(m: Mode) { m.Armed? ==> AllOwn(m.landings) }

  /** Nothing but the armed probers can write, and no one arms over them. */
  ghost predicate Clean(k: Key, t: Traced) {
    && R.Flags(t.sys) && t.late == multiset{} && t.loose == 0 && ModeOwn(t.mode) && ModeOwn(t.judged)
    && (k !in t.sys.pods ==> t.mode.Idle?)
    && forall x :: Underway(t.sys, x, k) ==> t.mode.Idle?
  }

  /** Probers are never replaced without having been stopped. */
  lemma NeverReplaced(c: Cidr, k: Key, t: Traced, st: Step)
    requires Clean(k, t) && Enabled(c, t.sys, st) && Replaces(t.sys, st, k)
    ensures t.mode.Idle?
  {
    if Rearms(t.sys, st, k) {
      assert Underway(t.sys, st.thread, k);
    }
  }

  /** A restart that is under way after a step was so before, or has just stopped the probers. */
  lemma UnderwayBack(c: Cidr, k: Key, s: Sys, st: Step, x: nat)
    requires Enabled(c, s, st) && Underway(Next(c, s, st), x, k)
    ensures Underway(s, x, k) || (st == RestartBegin(x) && Restarts(s, st, k) && CanRun(s, k))
    ensures st != RestartEnd(x)
  {
    if IsCreate(st) {
      CreateThreads(c, s, st, x);
    } else if IsRestart(st) {
      assert Next(c, s, st) == NextRestart(s, st);
    } else if IsDelete(st) {
      assert Next(c, s, st) == NextDelete(s, st);
    }
  }

  lemma CreateThreads(c: Cidr, s: Sys, st: Step, x: nat)
    requires Enabled(c, s, st) && IsCreate(st)
    requires x in Next(c, s, st).restarters && !Next(c, s, st).restarters[x].pc.Backoff?
    ensures x in s.restarters && s.restarters[x] == Next(c, s, st).restarters[x]
  {
    assert Next(c, s, st) == NextCreate(c, s, st);
    if st.CreateCommit? {
      assert Next(c, s, st) == Committed(s, st.obs);
    } else if !st.CreateReject? {
      CreateEffect(c, s, st);
    }
  }

  lemma InFlightIsBusy(s: Sys, x: nat, k: Key)
    requires InFlight(s, x, k)
    ensures Busy(s, k)
  {
  }

  lemma OneInFlight(s: Sys, x: nat, y: nat, k: Key)
    requires R.Flags(s) && InFlight(s, x, k) && InFlight(s, y, k)
    ensures x == y
  {
  }

  /** A step that leaves a restart of the key under way arms nothing. */
  lemma NotArming(c: Cidr, k: Key, s: Sys, st: Step, x: nat)
    requires R.Flags(s) && Enabled(c, s, st) && Underway(s, x, k) && st != RestartEnd(x)
    ensures !Stores(s, st, k) && !Rearms(s, st, k)
  {
    InFlightIsBusy(s, x, k);
    if Rearms(s, st, k) {
      OneInFlight(s, st.thread, x, k);
    }
  }

  lemma StaysIdle(c: Cidr, k: Key, t: Traced, st: Step)
    requires Enabled(c, t.sys, st) && !Stores(t.sys, st, k) && !Rearms(t.sys, st, k)
    requires t.mode.Idle? || Stops(t.sys, st, k)
    ensures Stepped(c, k, t, st).mode.Idle?
  {
  }

  /** No restart is under way when probers are armed. */
  lemma ArmedAlone(c: Cidr, k: Key, t: Traced, st: Step, x: nat)
    requires Clean(k, t) && Enabled(c, t.sys, st) && Underway(Next(c, t.sys, st), x, k)
    ensures Stepped(c, k, t, st).mode.Idle?
  {
    UnderwayBack(c, k, t.sys, st, x);
    if Underway(t.sys, x, k) {
      NotArming(c, k, t.sys, st, x);
    }
    StaysIdle(c, k, t, st);
  }

  /** A step of the provider keeps late and loose writers away. */
  lemma NoneLeft(c: Cidr, k: Key, t: Traced, st: Step)
    requires Clean(k, t) && Enabled(c, t.sys, st) && (Stops(t.sys, st, k) ==> t.busy == {})
    ensures var u := Stepped(c, k, t, st);
            u.late == multiset{} && u.loose == 0 && ModeOwn(u.mode) && ModeOwn(u.judged)
  {
    if Replaces(t.sys, st, k) {
      NeverReplaced(c, k, t, st);
    }
  }

  lemma SteppedClean(c: Cidr, k: Key, t: Traced, st: Step)
    requires Clean(k, t) && Enabled(c, t.sys, st) && Settled(t.sys, st) && (Stops(t.sys, st, k) ==> t.busy == {})
    requires k !in Next(c, t.sys, st).pods ==> Stepped(c, k, t, st).mode.Idle?
    ensures Clean(k, Stepped(c, k, t, st))
  {
    var u := Stepped(c, k, t, st);
    R.StepKeeps(c, t.sys, st);
    NoneLeft(c, k, t, st);
    forall x | Underway(u.sys, x, k)
      ensures u.mode.Idle?
    {
      ArmedAlone(c, k, t, st, x);
    }
  }

  lemma MovedClean(c: Cidr, need: Assume, k: Key, t: Traced, mv: Move)
    requires need.settled && Inv(k, t) && Clean(k, t) && Allowed(c, need, k, t, mv) && Graceful(k, t, mv)
    ensures Clean(k, Moved(c, k, t, mv))
  {
    MovedInv(c, k, t, mv);
    match mv
    case Plain(st) => SteppedClean(c, k, t, st);
    case Begin(_) =>
    case Finish(e) =>
      var u, st := Counted(k, t, e), Section(k, t.sys.pods[k], Shown(t, k), e);
      assert Clean(k, u);
      if st.Some? {
        SectionFlags(k, t.sys.pods[k], Shown(t, k), e);
        SteppedClean(c, k, u, st.value);
      }
  }

  /** In a settled and graceful run every write since arming is the armed probers' own. */
  lemma {:induction false} NoForeign(c: Cidr, need: Assume, k: Key, t: Traced, moves: seq<Move>)
    requires need.settled && Inv(k, t) && Clean(k, t)
    requires TracedLegal(c, need, k, t, moves) && GracefulRun(c, need, k, t, moves)
    ensures Clean(k, TracedRun(c, need, k, t, moves))
    decreases |moves|
  {
    if moves != [] {
      MovedClean(c, need, k, t, moves[0]);
      MovedInv(c, k, t, moves[0]);
      NoForeign(c, need, k, Moved(c, k, t, moves[0]), moves[1..]);
    }
  }

  /** The declared probes have passed on these outcomes. */
  ghost predicate PassedOn(d: Declared, es: seq<P.Event>) {
    var r := P.Run(d, es);
    && (d.startup.Active? ==> true in r.startup && !P.Failed(d.startup, r.startup))
    && (d.startup.Ignored? ==> r.startupOver)
    && (d.readiness.Active? ==> P.EarnedReady(d.readiness, r.readiness)) && !d.readiness.Ignored?
  }

  lemma OwnPassed(d: Declared, ls: seq<Landing>)
    requires AllOwn(ls)
    ensures Passed(d, ls) <==> PassedOn(d, Events(ls))
  {
    OwnTrace(d, ls);
    P.TraceExact(d, Events(ls));
  }

  /**
   * In every settled and graceful run, Ready stored by a reconcile that found probers is exactly a running, addressed Pod
   * whose startup probe succeeded before its failure threshold and whose last decisive run of readiness outcomes was one
   * of successes; and the flags are those of the outcomes since arming.
   */
  lemma ReadyIsEarned(c: Cidr, need: Assume, k: Key, s: Sys, moves: seq<Move>)
    requires Init(c, s) && need.settled && TracedLegal(c, need, k, Unprobed(s), moves)
    requires GracefulRun(c, need, k, Unprobed(s), moves) && CanRun(TracedRun(c, need, k, Unprobed(s), moves).sys, k)
    ensures var t := TracedRun(c, need, k, Unprobed(s), moves);
            var p := t.sys.pods[k];
            && ModeOwn(t.mode) && ModeOwn(t.judged)
            && (p.status.podReady <==>
                && p.status.phase == PodRunning && p.status.podIP != [] && p.status.message == ""
                && (t.judged.Armed? ==> PassedOn(p.declared, Events(t.judged.landings))))
            && (t.mode.Armed? ==> p.probes == Some(P.Flags(p.declared, P.Run(p.declared, Events(t.mode.landings)))))
  {
    ReadyExact(c, need, k, s, moves);
    TracedInv(c, need, k, Unprobed(s), moves);
    NoForeign(c, need, k, Unprobed(s), moves);
    var t := TracedRun(c, need, k, Unprobed(s), moves);
    var p := t.sys.pods[k];
    if t.judged.Armed? {
      OwnPassed(p.declared, t.judged.landings);
    }
    if t.mode.Armed? {
      OwnTrace(p.declared, t.mode.landings);
    }
  }
}
