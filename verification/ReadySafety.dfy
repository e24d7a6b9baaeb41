/**
 * Over every run: what a Pod's Ready condition says about its probes. A stored status is gated by the probes that were
 * armed when it was stored, and by nothing when none were.
 */
module ReadySafety {
  import opened Common
  import opened Net
  import opened Status
  import opened Provider
  import opened Lifecycle
  import opened ProbeWrites
  import P = Probe

  /* ---- runs with what lands on one key's flags ---- */

  /**
   * Why a Pod has no probers: it declares none, it is being stored, its first reconcile did not see it run, a restart has
   * stopped them and none has committed since, or the Pod is deleted or failed.
   */
  datatype Why = NothingDeclared | AtCommit | NeverArmed | MidRestart | Gone

  /** What has landed on the flags since the probers were armed, or why there are none. */
  datatype Mode = Armed(landings: seq<Landing>) | Idle(why: Why)

  /**
   * `mode` is the probers of the key's Pod, `judged` what the reconcile that stored its status found them to be. `busy` are
   * the probers between waking and the write of their attempt, `late` those that were stopped there, and `loose` counts
   * the arms that were replaced without being stopped.
   */
  datatype Traced = Traced(sys: Sys, mode: Mode, judged: Mode, busy: set<P.Kind>, late: multiset<P.Kind>, loose: nat)

  /**
   * A step of the provider; an attempt beginning, and ending in its write; a write of a prober armed before; such a prober
   * leaving without one.
   */
  datatype Move = Plain(st: Step) | Begin(kind: P.Kind) | Finish(e: P.Event) | Late(w: Write) | Quit(kind: P.Kind)

  function IdleFor(d: Declared, why: Why): Mode { Idle(if d.Any() then why else NothingDeclared) }

  /** `startProbes` returns early on a Pod with no container or no probe. */
  predicate CanArm(p: Pod) { p.containers != [] && p.declared.Any() }

  predicate Stores(s: Sys, st: Step, k: Key) { st.CreateCommit? && s.creator.Some? && s.creator.value.key == k }

  predicate Rejects(s: Sys, st: Step, k: Key) { st.CreateReject? && s.creator.Some? && s.creator.value.key == k }

  predicate CanRun(s: Sys, k: Key) { k in s.pods && s.pods[k].terminal.None? }

  predicate Restarts(s: Sys, st: Step, k: Key) {
    IsRestart(st) && st.thread in s.restarters && s.restarters[st.thread].key == k && k in s.pods
  }

  /** A restart that commits calls `startProbes` on the Pod it finds. */
  predicate Rearms(s: Sys, st: Step, k: Key) {
    && Restarts(s, st, k) && st.RestartEnd? && s.restarters[st.thread].pc.Finishing?
    && s.restarters[st.thread].pc.newId.Some? && CanArm(s.pods[k])
  }

  /** The Pod is forgotten, or failed for good by a probe. */
  predicate Ends(s: Sys, st: Step, k: Key) {
    || (st == DeleteBegin(k) && k in s.pods)
    || (st.ProbeFailed? && st.key == k && CanRun(s, k) && s.pods[k].policy == Never)
  }

  /** The steps that call `stopProbes`. */
  predicate Stops(s: Sys, st: Step, k: Key) {
    (Restarts(s, st, k) && st.RestartBegin? && CanRun(s, k)) || Ends(s, st, k)
  }

  /** The steps after which nothing can cancel the probers armed before. */
  predicate Replaces(s: Sys, st: Step, k: Key) { Stores(s, st, k) || Rejects(s, st, k) || Rearms(s, st, k) }

  function ModeAfter(s: Sys, st: Step, k: Key, u: Sys, m: Mode): Mode
    requires Stores(s, st, k) ==> k in u.pods
  {
    if Stores(s, st, k) then
      if u.pods[k].status.phase == PodRunning && CanArm(u.pods[k]) then Armed([]) else IdleFor(u.pods[k].declared, NeverArmed)
    else if Ends(s, st, k) || Rejects(s, st, k) then Idle(Gone)
    else if Stops(s, st, k) then IdleFor(s.pods[k].declared, MidRestart)
    else if Rearms(s, st, k) then Armed([])
    else m
  }

  function JudgedAfter(s: Sys, st: Step, k: Key, m: Mode, j: Mode): Mode {
    if Stores(s, st, k) then IdleFor(s.creator.value.spec.declared, AtCommit)
    else if st.Observe? && st.key == k then m
    else j
  }

  /** The key is in the table after a commit. */
  lemma StoresTracks(c: Cidr, s: Sys, st: Step, k: Key)
    requires Enabled(c, s, st) && Stores(s, st, k)
    ensures var q := CommitPod(NewPod(s.nextInc, s.creator.value.spec, s.creator.value.pc.ip, s.creator.value.pc.id,
                                      s.creator.value.pc.vmIP, s.creator.value.pc.attached), st.obs).0;
            k in Next(c, s, st).pods && Next(c, s, st).pods[k] == q
  {
    assert Next(c, s, st) == Committed(s, st.obs);
  }

  /** A provider step and what it does to the key's probers. */
  function Stepped(c: Cidr, k: Key, t: Traced, st: Step): Traced
    requires Enabled(c, t.sys, st)
  {
    var u := Next(c, t.sys, st);
    assert Stores(t.sys, st, k) ==> k in u.pods by { if Stores(t.sys, st, k) { StoresTracks(c, t.sys, st, k); } }
    var mode, judged := ModeAfter(t.sys, st, k, u, t.mode), JudgedAfter(t.sys, st, k, t.mode, t.judged);
    if Stops(t.sys, st, k) then Traced(u, mode, judged, {}, t.late + multiset(t.busy), t.loose)
    else if Replaces(t.sys, st, k) && t.mode.Armed? then Traced(u, mode, judged, {}, t.late, t.loose + 1)
    else Traced(u, mode, judged, t.busy, t.late, t.loose)
  }

  predicate Probed(t: Traced, k: Key) { k in t.sys.pods && t.sys.pods[k].probes.Some? && t.mode.Armed? }

  function Shown(t: Traced, k: Key): P.State
    requires Probed(t, k)
  {
    Landed(t.sys.pods[k].declared, t.mode.landings)
  }

  /** The section an attempt's outcome leads to, if any. */
  function Section(k: Key, p: Pod, was: P.State, e: P.Event): Option<Step> {
    var d, name := p.declared, if p.containers == [] then "" else p.containers[0];
    match e.kind
    case Startup =>
      if d.startup.NoProbe? || was.startupOver then None
      else if d.startup.Ignored? then Some(StartupPassed(k))
      else
        (match P.Decision(P.Startup, d.startup, was.startup + [e.ok])
         case StartupDone => Some(StartupPassed(k))
         case Kill => Some(ProbeFailed(k, name))
         case _ => None)
    case Readiness =>
      if !d.readiness.Active? || !was.startupDone then None
      else
        (match P.Decision(P.Readiness, d.readiness, was.readiness + [e.ok])
         case SetReady(b) => Some(ReadinessSet(k, b))
         case _ => None)
    case Liveness =>
      if !d.liveness.Active? || was.livenessOver || !was.startupDone then None
      else if P.Decision(P.Liveness, d.liveness, was.liveness + [e.ok]) == P.Kill then Some(ProbeFailed(k, name))
      else None
  }

  function KindOf(w: Write): P.Kind { if w.StartupWrite? then P.Startup else P.Readiness }

  function WriteStep(k: Key, w: Write): Step { if w.StartupWrite? then StartupPassed(k) else ReadinessSet(k, w.ready) }

  predicate Writes(st: Step, k: Key) { (st.StartupPassed? || st.ReadinessSet?) && st.key == k }

  predicate CanMove(c: Cidr, k: Key, t: Traced, mv: Move) {
    match mv
    case Plain(st) => Enabled(c, t.sys, st) && !Writes(st, k)
    case Begin(kind) => Probed(t, k) && kind !in t.busy
    case Finish(e) => Probed(t, k) && e.kind in t.busy
    case Late(w) => t.loose > 0 || KindOf(w) in t.late
    case Quit(kind) => kind in t.late
  }

  /** The attempt is over, and its outcome counted. */
  function Counted(k: Key, t: Traced, e: P.Event): Traced
    requires Probed(t, k)
  {
    t.(busy := t.busy - {e.kind}, mode := Armed(t.mode.landings + [Own(e)]))
  }

  function Finished(c: Cidr, k: Key, t: Traced, e: P.Event): Traced
    requires Probed(t, k)
  {
    var st := Section(k, t.sys.pods[k], Shown(t, k), e);
    if st.None? then Counted(k, t, e) else Stepped(c, k, Counted(k, t, e), st.value)
  }

  function Moved(c: Cidr, k: Key, t: Traced, mv: Move): Traced
    requires CanMove(c, k, t, mv)
  {
    match mv
    case Plain(st) => Stepped(c, k, t, st)
    case Begin(kind) => t.(busy := t.busy + {kind})
    case Finish(e) => Finished(c, k, t, e)
    case Late(w) =>
      t.(sys := Next(c, t.sys, WriteStep(k, w)), late := t.late - multiset{KindOf(w)},
         mode := if Probed(t, k) then Armed(t.mode.landings + [Foreign(w)]) else t.mode)
    case Quit(kind) => t.(late := t.late - multiset{kind})
  }

  /* ---- the invariant ---- */

  /** The flags let the Pod be Ready. */
  predicate Gate(d: Declared, ls: seq<Landing>) {
    var s := Landed(d, ls);
    (!d.startup.NoProbe? ==> s.startupDone) && (!d.readiness.NoProbe? ==> s.ready)
  }

  predicate ReadyBy(p: Pod, m: Mode) {
    && p.status.phase == PodRunning && p.status.podIP != [] && p.status.message == ""
    && (m.Armed? ==> Gate(p.declared, m.landings))
  }

  predicate FlagsBy(p: Pod, m: Mode) {
    p.probes == if m.Armed? then Some(P.Flags(p.declared, Landed(p.declared, m.landings))) else None
  }

  predicate PodInv(p: Pod, mode: Mode, judged: Mode) {
    && FlagsBy(p, mode)
    && if p.terminal.Some? then !p.status.podReady && !p.terminal.value.podReady
       else p.containers != [] && (p.status.podReady <==> ReadyBy(p, judged))
  }

  predicate Inv(k: Key, t: Traced) {
    if k in t.sys.pods then PodInv(t.sys.pods[k], t.mode, t.judged) else t.mode.Idle?
  }

  /* ---- Pods ---- */

  lemma ReconcileInv(p: Pod, mode: Mode, judged: Mode, obs: seq<Obs>)
    requires PodInv(p, mode, judged) && (p.terminal.None? ==> |p.containers| <= |obs|)
    ensures PodInv(Reconcile(p, obs).0, mode, mode)
  {
    if p.terminal.None? {
      PodReadyIff(p, obs);
    }
  }

  lemma StartedFlags(p: Pod, m: Mode)
    requires FlagsBy(p, m)
    ensures FlagsBy(StartProbes(p), if CanArm(p) then Armed([]) else m)
  {
    assert Landed(p.declared, []) == P.Start(p.declared);
  }

  lemma CommitInv(p: Pod, obs: seq<Obs>, judged: Mode)
    requires p.terminal.None? && p.probes.None? && p.containers != [] && |p.containers| <= |obs| && judged.Idle?
    ensures var q := CommitPod(p, obs).0;
            PodInv(q, if q.status.phase == PodRunning && CanArm(q) then Armed([]) else IdleFor(q.declared, NeverArmed), judged)
  {
    PodReadyIff(p, obs);
    var q := Reconcile(p, obs).0;
    StartedFlags(q, IdleFor(q.declared, NeverArmed));
  }

  /** A committed restart arms fresh probers; until then there are none. */
  lemma FinishInv(p: Pod, mode: Mode, judged: Mode, oldId: string, newId: Option<string>, attached: bool, vmIP: IP)
    requires PodInv(p, mode, judged)
    ensures PodInv(FinishPod(p, oldId, newId, attached, vmIP), if newId.Some? && CanArm(p) then Armed([]) else mode, judged)
  {
    if newId.Some? {
      var q := p.(restarting := false,
                  workloads := SwapIds(p.workloads, oldId, newId.value),
                  restarts := if p.containers == [] then p.restarts
                              else p.restarts[p.containers[0] := Count(p.restarts, p.containers[0]) + 1],
                  vmIP := vmIP, attached := attached);
      StartedFlags(q, mode);
    }
  }

  /* ---- steps of the provider ---- */

  /** A step leaves the key's Pod alone, and neither stores it nor reconciles it. */
  predicate Away(s: Sys, st: Step, k: Key, u: Sys) {
    && (k in u.pods <==> k in s.pods) && (k in s.pods ==> u.pods[k] == s.pods[k])
    && !Stops(s, st, k) && !Replaces(s, st, k) && !(st.Observe? && st.key == k)
  }

  lemma AwayInv(c: Cidr, k: Key, t: Traced, st: Step)
    requires Inv(k, t) && Enabled(c, t.sys, st) && Away(t.sys, st, k, Next(c, t.sys, st))
    ensures Inv(k, Stepped(c, k, t, st))
  {
  }

  lemma StoresInv(c: Cidr, k: Key, t: Traced, st: Step)
    requires Enabled(c, t.sys, st) && Stores(t.sys, st, k)
    ensures Inv(k, Stepped(c, k, t, st))
  {
    StoresTracks(c, t.sys, st, k);
    var cr := t.sys.creator.value;
    CommitInv(NewPod(t.sys.nextInc, cr.spec, cr.pc.ip, cr.pc.id, cr.pc.vmIP, cr.pc.attached), st.obs,
              IdleFor(cr.spec.declared, AtCommit));
  }

  lemma RejectsInv(c: Cidr, k: Key, t: Traced)
    requires Enabled(c, t.sys, CreateReject) && Rejects(t.sys, CreateReject, k)
    ensures Inv(k, Stepped(c, k, t, CreateReject))
  {
    assert Next(c, t.sys, CreateReject) == RejectedPod(t.sys);
  }

  lemma CreateAway(c: Cidr, k: Key, s: Sys, st: Step)
    requires Enabled(c, s, st) && IsCreate(st) && !Stores(s, st, k) && !Rejects(s, st, k)
    ensures Away(s, st, k, Next(c, s, st))
  {
    assert Next(c, s, st) == NextCreate(c, s, st);
    if st.CreateCommit? {
      assert Next(c, s, st) == Committed(s, st.obs);
    } else if st.CreateReject? {
      assert Next(c, s, st) == RejectedPod(s);
    } else {
      CreateEffect(c, s, st);
    }
  }

  lemma CreateInv(c: Cidr, k: Key, t: Traced, st: Step)
    requires Inv(k, t) && Enabled(c, t.sys, st) && IsCreate(st)
    ensures Inv(k, Stepped(c, k, t, st))
  {
    if Stores(t.sys, st, k) {
      StoresInv(c, k, t, st);
    } else if Rejects(t.sys, st, k) {
      RejectsInv(c, k, t);
    } else {
      CreateAway(c, k, t.sys, st);
      AwayInv(c, k, t, st);
    }
  }

  lemma FailProbeInv(p: Pod, mode: Mode, judged: Mode, name: string)
    requires PodInv(p, mode, judged)
    ensures PodInv(FailProbe(p, name).0, if p.terminal.None? && p.policy == Never then Idle(Gone) else mode, judged)
  {
  }

  lemma BeginInv(p: Pod, mode: Mode, judged: Mode)
    requires PodInv(p, mode, judged) && p.terminal.None?
    ensures PodInv(StopProbes(p), IdleFor(p.declared, MidRestart), judged)
  {
  }

  lemma ObserveInv(c: Cidr, k: Key, t: Traced, obs: seq<Obs>)
    requires Inv(k, t) && Enabled(c, t.sys, Observe(k, obs)) && k in t.sys.pods
    ensures Inv(k, Stepped(c, k, t, Observe(k, obs)))
  {
    PodEffect(c, t.sys, Observe(k, obs));
    ReconcileInv(t.sys.pods[k], t.mode, t.judged, obs);
  }

  lemma ProbeFailedInv(c: Cidr, k: Key, t: Traced, name: string)
    requires Inv(k, t) && k in t.sys.pods
    ensures Inv(k, Stepped(c, k, t, ProbeFailed(k, name)))
  {
    var st := ProbeFailed(k, name);
    PodEffect(c, t.sys, st);
    var p, u := t.sys.pods[k], Stepped(c, k, t, st);
    assert u.sys.pods[k] == FailProbe(p, name).0 && u.judged == t.judged;
    assert u.mode == if p.terminal.None? && p.policy == Never then Idle(Gone) else t.mode;
    FailProbeInv(p, t.mode, t.judged, name);
  }

  lemma RestartBeginInv(c: Cidr, k: Key, t: Traced, x: nat)
    requires Inv(k, t) && Enabled(c, t.sys, RestartBegin(x)) && Restarts(t.sys, RestartBegin(x), k)
    ensures Inv(k, Stepped(c, k, t, RestartBegin(x)))
  {
    PodEffect(c, t.sys, RestartBegin(x));
    if CanRun(t.sys, k) {
      BeginInv(t.sys.pods[k], t.mode, t.judged);
    }
  }

  lemma RestartEndInv(c: Cidr, k: Key, t: Traced, x: nat)
    requires Inv(k, t) && Enabled(c, t.sys, RestartEnd(x)) && Restarts(t.sys, RestartEnd(x), k)
    ensures Inv(k, Stepped(c, k, t, RestartEnd(x)))
  {
    PodEffect(c, t.sys, RestartEnd(x));
    var r := t.sys.restarters[x];
    FinishInv(t.sys.pods[k], t.mode, t.judged, r.oldId, r.pc.newId, r.pc.attached, r.pc.vmIP);
  }

  /** The other sections do not touch the key's Pod. */
  lemma PodStepAway(c: Cidr, k: Key, s: Sys, st: Step)
    requires Enabled(c, s, st) && !IsCreate(st) && !IsDelete(st)
    requires StepKey(s, st) != k || k !in s.pods || st.RestartWork? || st.RestartReap?
    ensures Away(s, st, k, Next(c, s, st)) || (st.Observe? && st.key == k && k !in Next(c, s, st).pods && k !in s.pods)
  {
    PodEffect(c, s, st);
  }

  lemma PodStepInv(c: Cidr, k: Key, t: Traced, st: Step)
    requires Inv(k, t) && Enabled(c, t.sys, st) && !Writes(st, k) && !IsCreate(st) && !IsDelete(st)
    ensures Inv(k, Stepped(c, k, t, st))
  {
    if StepKey(t.sys, st) != k || k !in t.sys.pods || st.RestartWork? || st.RestartReap? {
      PodStepAway(c, k, t.sys, st);
    } else {
      match st
      case Observe(_, obs) => ObserveInv(c, k, t, obs);
      case ProbeFailed(_, name) => ProbeFailedInv(c, k, t, name);
      case RestartBegin(x) => RestartBeginInv(c, k, t, x);
      case RestartEnd(x) => RestartEndInv(c, k, t, x);
    }
  }

  lemma DeleteInv(c: Cidr, k: Key, t: Traced, st: Step)
    requires Inv(k, t) && Enabled(c, t.sys, st) && IsDelete(st)
    ensures Inv(k, Stepped(c, k, t, st))
  {
    assert Next(c, t.sys, st) == NextDelete(t.sys, st);
    if st == DeleteBegin(k) {
      assert k !in NextDelete(t.sys, st).pods;
    } else {
      AwayInv(c, k, t, st);
    }
  }

  lemma PlainInv(c: Cidr, k: Key, t: Traced, st: Step)
    requires Inv(k, t) && Enabled(c, t.sys, st) && !Writes(st, k)
    ensures Inv(k, Stepped(c, k, t, st))
  {
    if IsCreate(st) {
      CreateInv(c, k, t, st);
    } else if IsDelete(st) {
      DeleteInv(c, k, t, st);
    } else {
      PodStepInv(c, k, t, st);
    }
  }

  /* ---- attempts and writes ---- */

  lemma LandedStep(d: Declared, ls: seq<Landing>, l: Landing)
    ensures Landed(d, ls + [l]) == Land(d, Landed(d, ls), l)
  {
    assert (ls + [l])[..|ls|] == ls;
  }

  /** The section of an attempt writes what its outcome makes of the flags. */
  lemma SectionFlags(k: Key, p: Pod, was: P.State, e: P.Event)
    ensures var st := Section(k, p, was, e);
            var f, g := P.Flags(p.declared, was), P.Flags(p.declared, P.Next(p.declared, was, e));
            match st
            case None => g == f
            case Some(StartupPassed(j)) => j == k && g == f.(startupDone := true)
            case Some(ReadinessSet(j, b)) => j == k && g == f.(ready := b)
            case Some(x) => x.ProbeFailed? && x.key == k && g == f
  {
  }

  lemma WriteInv(c: Cidr, k: Key, t: Traced, l: Landing, w: Write)
    requires Inv(k, t) && Probed(t, k)
    requires var d := t.sys.pods[k].declared;
             var f, g := P.Flags(d, Shown(t, k)), P.Flags(d, Land(d, Shown(t, k), l));
             g == if w.StartupWrite? then f.(startupDone := true) else f.(ready := w.ready)
    ensures Inv(k, t.(sys := Next(c, t.sys, WriteStep(k, w)), mode := Armed(t.mode.landings + [l])))
  {
    PodEffect(c, t.sys, WriteStep(k, w));
    LandedStep(t.sys.pods[k].declared, t.mode.landings, l);
  }

  /** An attempt that leaves the flags alone may still fail the Pod. */
  lemma UnwrittenInv(c: Cidr, k: Key, t: Traced, e: P.Event)
    requires Inv(k, t) && Probed(t, k)
    requires var st := Section(k, t.sys.pods[k], Shown(t, k), e); st.None? || st.value.ProbeFailed?
    ensures Inv(k, Finished(c, k, t, e))
  {
    var p := t.sys.pods[k];
    var st := Section(k, p, Shown(t, k), e);
    SectionFlags(k, p, Shown(t, k), e);
    LandedStep(p.declared, t.mode.landings, Own(e));
    assert Inv(k, Counted(k, t, e));
    if st.Some? {
      PlainInv(c, k, Counted(k, t, e), st.value);
    }
  }

  /** A write of the armed probers is no step that stops or replaces them. */
  lemma WrittenIs(c: Cidr, k: Key, t: Traced, e: P.Event, w: Write)
    requires Probed(t, k) && Section(k, t.sys.pods[k], Shown(t, k), e) == Some(WriteStep(k, w))
    ensures var u := Finished(c, k, t, e);
            && u.sys == Next(c, t.sys, WriteStep(k, w)) && u.judged == t.judged
            && u.mode == Armed(t.mode.landings + [Own(e)])
  {
  }

  lemma WrittenInv(c: Cidr, k: Key, t: Traced, e: P.Event, w: Write)
    requires Inv(k, t) && Probed(t, k) && Section(k, t.sys.pods[k], Shown(t, k), e) == Some(WriteStep(k, w))
    ensures Inv(k, Finished(c, k, t, e))
  {
    SectionFlags(k, t.sys.pods[k], Shown(t, k), e);
    WriteInv(c, k, t, Own(e), w);
    WrittenIs(c, k, t, e, w);
  }

  lemma FinishedInv(c: Cidr, k: Key, t: Traced, e: P.Event)
    requires Inv(k, t) && Probed(t, k)
    ensures Inv(k, Finished(c, k, t, e))
  {
    SectionFlags(k, t.sys.pods[k], Shown(t, k), e);
    match Section(k, t.sys.pods[k], Shown(t, k), e)
    case Some(StartupPassed(_)) => WrittenInv(c, k, t, e, StartupWrite);
    case Some(ReadinessSet(_, b)) => WrittenInv(c, k, t, e, ReadyWrite(b));
    case _ => UnwrittenInv(c, k, t, e);
  }

  lemma LateInv(c: Cidr, k: Key, t: Traced, w: Write)
    requires Inv(k, t)
    ensures Inv(k, t.(sys := Next(c, t.sys, WriteStep(k, w)),
                      mode := if Probed(t, k) then Armed(t.mode.landings + [Foreign(w)]) else t.mode))
  {
    if Probed(t, k) {
      WriteInv(c, k, t, Foreign(w), w);
    }
  }

  lemma MovedInv(c: Cidr, k: Key, t: Traced, mv: Move)
    requires Inv(k, t) && CanMove(c, k, t, mv)
    ensures Inv(k, Moved(c, k, t, mv))
  {
    match mv
    case Plain(st) => PlainInv(c, k, t, st);
    case Begin(_) =>
    case Finish(e) => FinishedInv(c, k, t, e);
    case Late(w) => LateInv(c, k, t, w);
    case Quit(_) =>
  }

  /* ---- runs ---- */

  ghost predicate Allowed(c: Cidr, need: Assume, k: Key, t: Traced, mv: Move) {
    CanMove(c, k, t, mv) && (mv.Plain? ==> Kept(need, t.sys, mv.st))
  }

  ghost predicate TracedLegal(c: Cidr, need: Assume, k: Key, t: Traced, moves: seq<Move>)
    decreases |moves|
  {
    moves == [] || (Allowed(c, need, k, t, moves[0]) && TracedLegal(c, need, k, Moved(c, k, t, moves[0]), moves[1..]))
  }

  ghost function TracedRun(c: Cidr, need: Assume, k: Key, t: Traced, moves: seq<Move>): Traced
    requires TracedLegal(c, need, k, t, moves)
    decreases |moves|
  {
    if moves == [] then t else TracedRun(c, need, k, Moved(c, k, t, moves[0]), moves[1..])
  }

  /** A provider that has probed nothing yet. */
  function Unprobed(s: Sys): Traced { Traced(s, Idle(NothingDeclared), Idle(NothingDeclared), {}, multiset{}, 0) }

  lemma {:induction false} TracedInv(c: Cidr, need: Assume, k: Key, t: Traced, moves: seq<Move>)
    requires Inv(k, t) && TracedLegal(c, need, k, t, moves)
    ensures Inv(k, TracedRun(c, need, k, t, moves))
    decreases |moves|
  {
    if moves != [] {
      MovedInv(c, k, t, moves[0]);
      TracedInv(c, need, k, Moved(c, k, t, moves[0]), moves[1..]);
    }
  }

  /** The declared probes have passed, as the outcomes and the foreign writes that landed say. */
  ghost predicate Passed(d: Declared, ls: seq<Landing>) {
    var s := Landed(d, ls);
    && (!d.startup.NoProbe? ==> OwnStartup(d, s) || StartupDebt(ls))
    && (!d.readiness.NoProbe? ==> match ReadyDebt(d, ls) case Some(b) => b case None => OwnReady(d, s))
  }

  lemma GateExact(d: Declared, ls: seq<Landing>)
    ensures Gate(d, ls) <==> Passed(d, ls)
  {
    ReadyShown(d, ls);
    StartupShown(d, ls);
  }

  /**
   * In every run a live Pod is stored Ready exactly when it is Running with an address and no runtime error and, if the
   * reconcile that stored it found probers, its declared probes have passed on what landed since they were armed.
   */
  lemma ReadyExact(c: Cidr, need: Assume, k: Key, s: Sys, moves: seq<Move>)
    requires Init(c, s) && TracedLegal(c, need, k, Unprobed(s), moves)
    requires CanRun(TracedRun(c, need, k, Unprobed(s), moves).sys, k)
    ensures var t := TracedRun(c, need, k, Unprobed(s), moves);
            var p := t.sys.pods[k];
            p.status.podReady <==>
            && p.status.phase == PodRunning && p.status.podIP != [] && p.status.message == ""
            && (t.judged.Armed? ==> Passed(p.declared, t.judged.landings))
  {
    TracedInv(c, need, k, Unprobed(s), moves);
    var t := TracedRun(c, need, k, Unprobed(s), moves);
    if t.judged.Armed? {
      GateExact(t.sys.pods[k].declared, t.judged.landings);
    }
  }

  /**
   * In every run the flags of a Pod with probers are what its own outcomes since arming earn if and only if no foreign
   * startup write came before its startup probe passed, and no foreign ready write is still open, or one that agrees.
   */
  lemma FlagsExact(c: Cidr, need: Assume, k: Key, s: Sys, moves: seq<Move>)
    requires Init(c, s) && TracedLegal(c, need, k, Unprobed(s), moves)
    requires var t := TracedRun(c, need, k, Unprobed(s), moves); k in t.sys.pods && t.mode.Armed?
    ensures var t := TracedRun(c, need, k, Unprobed(s), moves);
            var d, ls, f := t.sys.pods[k].declared, t.mode.landings, t.sys.pods[k].probes;
            var r := Landed(d, ls);
            && f.Some?
            && (f.value.startupDone == OwnStartup(d, r) && f.value.ready == OwnReady(d, r) <==>
                && (StartupDebt(ls) ==> OwnStartup(d, r))
                && (ReadyDebt(d, ls).Some? ==> ReadyDebt(d, ls).value == OwnReady(d, r)))
  {
    TracedInv(c, need, k, Unprobed(s), moves);
    var t := TracedRun(c, need, k, Unprobed(s), moves);
    FlagsEarnedIff(t.sys.pods[k].declared, t.mode.landings);
  }

  /**
   * A readiness probe without a supported handler never earns Ready: such a Pod is Ready exactly while its status is from a
   * reconcile that found no probers, or a foreign write stands in.
   */
  lemma IgnoredReadyIff(c: Cidr, need: Assume, k: Key, s: Sys, moves: seq<Move>)
    requires Init(c, s) && TracedLegal(c, need, k, Unprobed(s), moves)
    requires var t := TracedRun(c, need, k, Unprobed(s), moves);
             CanRun(t.sys, k) && t.sys.pods[k].declared.readiness.Ignored?
    ensures var t := TracedRun(c, need, k, Unprobed(s), moves);
            var p := t.sys.pods[k];
            p.status.podReady <==>
            && p.status.phase == PodRunning && p.status.podIP != [] && p.status.message == ""
            && (t.judged.Armed? ==>
                  && ReadyDebt(p.declared, t.judged.landings) == Some(true)
                  && (OwnStartup(p.declared, Landed(p.declared, t.judged.landings)) || StartupDebt(t.judged.landings)))
  {
    ReadyExact(c, need, k, s, moves);
  }

  /** The provider's step in a move, if it has one. */
  function StepOf(k: Key, t: Traced, mv: Move): Option<Step>
    requires mv.Finish? ==> Probed(t, k)
  {
    match mv
    case Plain(st) => Some(st)
    case Finish(e) => Section(k, t.sys.pods[k], Shown(t, k), e)
    case Late(w) => Some(WriteStep(k, w))
    case _ => None
  }

  lemma MovedSys(c: Cidr, need: Assume, k: Key, t: Traced, mv: Move)
    requires Allowed(c, need, k, t, mv)
    ensures var st := StepOf(k, t, mv);
            && (st.None? ==> Moved(c, k, t, mv).sys == t.sys)
            && (st.Some? ==> Enabled(c, t.sys, st.value) && Kept(need, t.sys, st.value))
            && (st.Some? ==> Moved(c, k, t, mv).sys == Next(c, t.sys, st.value))
  {
  }

  /** A run with traces is a run of the provider, so everything proved of those holds of it. */
  lemma {:induction false} TracedIsRun(c: Cidr, need: Assume, k: Key, t: Traced, moves: seq<Move>) returns (steps: seq<Step>)
    requires TracedLegal(c, need, k, t, moves)
    ensures Legal(c, need, t.sys, steps) && Run(c, need, t.sys, steps) == TracedRun(c, need, k, t, moves).sys
    decreases |moves|
  {
    if moves == [] {
      return [];
    }
    MovedSys(c, need, k, t, moves[0]);
    var rest := TracedIsRun(c, need, k, Moved(c, k, t, moves[0]), moves[1..]);
    var st := StepOf(k, t, moves[0]);
    if st.None? {
      return rest;
    }
    assert ([st.value] + rest)[1..] == rest;
    return [st.value] + rest;
  }
}
