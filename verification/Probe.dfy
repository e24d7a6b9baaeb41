/** The probe loops of one micro-VM: thresholds over consecutive outcomes, and the startup gate. */
module Probe {
  import opened Common
  import opened Status

  datatype Kind = Startup | Readiness | Liveness

  function OrDefault(v: int, default: int): (r: int)
    requires default > 0
    ensures r > 0
  {
    if v <= 0 then default else v
  }

  function FailureThreshold(d: ProbeDef): (n: nat)
    requires d.Active?
    ensures n > 0
  {
    OrDefault(d.failure, 3)
  }

  /** Only readiness may ask for more than one success. */
  function SuccessThreshold(kind: Kind, d: ProbeDef): (n: nat)
    requires d.Active?
    ensures n > 0
  {
    if kind != Readiness then 1 else OrDefault(d.success, 1)
  }

  datatype Action = Nothing | StartupDone | SetReady(ready: bool) | Kill

  predicate Stops(a: Action) { a == StartupDone || a == Kill }

  /** The `n` outcomes before position `i` are all `b`. */
  predicate RunEndsAt(outs: seq<bool>, i: nat, n: nat, b: bool) {
    n <= i <= |outs| && forall k :: i - n <= k < i ==> outs[k] == b
  }

  /** What a loop does after its latest attempt, judged by the outcomes alone. */
  function Decision(kind: Kind, d: ProbeDef, outs: seq<bool>): Action
    requires d.Active?
  {
    if RunEndsAt(outs, |outs|, SuccessThreshold(kind, d), true) then
      match kind
      case Startup => StartupDone
      case Readiness => SetReady(true)
      case Liveness => Nothing
    else if RunEndsAt(outs, |outs|, FailureThreshold(d), false) then
      if kind == Readiness then SetReady(false) else Kill
    else Nothing
  }

  /**
   * The loop of `runProbe` with its two counters: fed outcome after outcome, it acts as the consecutive-run rule
   * says, and leaves at the first action that ends it.
   */
  method RunProbe(kind: Kind, d: ProbeDef, outs: seq<bool>) returns (actions: seq<Action>)
    requires d.Active?
    ensures |actions| <= |outs|
    ensures forall i :: 0 <= i < |actions| ==> actions[i] == Decision(kind, d, outs[..i + 1])
    ensures forall i :: 0 <= i < |actions| - 1 ==> !Stops(actions[i])
    ensures |actions| < |outs| ==> actions != [] && Stops(actions[|actions| - 1])
  {
    var failureThreshold := FailureThreshold(d);
    var successThreshold := SuccessThreshold(kind, d);
    var successes, failures := 0, 0;
    actions := [];
    var n := 0;
    while n < |outs|
      invariant 0 <= n == |actions| <= |outs|
      invariant forall i :: 0 <= i < n ==> actions[i] == Decision(kind, d, outs[..i + 1]) && !Stops(actions[i])
      invariant Counts(outs[..n], successes, failures)
    {
      ghost var seen := outs[..n + 1];
      CountsStep(outs, n, successes, failures);
      var act := Nothing;
      if outs[n] {
        failures := 0;
        successes := successes + 1;
        if successes >= successThreshold {
          act := match kind case Startup => StartupDone case Readiness => SetReady(true) case Liveness => Nothing;
        }
      } else {
        successes := 0;
        failures := failures + 1;
        if failures >= failureThreshold {
          act := if kind == Readiness then SetReady(false) else Kill;
        }
      }
      CountsRuns(seen, successes, failures, successThreshold, failureThreshold);
      assert act == Decision(kind, d, seen);
      actions := actions + [act];
      if act == StartupDone || act == Kill {
        return;
      }
      n := n + 1;
    }
  }

  /** The counters are the lengths of the trailing runs of successes and of failures. */
  predicate Counts(outs: seq<bool>, successes: nat, failures: nat) {
    && successes <= |outs| && failures <= |outs|
    && (forall k :: |outs| - successes <= k < |outs| ==> outs[k])
    && (forall k :: |outs| - failures <= k < |outs| ==> !outs[k])
    && (successes < |outs| ==> !outs[|outs| - successes - 1])
    && (failures < |outs| ==> outs[|outs| - failures - 1])
  }

  lemma CountsStep(outs: seq<bool>, n: nat, successes: nat, failures: nat)
    requires n < |outs| && Counts(outs[..n], successes, failures)
    ensures outs[n] ==> Counts(outs[..n + 1], successes + 1, 0)
    ensures !outs[n] ==> Counts(outs[..n + 1], 0, failures + 1)
  {
    var a, b := outs[..n], outs[..n + 1];
    assert forall k :: 0 <= k < n ==> b[k] == a[k];
  }

  lemma CountsRuns(outs: seq<bool>, successes: nat, failures: nat, s: nat, f: nat)
    requires Counts(outs, successes, failures) && s > 0 && f > 0
    ensures RunEndsAt(outs, |outs|, s, true) <==> successes >= s
    ensures RunEndsAt(outs, |outs|, f, false) <==> failures >= f
  {
    if successes < s <= |outs| {
      assert !outs[|outs| - successes - 1];
    }
    if failures < f <= |outs| {
      assert outs[|outs| - failures - 1];
    }
  }

  /* ---- the three loops of one VM, interleaved ---- */

  datatype Event = Event(kind: Kind, ok: bool)

  /** The outcomes each loop has counted, which loops have returned, and the shared flags. */
  datatype State = State(
    startup: seq<bool>, readiness: seq<bool>, liveness: seq<bool>,
    startupOver: bool, livenessOver: bool, startupDone: bool, ready: bool, kills: nat)

  function Start(cfg: Declared): State {
    State([], [], [], false, false, cfg.startup.NoProbe?, false, 0)
  }

  function Next(cfg: Declared, s: State, e: Event): State {
    match e.kind
    case Startup =>
      if cfg.startup.NoProbe? || s.startupOver then s
      else if cfg.startup.Ignored? then s.(startupDone := true, startupOver := true)
      else
        var h := s.startup + [e.ok];
        (match Decision(Startup, cfg.startup, h)
         case StartupDone => s.(startup := h, startupDone := true, startupOver := true)
         case Kill => s.(startup := h, kills := s.kills + 1, startupOver := true)
         case _ => s.(startup := h))
    case Readiness =>
      if !cfg.readiness.Active? || !s.startupDone then s
      else
        var h := s.readiness + [e.ok];
        (match Decision(Readiness, cfg.readiness, h)
         case SetReady(b) => s.(readiness := h, ready := b)
         case _ => s.(readiness := h))
    case Liveness =>
      if !cfg.liveness.Active? || s.livenessOver || !s.startupDone then s
      else
        var h := s.liveness + [e.ok];
        if Decision(Liveness, cfg.liveness, h) == Kill then s.(liveness := h, kills := s.kills + 1, livenessOver := true)
        else s.(liveness := h)
  }

  function Run(cfg: Declared, events: seq<Event>): State {
    if events == [] then Start(cfg) else Next(cfg, Run(cfg, events[..|events| - 1]), events[|events| - 1])
  }

  /** The latest decisive run of readiness outcomes was one of successes. */
  ghost predicate EarnedReady(d: ProbeDef, h: seq<bool>)
    requires d.Active?
  {
    exists i: nat ::
      && RunEndsAt(h, i, SuccessThreshold(Readiness, d), true)
      && forall j: nat :: i < j <= |h| ==> !RunEndsAt(h, j, FailureThreshold(d), false)
  }

  /** Some run of outcomes reaches the failure threshold. */
  ghost predicate Failed(d: ProbeDef, h: seq<bool>)
    requires d.Active?
  {
    exists i: nat :: RunEndsAt(h, i, FailureThreshold(d), false)
  }

  lemma RunPrefix(h: seq<bool>, ok: bool, i: nat, n: nat, b: bool)
    requires i <= |h|
    ensures RunEndsAt(h + [ok], i, n, b) <==> RunEndsAt(h, i, n, b)
  {
    assert forall k :: 0 <= k < |h| ==> (h + [ok])[k] == h[k];
  }

  /** One more readiness outcome moves the flag exactly as the consecutive-run rule asks. */
  lemma EarnedStep(d: ProbeDef, h: seq<bool>, ok: bool)
    requires d.Active?
    ensures EarnedReady(d, h + [ok]) <==>
            match Decision(Readiness, d, h + [ok])
            case SetReady(b) => b
            case _ => EarnedReady(d, h)
  {
    var g, s, f := h + [ok], SuccessThreshold(Readiness, d), FailureThreshold(d);
    forall i: nat, n: nat, b: bool | i <= |h|
      ensures RunEndsAt(g, i, n, b) <==> RunEndsAt(h, i, n, b)
    {
      RunPrefix(h, ok, i, n, b);
    }
    if RunEndsAt(g, |g|, s, true) {
    } else if RunEndsAt(g, |g|, f, false) {
    } else if EarnedReady(d, h) {
      var i: nat :| RunEndsAt(h, i, s, true) && forall j: nat :: i < j <= |h| ==> !RunEndsAt(h, j, f, false);
      assert RunEndsAt(g, i, s, true);
    }
  }

  lemma FailedStep(d: ProbeDef, h: seq<bool>, ok: bool)
    requires d.Active?
    ensures Failed(d, h + [ok]) <==> Failed(d, h) || RunEndsAt(h + [ok], |h| + 1, FailureThreshold(d), false)
  {
    forall i: nat | i <= |h|
      ensures RunEndsAt(h + [ok], i, FailureThreshold(d), false) <==> RunEndsAt(h, i, FailureThreshold(d), false)
    {
      RunPrefix(h, ok, i, FailureThreshold(d), false);
    }
  }

  /** The startup loop: only failures until it is done, and done by its one success. */
  ghost predicate StartupOk(cfg: Declared, s: State) {
    && (cfg.startup.NoProbe? ==> s.startupDone && s.startup == [] && !s.startupOver)
    && (cfg.startup.Ignored? ==> s.startup == [] && (s.startupDone <==> s.startupOver))
    && (cfg.startup.Active? ==>
          && (s.startupDone <==> true in s.startup)
          && (s.startupOver <==> s.startupDone || Failed(cfg.startup, s.startup))
          && !(s.startupDone && Failed(cfg.startup, s.startup)))
  }

  ghost predicate LoopsOk(cfg: Declared, s: State) {
    && StartupOk(cfg, s)
    && (!s.startupDone ==> s.readiness == [] && s.liveness == [])
    && (cfg.readiness.Active? ==> (s.ready <==> EarnedReady(cfg.readiness, s.readiness)))
    && (!cfg.readiness.Active? ==> !s.ready)
    && (cfg.liveness.Active? ==> (s.livenessOver <==> Failed(cfg.liveness, s.liveness)))
    && s.kills == (if cfg.startup.Active? && Failed(cfg.startup, s.startup) then 1 else 0)
                  + (if cfg.liveness.Active? && Failed(cfg.liveness, s.liveness) then 1 else 0)
  }

  lemma StartupStep(cfg: Declared, s: State, ok: bool)
    requires LoopsOk(cfg, s)
    ensures LoopsOk(cfg, Next(cfg, s, Event(Startup, ok)))
  {
    if cfg.startup.Active? && !s.startupOver {
      var h := s.startup + [ok];
      FailedStep(cfg.startup, s.startup, ok);
      assert h[|h| - 1] == ok && (true in h <==> true in s.startup || ok);
    }
  }

  lemma NextOk(cfg: Declared, s: State, e: Event)
    requires LoopsOk(cfg, s)
    ensures LoopsOk(cfg, Next(cfg, s, e))
  {
    match e.kind
    case Startup => StartupStep(cfg, s, e.ok);
    case Readiness =>
      if cfg.readiness.Active? {
        EarnedStep(cfg.readiness, s.readiness, e.ok);
      }
    case Liveness =>
      if cfg.liveness.Active? {
        FailedStep(cfg.liveness, s.liveness, e.ok);
        assert (s.liveness + [e.ok])[|s.liveness|] == e.ok;
      }
  }

  /**
   * After any trace of attempts against one VM: the ready flag is the verdict of the latest decisive run, startup
   * is done exactly by a success that came before failureThreshold failures in a row, a kill is exactly a loop
   * whose failures reached the threshold, and nothing is counted for readiness or liveness before startup is done.
   */
  lemma {:induction false} TraceExact(cfg: Declared, events: seq<Event>)
    ensures LoopsOk(cfg, Run(cfg, events))
  {
    if events == [] {
      if cfg.readiness.Active? {
        assert !EarnedReady(cfg.readiness, []);
      }
      if cfg.startup.Active? {
        assert !Failed(cfg.startup, []);
      }
      if cfg.liveness.Active? {
        assert !Failed(cfg.liveness, []);
      }
    } else {
      TraceExact(cfg, events[..|events| - 1]);
      NextOk(cfg, Run(cfg, events[..|events| - 1]), events[|events| - 1]);
    }
  }

  /** The flags `reconcileStatus` reads, as the loops have left them. */
  function Flags(cfg: Declared, s: State): ProbeFlags {
    ProbeFlags(!cfg.startup.NoProbe?, !cfg.readiness.NoProbe?, !cfg.liveness.NoProbe?, s.startupDone, s.ready)
  }

  /** With its fields unset a probe fails at the third failure in a row and no sooner, and passes at the first success. */
  lemma UnsetThresholds(kind: Kind, d: ProbeDef)
    requires d.Active? && d.failure <= 0 && d.success <= 0
    ensures Decision(kind, d, [false, false]) == Nothing
    ensures Decision(kind, d, [false, false, false]) == if kind == Readiness then SetReady(false) else Kill
    ensures Decision(kind, d, [true]) ==
            match kind case Startup => StartupDone case Readiness => SetReady(true) case Liveness => Nothing
  {
    var two, three := [false, false], [false, false, false];
    assert !RunEndsAt(two, 2, 1, true) by { assert two[1] == false; }
    assert !RunEndsAt(three, 3, 1, true) by { assert three[2] == false; }
    assert RunEndsAt([true], 1, 1, true);
  }

  /** Set, they count as written, except that only readiness may ask for more than one success. */
  lemma SetThresholds(d: ProbeDef)
    requires d.Active? && d.failure > 0 && d.success > 0
    ensures FailureThreshold(d) == d.failure && SuccessThreshold(Readiness, d) == d.success
    ensures SuccessThreshold(Startup, d) == SuccessThreshold(Liveness, d) == 1
  {
  }
}
