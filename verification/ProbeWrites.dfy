/**
 * The flags of a Pod's probers as everything that landed on them since they were armed: their own attempts, and the
 * writes of probers armed before them.
 */
module ProbeWrites {
  import opened Common
  import opened Status
  import P = Probe

  datatype Write = StartupWrite | ReadyWrite(ready: bool)

  datatype Landing = Own(e: P.Event) | Foreign(w: Write)

  function Land(d: Declared, s: P.State, l: Landing): P.State {
    match l
    case Own(e) => P.Next(d, s, e)
    case Foreign(StartupWrite) => s.(startupDone := true)
    case Foreign(ReadyWrite(b)) => s.(ready := b)
  }

  function Landed(d: Declared, ls: seq<Landing>): P.State {
    if ls == [] then P.Start(d) else Land(d, Landed(d, ls[..|ls| - 1]), ls[|ls| - 1])
  }

  /* ---- what the prober's own outcomes earn ---- */

  /** The startup gate is open by the Pod's own probes. */
  predicate OwnStartup(d: Declared, s: P.State) {
    match d.startup
    case NoProbe => true
    case Ignored => s.startupOver
    case Active(_, _) => true in s.startup
  }

  /** The readiness outcomes counted so far earn Ready. */
  ghost predicate OwnReady(d: Declared, s: P.State) {
    d.readiness.Active? && P.EarnedReady(d.readiness, s.readiness)
  }

  predicate Decisive(d: Declared, s: P.State, l: Landing) {
    && l.Own? && l.e.kind == P.Readiness && d.readiness.Active? && s.startupDone
    && P.Decision(P.Readiness, d.readiness, s.readiness + [l.e.ok]).SetReady?
  }

  /** The latest foreign ready write that no decisive outcome of the Pod's own readiness probe has come after. */
  function ReadyDebt(d: Declared, ls: seq<Landing>): Option<bool> {
    if ls == [] then None
    else
      var front, last := ls[..|ls| - 1], ls[|ls| - 1];
      if last.Foreign? && last.w.ReadyWrite? then Some(last.w.ready)
      else if Decisive(d, Landed(d, front), last) then None
      else ReadyDebt(d, front)
  }

  predicate StartupDebt(ls: seq<Landing>) { Foreign(StartupWrite) in ls }

  /** The ready flag is the open foreign write, and what the outcomes earn when there is none. */
  lemma {:induction false} ReadyShown(d: Declared, ls: seq<Landing>)
    ensures var s := Landed(d, ls);
            s.ready <==> match ReadyDebt(d, ls) case Some(b) => b case None => OwnReady(d, s)
  {
    if ls == [] {
      if d.readiness.Active? {
        assert !P.EarnedReady(d.readiness, []);
      }
    } else {
      var front, last := ls[..|ls| - 1], ls[|ls| - 1];
      ReadyShown(d, front);
      var s := Landed(d, front);
      if last.Own? && last.e.kind == P.Readiness && d.readiness.Active? && s.startupDone {
        P.EarnedStep(d.readiness, s.readiness, last.e.ok);
      }
    }
  }

  lemma {:induction false} StartupShown(d: Declared, ls: seq<Landing>)
    ensures var s := Landed(d, ls);
            && (s.startupDone <==> OwnStartup(d, s) || StartupDebt(ls))
            && (d.startup.Active? && true in s.startup ==> s.startupOver)
  {
    if ls != [] {
      var front, last := ls[..|ls| - 1], ls[|ls| - 1];
      StartupShown(d, front);
      assert ls == front + [last];
      var s := Landed(d, front);
      if last.Own? && last.e.kind == P.Startup && d.startup.Active? && !s.startupOver {
        StartupOutcome(d, s.startup, last.e.ok);
      }
    }
  }

  /** A startup loop that goes on has only failures behind it, and its first success ends it. */
  lemma StartupOutcome(d: Declared, h: seq<bool>, ok: bool)
    requires d.startup.Active?
    ensures true in h + [ok] <==> true in h || ok
    ensures ok ==> P.Decision(P.Startup, d.startup, h + [ok]) == P.StartupDone
    ensures !ok ==> P.Decision(P.Startup, d.startup, h + [ok]) != P.StartupDone
  {
    var g := h + [ok];
    assert g[|g| - 1] == ok;
  }

  /**
   * The flags say what the Pod's own outcomes earn if and only if no foreign startup write has landed before the startup
   * probe passed, and no foreign ready write is open, or one that happens to say the same.
   */
  lemma FlagsEarnedIff(d: Declared, ls: seq<Landing>)
    ensures var s := Landed(d, ls);
            (s.startupDone == OwnStartup(d, s) && s.ready == OwnReady(d, s)) <==>
            && (StartupDebt(ls) ==> OwnStartup(d, s))
            && (ReadyDebt(d, ls).Some? ==> ReadyDebt(d, ls).value == OwnReady(d, s))
  {
    ReadyShown(d, ls);
    StartupShown(d, ls);
  }

  /* ---- traces without foreign writes ---- */

  predicate AllOwn(ls: seq<Landing>) { forall i :: 0 <= i < |ls| ==> ls[i].Own? }

  function Events(ls: seq<Landing>): (es: seq<P.Event>)
    requires AllOwn(ls)
    ensures |es| == |ls|
  {
    seq(|ls|, i requires 0 <= i < |ls| => ls[i].e)
  }

  lemma {:induction false} OwnTrace(d: Declared, ls: seq<Landing>)
    requires AllOwn(ls)
    ensures Landed(d, ls) == P.Run(d, Events(ls)) && !StartupDebt(ls) && ReadyDebt(d, ls).None?
  {
    if ls != [] {
      OwnTrace(d, ls[..|ls| - 1]);
      assert Events(ls)[..|ls| - 1] == Events(ls[..|ls| - 1]);
    }
  }
}
