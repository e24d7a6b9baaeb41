/**
 * The controller comes to rest: while the caches hold still and pushes succeed, every step brings it closer to a state with
 * nothing left to do, it is never stuck before that, and there the router holds what the caches call for.
 */
module RouteProgress {
  import opened Common
  import opened Text
  import opened Helper
  import opened PodNet
  import opened SvcRoute
  import opened Controller

  /** A step of the queue or of a worker, failures apart. */
  predicate Internal(e: Event) { e.Deliver? || e.Expire? || e.Get? || e.ReadService? || e.ReadSlices? || e.Push? }

  /** It goes well. */
  ghost predicate Succeeds(t: Parser, cfg: Config, filter: Option<string -> bool>, s: Sys, e: Event)
    requires Enabled(filter, s, e)
  {
    Internal(e) && (e.Push? ==> Apply(t, cfg, s.router, PushOp(e.key, s.working[e.key].rules), e.env).1)
  }

  /** Workers that have yet to list slices, and of those the ones that have yet to read their Service. */
  function Unlisted(w: map<string, Stage>): set<string> { set k | k in w && !w[k].HaveRules? }

  function Unread(w: map<string, Stage>): set<string> { set k | k in w && w[k].Started? }

  function Busy(w: map<string, Stage>): nat { 2 * |w.Keys| + |Unlisted(w)| + |Unread(w)| }

  /** How much is left to do: each key at its distance from being done. */
  function Left(s: Sys): nat { 6 * |s.pending| + 6 * |s.delayed| + 5 * |s.dirty| + Busy(s.working) }

  lemma AddOne(a: set<string>, x: string)
    ensures |a + {x}| <= |a| + 1
  {
    if x in a {
      assert a + {x} == a;
    }
  }

  lemma OneMore(a: set<string>, b: set<string>, x: string)
    requires forall y :: y in b ==> y in a || y == x
    ensures |b| <= |a| + 1
  {
    if x in b {
      assert b == (b - {x}) + {x};
    }
    assert |b - {x}| <= |a| by {
      SubsetCount(b - {x}, a);
    }
  }

  lemma DropOne(a: set<string>, x: string)
    requires x in a
    ensures |a - {x}| == |a| - 1
  {
  }

  /** A worker that starts has four stages before it. */
  lemma StartBusy(w: map<string, Stage>, key: string)
    requires key !in w
    ensures Busy(w[key := Started]) <= Busy(w) + 4
  {
    var u := w[key := Started];
    OneMore(w.Keys, u.Keys, key);
    OneMore(Unlisted(w), Unlisted(u), key);
    OneMore(Unread(w), Unread(u), key);
  }

  /** One that has read its Service has left the first. */
  lemma ReadBusy(w: map<string, Stage>, key: string, st: Stage)
    requires key in w && w[key].Started? && !st.Started?
    ensures Busy(w[key := st]) < Busy(w)
  {
    var u := w[key := st];
    assert u.Keys == w.Keys && Unread(u) == Unread(w) - {key};
    assert Unlisted(u) == if st.HaveRules? then Unlisted(w) - {key} else Unlisted(w);
    DropOne(Unread(w), key);
    DropOne(Unlisted(w), key);
  }

  /** One that has listed its slices, the next. */
  lemma ListBusy(w: map<string, Stage>, key: string, st: Stage)
    requires key in w && w[key].HaveService? && st.HaveRules?
    ensures Busy(w[key := st]) < Busy(w)
  {
    var u := w[key := st];
    assert u.Keys == w.Keys && Unread(u) == Unread(w) && Unlisted(u) == Unlisted(w) - {key};
    DropOne(Unlisted(w), key);
  }

  /** And one that has pushed is done. */
  lemma PushBusy(w: map<string, Stage>, key: string)
    requires key in w && w[key].HaveRules?
    ensures Busy(w - {key}) < Busy(w)
  {
    var u := w - {key};
    assert u.Keys == w.Keys - {key} && Unread(u) == Unread(w) && Unlisted(u) == Unlisted(w);
    DropOne(w.Keys, key);
  }

  lemma ReadLess(t: Parser, cfg: Config, filter: Option<string -> bool>, s: Sys, key: string)
    requires Enabled(filter, s, ReadService(key))
    ensures Left(Next(t, cfg, filter, s, ReadService(key))) < Left(s)
  {
    var u := Next(t, cfg, filter, s, ReadService(key));
    ReadBusy(s.working, key, u.working[key]);
    assert u.working == s.working[key := u.working[key]];
  }

  lemma ListLess(t: Parser, cfg: Config, filter: Option<string -> bool>, s: Sys, key: string, ids: seq<string>)
    requires Enabled(filter, s, ReadSlices(key, ids))
    ensures Left(Next(t, cfg, filter, s, ReadSlices(key, ids))) < Left(s)
  {
    var u := Next(t, cfg, filter, s, ReadSlices(key, ids));
    ListBusy(s.working, key, u.working[key]);
    assert u.working == s.working[key := u.working[key]];
  }

  lemma DeliverLess(t: Parser, cfg: Config, filter: Option<string -> bool>, s: Sys, key: string)
    requires Enabled(filter, s, Deliver(key))
    ensures Left(Next(t, cfg, filter, s, Deliver(key))) < Left(s)
  {
    AddOne(s.dirty, key);
    assert |s.pending - multiset{key}| == |s.pending| - 1;
  }

  lemma ExpireLess(t: Parser, cfg: Config, filter: Option<string -> bool>, s: Sys, key: string)
    requires Enabled(filter, s, Expire(key))
    ensures Left(Next(t, cfg, filter, s, Expire(key))) < Left(s)
  {
    AddOne(s.dirty, key);
    DropOne(s.delayed, key);
  }

  lemma GetLess(t: Parser, cfg: Config, filter: Option<string -> bool>, s: Sys, key: string)
    requires Enabled(filter, s, Get(key))
    ensures Left(Next(t, cfg, filter, s, Get(key))) < Left(s)
  {
    DropOne(s.dirty, key);
    StartBusy(s.working, key);
  }

  lemma PushLess(t: Parser, cfg: Config, filter: Option<string -> bool>, s: Sys, key: string, env: Env)
    requires Enabled(filter, s, Push(key, env)) && Succeeds(t, cfg, filter, s, Push(key, env))
    ensures Left(Next(t, cfg, filter, s, Push(key, env))) < Left(s)
  {
    PushBusy(s.working, key);
    assert Next(t, cfg, filter, s, Push(key, env)) == Pushed(t, cfg, s, key, env);
  }

  /** Every step that goes well leaves less to do. */
  lemma StepLess(t: Parser, cfg: Config, filter: Option<string -> bool>, s: Sys, e: Event)
    requires Enabled(filter, s, e) && Succeeds(t, cfg, filter, s, e)
    ensures Left(Next(t, cfg, filter, s, e)) < Left(s)
  {
    match e
    case Deliver(key) => DeliverLess(t, cfg, filter, s, key);
    case Expire(key) => ExpireLess(t, cfg, filter, s, key);
    case Get(key) => GetLess(t, cfg, filter, s, key);
    case ReadService(key) => ReadLess(t, cfg, filter, s, key);
    case ReadSlices(key, ids) => ListLess(t, cfg, filter, s, key, ids);
    case Push(key, env) => PushLess(t, cfg, filter, s, key, env);
  }

  ghost predicate Smooth(t: Parser, cfg: Config, filter: Option<string -> bool>, s: Sys, run: seq<Event>)
    decreases |run|
  {
    run != [] ==>
      Enabled(filter, s, run[0]) && Succeeds(t, cfg, filter, s, run[0]) && Smooth(t, cfg, filter, Next(t, cfg, filter, s, run[0]), run[1..])
  }

  /** So such steps come to an end: there are at most as many as were left to do. */
  lemma {:induction false} Settles(t: Parser, cfg: Config, filter: Option<string -> bool>, s: Sys, run: seq<Event>)
    requires Smooth(t, cfg, filter, s, run)
    ensures |run| <= Left(s)
    decreases |run|
  {
    if run != [] {
      StepLess(t, cfg, filter, s, run[0]);
      Settles(t, cfg, filter, Next(t, cfg, filter, s, run[0]), run[1..]);
    }
  }

  /* ---- never stuck ---- */

  /** A Service's slices can always be listed, in some order. */
  lemma SomeListing(c: Cache, svc: Name) returns (ids: seq<string>)
    ensures Lists(c, svc, ids)
  {
    var names := set n | n in c.slices && n.0 == svc.0 && c.slices[n].owner == svc.1 :: n.1;
    ids := SortedKeys(names);
    forall i, j | 0 <= i < j < |ids|
      ensures ids[i] != ids[j]
    {
      assert StrLess(ids[i], ids[j]);
    }
    forall id
      ensures id in ids <==> (svc.0, id) in c.slices && c.slices[(svc.0, id)].owner == svc.1
    {
      assert id in ids <==> id in names;
      if (svc.0, id) in c.slices && c.slices[(svc.0, id)].owner == svc.1 {
        assert (svc.0, id).1 in names;
      }
    }
  }

  predicate AtRest(s: Sys) { s.pending == multiset{} && s.dirty == {} && s.delayed == {} && s.working == map[] }

  lemma WorkerMoves(filter: Option<string -> bool>, s: Sys, key: string, env: Env) returns (e: Event)
    requires ServicesOk(s.router.services) && key in s.working
    ensures Enabled(filter, s, e) && Internal(e)
  {
    match s.working[key]
    case Started => e := ReadService(key);
    case HaveService(_) =>
      var ids := SomeListing(s.cache, SplitKey(key));
      e := ReadSlices(key, ids);
    case HaveRules(_) => e := Push(key, env);
  }

  /** Where something is left to do, some step can be taken. */
  lemma NotStuck(filter: Option<string -> bool>, s: Sys, env: Env) returns (e: Event)
    requires ServicesOk(s.router.services) && !AtRest(s)
    ensures Enabled(filter, s, e) && Internal(e)
  {
    if s.working.Keys != {} {
      var key :| key in s.working.Keys;
      e := WorkerMoves(filter, s, key, env);
    } else if s.dirty != {} {
      var key :| key in s.dirty;
      e := Get(key);
    } else if s.delayed != {} {
      var key :| key in s.delayed;
      e := Expire(key);
    } else {
      assert s.working == map[];
      var key :| key in s.pending;
      e := Deliver(key);
    }
  }

  /** At rest the router holds, for every key, the rules the caches call for. */
  lemma RestIsRight(t: Parser, cfg: Config, filter: Option<string -> bool>, run: seq<Event>, key: string)
    requires Controller.Legal(t, cfg, filter, EMPTY, run) && AtRest(Controller.After(t, cfg, filter, EMPTY, run))
    ensures var s := Controller.After(t, cfg, filter, EMPTY, run);
            Desired(filter, s.cache, key, RulesAt(s.router.services, key))
  {
    Converges(t, cfg, filter, run, key);
  }
}
