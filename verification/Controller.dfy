/** The Service route controller: informer caches, a work queue, workers, and the router they drive. */
module Controller {
  import opened Common
  import opened Text
  import opened Helper
  import opened PodNet
  import opened SvcRoute

  type Name = (string, string)

  /** The informer caches; a slice's key is its namespace and its own name. */
  datatype Cache = Cache(services: map<Name, Service>, slices: map<Name, Slice>)

  /** Where a worker is with a key: nothing read yet, the Service read, the rules computed. */
  datatype Stage = Started | HaveService(svc: Service) | HaveRules(rules: seq<ServiceRule>)

  /** `pending` are cache changes whose handler has not run, `delayed` the keys waiting out a rate limit. */
  datatype Sys = Sys(
    cache: Cache, pending: multiset<string>, dirty: set<string>, delayed: set<string>, working: map<string, Stage>, router: State)

  datatype Event =
    | SetService(name: Name, svc: Option<Service>)
    | SetSlice(name: Name, slice: Option<Slice>)
    | Deliver(key: string)
    | Expire(key: string)
    | Get(key: string)
    | ReadService(key: string)
    | ReadSlices(key: string, ids: seq<string>)
    | ListFails(key: string)
    | Push(key: string, env: Env)
    | Other(op: Op, env: Env)

  /* ---- what the rules should be ---- */

  /** `ids` names, in some order and once each, the slices of a namespace labelled with the Service. */
  ghost predicate Lists(c: Cache, svc: Name, ids: seq<string>) {
    && (forall i, j :: 0 <= i < j < |ids| ==> ids[i] != ids[j])
    && (forall id :: id in ids <==> (svc.0, id) in c.slices && c.slices[(svc.0, id)].owner == svc.1)
  }

  function SlicesOf(c: Cache, ns: string, ids: seq<string>): (r: seq<Slice>)
    requires forall i :: 0 <= i < |ids| ==> (ns, ids[i]) in c.slices
    ensures |r| == |ids|
  {
    seq(|ids|, i requires 0 <= i < |ids| => c.slices[(ns, ids[i])])
  }

  ghost predicate ListedRules(filter: Option<string -> bool>, c: Cache, svc: Name, ids: seq<string>, rules: seq<ServiceRule>) {
    Lists(c, svc, ids) && svc in c.services && rules == Filter(filter, Build(c.services[svc], SlicesOf(c, svc.0, ids)))
  }

  /** The rules the caches call for at this key, up to the order the lister returns slices in. */
  ghost predicate Desired(filter: Option<string -> bool>, c: Cache, key: string, rules: seq<ServiceRule>) {
    var svc := SplitKey(key);
    if svc !in c.services then rules == [] else exists ids :: ListedRules(filter, c, svc, ids, rules)
  }

  function RulesAt(s: Services, key: string): seq<ServiceRule> { if key in s then s[key] else [] }

  /* ---- steps ---- */

  /** What a change of a slice from `old` to `new_` enqueues: the Service named by the object the handler is given. */
  function SliceKeys(ns: string, was: Option<Slice>, now: Option<Slice>): multiset<string> {
    var given := if now.Some? then now else was;
    if given.None? || given.value.owner == "" then multiset{} else multiset{ServiceKey(ns, given.value.owner)}
  }

  function Put<K, V>(m: map<K, V>, k: K, v: Option<V>): map<K, V> {
    if v.Some? then m[k := v.value] else m - {k}
  }

  /** Objects live in a namespace and have a name; neither holds a slash. */
  predicate Named(n: Name) { n.0 != "" && '/' !in n.0 && n.1 != "" }

  ghost predicate Enabled(filter: Option<string -> bool>, s: Sys, e: Event) {
    match e
    case SetService(name, svc) => Named(name)
    case SetSlice(name, slice) => Named(name)
    case Deliver(key) => key in s.pending
    case Expire(key) => key in s.delayed
    case Get(key) => key in s.dirty && key !in s.working
    case ReadService(key) => key in s.working && s.working[key].Started?
    case ReadSlices(key, ids) => key in s.working && s.working[key].HaveService? && Lists(s.cache, SplitKey(key), ids)
    case ListFails(key) => key in s.working && s.working[key].HaveService?
    case Push(key, _) => key in s.working && s.working[key].HaveRules? && ServicesOk(s.router.services)
    case Other(op, _) => (op.Start? || op.Attach? || op.Detach?) && ServicesOk(s.router.services)
  }

  /** `DetachService` for no rules, `AttachService` otherwise. */
  function PushOp(key: string, rules: seq<ServiceRule>): Op {
    if rules == [] then DetachService(key) else AttachService(key, rules)
  }

  ghost function Pushed(t: Parser, cfg: Config, s: Sys, key: string, env: Env): Sys
    requires key in s.working && s.working[key].HaveRules? && ServicesOk(s.router.services)
  {
    var (router, ok) := Apply(t, cfg, s.router, PushOp(key, s.working[key].rules), env);
    s.(router := router, working := s.working - {key}, delayed := if ok then s.delayed else s.delayed + {key})
  }

  ghost function Next(t: Parser, cfg: Config, filter: Option<string -> bool>, s: Sys, e: Event): Sys
    requires Enabled(filter, s, e)
  {
    match e
    case SetService(name, svc) =>
      s.(cache := s.cache.(services := Put(s.cache.services, name, svc)), pending := s.pending + multiset{ServiceKey(name.0, name.1)})
    case SetSlice(name, slice) =>
      s.(cache := s.cache.(slices := Put(s.cache.slices, name, slice)),
         pending := s.pending + SliceKeys(name.0, Lookup(s.cache.slices, name), slice))
    case Deliver(key) => s.(pending := s.pending - multiset{key}, dirty := s.dirty + {key})
    case Expire(key) => s.(delayed := s.delayed - {key}, dirty := s.dirty + {key})
    case Get(key) => s.(dirty := s.dirty - {key}, working := s.working[key := Started])
    case ReadService(key) =>
      var svc := SplitKey(key);
      s.(working := s.working[key := if svc in s.cache.services then HaveService(s.cache.services[svc]) else HaveRules([])])
    case ReadSlices(key, ids) =>
      var slices := SlicesOf(s.cache, SplitKey(key).0, ids);
      s.(working := s.working[key := HaveRules(Filter(filter, Build(s.working[key].svc, slices)))])
    case ListFails(key) => s.(working := s.working - {key}, delayed := s.delayed + {key})
    case Push(key, env) => Pushed(t, cfg, s, key, env)
    case Other(op, env) => s.(router := Apply(t, cfg, s.router, op, env).0)
  }

  /** A slice's service label never changes while the slice exists. */
  ghost predicate OwnerFixed(s: Sys, e: Event) {
    e.SetSlice? && e.slice.Some? && e.name in s.cache.slices ==> s.cache.slices[e.name].owner == e.slice.value.owner
  }

  /* ---- the invariant ---- */

  predicate Queued(s: Sys, key: string) { key in s.pending || key in s.dirty || key in s.delayed }

  /** What the worker has read is what the caches still say. */
  ghost predicate Current(filter: Option<string -> bool>, c: Cache, key: string, stage: Stage) {
    match stage
    case Started => true
    case HaveService(svc) => SplitKey(key) in c.services && c.services[SplitKey(key)] == svc
    case HaveRules(rules) => Desired(filter, c, key, rules)
  }

  ghost predicate KeyInv(filter: Option<string -> bool>, s: Sys, key: string) {
    || Queued(s, key)
    || (if key in s.working then Current(filter, s.cache, key, s.working[key])
        else Desired(filter, s.cache, key, RulesAt(s.router.services, key)))
  }

  /** Only rules with backends are ever pushed, so the router keeps them all. */
  ghost predicate StageFull(stage: Stage) {
    stage.HaveRules? ==> forall i :: 0 <= i < |stage.rules| ==> stage.rules[i].backends != []
  }

  ghost predicate Inv(filter: Option<string -> bool>, s: Sys) {
    && (forall key :: KeyInv(filter, s, key))
    && ServicesOk(s.router.services)
    && (forall key :: key in s.working ==> StageFull(s.working[key]))
    && (forall n :: n in s.cache.services ==> Named(n))
  }

  /* ---- cache changes ---- */

  /** Only the changed Service's own key depends on it. */
  lemma OtherKey(name: Name, key: string)
    requires Named(name) && key != ServiceKey(name.0, name.1)
    ensures SplitKey(key) != name
  {
    if '/' in key {
      JoinSplit(key);
    }
  }

  lemma SetServiceKeeps(filter: Option<string -> bool>, c: Cache, name: Name, svc: Option<Service>, key: string, rules: seq<ServiceRule>)
    requires Named(name) && key != ServiceKey(name.0, name.1)
    ensures var d := c.(services := Put(c.services, name, svc));
            && (Desired(filter, c, key, rules) ==> Desired(filter, d, key, rules))
            && (SplitKey(key) in d.services <==> SplitKey(key) in c.services)
            && (SplitKey(key) in c.services ==> d.services[SplitKey(key)] == c.services[SplitKey(key)])
  {
    OtherKey(name, key);
    var d := c.(services := Put(c.services, name, svc));
    var n := SplitKey(key);
    if n in c.services && Desired(filter, c, key, rules) {
      var ids :| ListedRules(filter, c, n, ids, rules);
      assert ListedRules(filter, d, n, ids, rules) by {
        assert Lists(d, n, ids) && SlicesOf(d, n.0, ids) == SlicesOf(c, n.0, ids);
      }
    }
  }

  /** A slice change leaves the listing of every Service that owned it neither before nor after. */
  lemma ListsKept(c: Cache, name: Name, slice: Option<Slice>, svc: Name, ids: seq<string>)
    requires Lists(c, svc, ids)
    requires name in c.slices && name.0 == svc.0 ==> c.slices[name].owner != svc.1
    requires slice.Some? && name.0 == svc.0 ==> slice.value.owner != svc.1
    ensures var d := c.(slices := Put(c.slices, name, slice)); Lists(d, svc, ids) && SlicesOf(d, svc.0, ids) == SlicesOf(c, svc.0, ids)
  {
    var d := c.(slices := Put(c.slices, name, slice));
    forall id
      ensures ((svc.0, id) in d.slices && d.slices[(svc.0, id)].owner == svc.1) <==>
              ((svc.0, id) in c.slices && c.slices[(svc.0, id)].owner == svc.1)
      ensures id in ids ==> (svc.0, id) in d.slices && d.slices[(svc.0, id)] == c.slices[(svc.0, id)]
    {
    }
  }

  lemma SetSliceKeeps(filter: Option<string -> bool>, s: Sys, name: Name, slice: Option<Slice>, key: string, rules: seq<ServiceRule>)
    requires Named(name) && OwnerFixed(s, SetSlice(name, slice)) && (forall n :: n in s.cache.services ==> Named(n))
    requires key !in SliceKeys(name.0, Lookup(s.cache.slices, name), slice) && Desired(filter, s.cache, key, rules)
    ensures Desired(filter, s.cache.(slices := Put(s.cache.slices, name, slice)), key, rules)
  {
    var n, c := SplitKey(key), s.cache;
    if n in c.services {
      var ids :| ListedRules(filter, c, n, ids, rules);
      if '/' in key {
        JoinSplit(key);
      }
      ListsKept(c, name, slice, n, ids);
      assert ListedRules(filter, c.(slices := Put(c.slices, name, slice)), n, ids, rules);
    }
  }

  lemma SetServiceInv(t: Parser, cfg: Config, filter: Option<string -> bool>, s: Sys, name: Name, svc: Option<Service>)
    requires Inv(filter, s) && Named(name)
    ensures Inv(filter, Next(t, cfg, filter, s, SetService(name, svc)))
  {
    var u := Next(t, cfg, filter, s, SetService(name, svc));
    forall key
      ensures KeyInv(filter, u, key)
    {
      assert KeyInv(filter, s, key);
      if key != ServiceKey(name.0, name.1) && !Queued(s, key) {
        var rules := if key in s.working && s.working[key].HaveRules? then s.working[key].rules else RulesAt(s.router.services, key);
        SetServiceKeeps(filter, s.cache, name, svc, key, rules);
      }
    }
  }

  lemma SetSliceInv(t: Parser, cfg: Config, filter: Option<string -> bool>, s: Sys, name: Name, slice: Option<Slice>)
    requires Inv(filter, s) && Named(name) && OwnerFixed(s, SetSlice(name, slice))
    ensures Inv(filter, Next(t, cfg, filter, s, SetSlice(name, slice)))
  {
    var u := Next(t, cfg, filter, s, SetSlice(name, slice));
    var keys := SliceKeys(name.0, Lookup(s.cache.slices, name), slice);
    forall key
      ensures KeyInv(filter, u, key)
    {
      assert KeyInv(filter, s, key);
      if key !in keys && !Queued(s, key) {
        var rules := if key in s.working && s.working[key].HaveRules? then s.working[key].rules else RulesAt(s.router.services, key);
        if Desired(filter, s.cache, key, rules) {
          SetSliceKeeps(filter, s, name, slice, key, rules);
        }
      }
    }
  }

  /* ---- workers ---- */

  /** What a push of `rules` does to the router's services: `ok` leaves exactly those rules, and no other key moves. */
  ghost predicate PushDoes(before: Services, key: string, rules: seq<ServiceRule>, after: Services, ok: bool) {
    && ServicesOk(after) && (ok ==> RulesAt(after, key) == rules)
    && (forall k :: k != key ==> RulesAt(after, k) == RulesAt(before, k))
  }

  lemma DetachExact(t: Parser, cfg: Config, r: State, key: string, env: Env)
    requires ServicesOk(r.services)
    ensures var (u, ok) := Apply(t, cfg, r, DetachService(key), env); PushDoes(r.services, key, [], u.services, ok)
  {
  }

  lemma AttachExact(t: Parser, cfg: Config, r: State, key: string, rules: seq<ServiceRule>, env: Env)
    requires ServicesOk(r.services) && rules != [] && Kept(rules) == rules
    ensures var (u, ok) := Apply(t, cfg, r, AttachService(key, rules), env); PushDoes(r.services, key, rules, u.services, ok)
  {
    if AllValid(t, rules) {
      KeptPorts(t, rules);
      assert ServicesOk(r.services[key := rules]);
    }
  }

  lemma PushExact(t: Parser, cfg: Config, r: State, key: string, rules: seq<ServiceRule>, env: Env)
    requires ServicesOk(r.services) && forall i :: 0 <= i < |rules| ==> rules[i].backends != []
    ensures var (u, ok) := Apply(t, cfg, r, PushOp(key, rules), env); PushDoes(r.services, key, rules, u.services, ok)
  {
    KeptWhole(rules);
    if rules == [] {
      DetachExact(t, cfg, r, key, env);
    } else {
      AttachExact(t, cfg, r, key, rules, env);
    }
  }

  lemma PushInv(t: Parser, cfg: Config, filter: Option<string -> bool>, s: Sys, key: string, env: Env)
    requires Inv(filter, s) && Enabled(filter, s, Push(key, env))
    ensures Inv(filter, Next(t, cfg, filter, s, Push(key, env)))
  {
    var u := Pushed(t, cfg, s, key, env);
    assert StageFull(s.working[key]);
    PushExact(t, cfg, s.router, key, s.working[key].rules, env);
    forall k
      ensures KeyInv(filter, u, k)
    {
      assert KeyInv(filter, s, k);
    }
  }

  lemma ReadServiceInv(t: Parser, cfg: Config, filter: Option<string -> bool>, s: Sys, key: string)
    requires Inv(filter, s) && Enabled(filter, s, ReadService(key))
    ensures Inv(filter, Next(t, cfg, filter, s, ReadService(key)))
  {
    var u := Next(t, cfg, filter, s, ReadService(key));
    forall k
      ensures KeyInv(filter, u, k)
    {
      assert KeyInv(filter, s, k);
    }
  }

  /** The rules a worker computes are the ones called for, if the Service it read is still the cached one. */
  lemma Computed(filter: Option<string -> bool>, s: Sys, key: string, ids: seq<string>, svc: Service, rules: seq<ServiceRule>)
    requires Lists(s.cache, SplitKey(key), ids) && rules == Filter(filter, Build(svc, SlicesOf(s.cache, SplitKey(key).0, ids)))
    ensures StageFull(HaveRules(rules))
    ensures Current(filter, s.cache, key, HaveService(svc)) ==> Current(filter, s.cache, key, HaveRules(rules))
  {
    PushedHaveBackends(filter, svc, SlicesOf(s.cache, SplitKey(key).0, ids));
    if Current(filter, s.cache, key, HaveService(svc)) {
      assert ListedRules(filter, s.cache, SplitKey(key), ids, rules);
    }
  }

  /** Moving a worker on keeps the invariant if what it now holds is as current as before. */
  lemma StageInv(filter: Option<string -> bool>, s: Sys, key: string, stage: Stage)
    requires Inv(filter, s) && key in s.working && StageFull(stage)
    requires Current(filter, s.cache, key, s.working[key]) ==> Current(filter, s.cache, key, stage)
    ensures Inv(filter, s.(working := s.working[key := stage]))
  {
    var u := s.(working := s.working[key := stage]);
    forall k
      ensures KeyInv(filter, u, k)
    {
      assert KeyInv(filter, s, k);
    }
  }

  lemma ReadSlicesInv(t: Parser, cfg: Config, filter: Option<string -> bool>, s: Sys, key: string, ids: seq<string>)
    requires Inv(filter, s) && Enabled(filter, s, ReadSlices(key, ids))
    ensures Inv(filter, Next(t, cfg, filter, s, ReadSlices(key, ids)))
  {
    var svc := s.working[key].svc;
    var rules := Filter(filter, Build(svc, SlicesOf(s.cache, SplitKey(key).0, ids)));
    Computed(filter, s, key, ids, svc, rules);
    StageInv(filter, s, key, HaveRules(rules));
  }

  lemma OtherInv(t: Parser, cfg: Config, filter: Option<string -> bool>, s: Sys, op: Op, env: Env)
    requires Inv(filter, s) && Enabled(filter, s, Other(op, env))
    ensures Inv(filter, Next(t, cfg, filter, s, Other(op, env)))
  {
    var u := Next(t, cfg, filter, s, Other(op, env));
    assert u.router.services == s.router.services;
    forall k
      ensures KeyInv(filter, u, k)
    {
      assert KeyInv(filter, s, k);
    }
  }

  lemma QueueInv(t: Parser, cfg: Config, filter: Option<string -> bool>, s: Sys, e: Event)
    requires Inv(filter, s) && Enabled(filter, s, e) && (e.Deliver? || e.Expire? || e.Get? || e.ListFails?)
    ensures Inv(filter, Next(t, cfg, filter, s, e))
  {
    var u := Next(t, cfg, filter, s, e);
    forall k
      ensures KeyInv(filter, u, k)
    {
      assert KeyInv(filter, s, k);
    }
  }

  lemma StepInv(t: Parser, cfg: Config, filter: Option<string -> bool>, s: Sys, e: Event)
    requires Inv(filter, s) && Enabled(filter, s, e) && OwnerFixed(s, e)
    ensures Inv(filter, Next(t, cfg, filter, s, e))
  {
    match e
    case SetService(name, svc) => SetServiceInv(t, cfg, filter, s, name, svc);
    case SetSlice(name, slice) => SetSliceInv(t, cfg, filter, s, name, slice);
    case ReadService(key) => ReadServiceInv(t, cfg, filter, s, key);
    case ReadSlices(key, ids) => ReadSlicesInv(t, cfg, filter, s, key, ids);
    case Push(key, env) => PushInv(t, cfg, filter, s, key, env);
    case Other(op, env) => OtherInv(t, cfg, filter, s, op, env);
    case Deliver(_) => QueueInv(t, cfg, filter, s, e);
    case Expire(_) => QueueInv(t, cfg, filter, s, e);
    case Get(_) => QueueInv(t, cfg, filter, s, e);
    case ListFails(_) => QueueInv(t, cfg, filter, s, e);
  }

  /* ---- runs ---- */

  ghost predicate Legal(t: Parser, cfg: Config, filter: Option<string -> bool>, s: Sys, run: seq<Event>)
    decreases |run|
  {
    run == [] ||
    (Enabled(filter, s, run[0]) && OwnerFixed(s, run[0]) && Legal(t, cfg, filter, Next(t, cfg, filter, s, run[0]), run[1..]))
  }

  ghost function After(t: Parser, cfg: Config, filter: Option<string -> bool>, s: Sys, run: seq<Event>): Sys
    requires Legal(t, cfg, filter, s, run)
    decreases |run|
  {
    if run == [] then s else After(t, cfg, filter, Next(t, cfg, filter, s, run[0]), run[1..])
  }

  const EMPTY := Sys(Cache(map[], map[]), multiset{}, {}, {}, map[], FRESH)

  lemma {:induction false} RunInv(t: Parser, cfg: Config, filter: Option<string -> bool>, s: Sys, run: seq<Event>)
    requires Inv(filter, s) && Legal(t, cfg, filter, s, run)
    ensures Inv(filter, After(t, cfg, filter, s, run))
    decreases |run|
  {
    if run != [] {
      StepInv(t, cfg, filter, s, run[0]);
      RunInv(t, cfg, filter, Next(t, cfg, filter, s, run[0]), run[1..]);
    }
  }

  /**
   * Level-triggered convergence: at every point of every run each key is queued, being processed, or has at the router
   * exactly the rules the caches call for.
   */
  lemma Converges(t: Parser, cfg: Config, filter: Option<string -> bool>, run: seq<Event>, key: string)
    requires Legal(t, cfg, filter, EMPTY, run)
    ensures var s := After(t, cfg, filter, EMPTY, run);
            Queued(s, key) || key in s.working || Desired(filter, s.cache, key, RulesAt(s.router.services, key))
  {
    RunInv(t, cfg, filter, EMPTY, run);
    assert KeyInv(filter, After(t, cfg, filter, EMPTY, run), key);
  }
}
