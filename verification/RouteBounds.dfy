/** What the controller's convergence rests on: the order slices are listed in, and labels that stay. */
module RouteBounds {
  import opened Common
  import opened Text
  import opened Helper
  import opened PodNet
  import opened SvcRoute
  import opened Controller

  /* ---- when nothing is left to do ---- */

  lemma {:induction false} FirstPortAppend(x: seq<SlicePort>, y: seq<SlicePort>, name: string)
    ensures FirstPort(x + y, name) == if FirstPort(x, name).Some? then FirstPort(x, name) else FirstPort(y, name)
  {
    if y == [] {
      assert x + y == x;
    } else {
      assert (x + y)[..|x + y| - 1] == x + y[..|y| - 1];
      FirstPortAppend(x, y[..|y| - 1], name);
    }
  }

  lemma {:induction false} AllPortsCons(s: Slice, rest: seq<Slice>)
    ensures AllPorts([s] + rest) == s.ports + AllPorts(rest)
  {
    var all := [s] + rest;
    if rest == [] {
      assert all[..0] == [] && AllPorts([]) == [];
    } else {
      assert all[..|all| - 1] == [s] + rest[..|rest| - 1];
      AllPortsCons(s, rest[..|rest| - 1]);
    }
  }

  /** The number a listing gives a name comes from one of its slices, if any has one. */
  lemma {:induction false} FirstFromSlice(slices: seq<Slice>, name: string)
    ensures FirstPort(AllPorts(slices), name).None? <==> forall i :: 0 <= i < |slices| ==> FirstPort(slices[i].ports, name).None?
    ensures FirstPort(AllPorts(slices), name).Some? ==>
              exists i :: 0 <= i < |slices| && FirstPort(slices[i].ports, name) == FirstPort(AllPorts(slices), name)
  {
    if slices != [] {
      var n := |slices| - 1;
      FirstFromSlice(slices[..n], name);
      FirstPortAppend(AllPorts(slices[..n]), slices[n].ports, name);
      assert forall i :: 0 <= i < n ==> slices[..n][i] == slices[i];
    }
  }

  ghost predicate SameSlices(a: seq<Slice>, b: seq<Slice>) { forall s :: s in a <==> s in b }

  lemma SameIPs(a: seq<Slice>, b: seq<Slice>)
    requires SameSlices(a, b)
    ensures SliceIPs(a) == SliceIPs(b)
  {
    forall ip
      ensures ip in SliceIPs(a) <==> ip in SliceIPs(b)
    {
      SliceIPsExact(a, ip);
      SliceIPsExact(b, ip);
      assert forall i :: 0 <= i < |a| ==> a[i] in b;
      assert forall i :: 0 <= i < |b| ==> b[i] in a;
    }
  }

  /** Whether any slice numbers a name does not depend on the order. */
  lemma SameNumbered(a: seq<Slice>, b: seq<Slice>, name: string)
    requires SameSlices(a, b)
    ensures FirstPort(AllPorts(a), name).Some? <==> FirstPort(AllPorts(b), name).Some?
  {
    FirstFromSlice(a, name);
    FirstFromSlice(b, name);
    assert forall i :: 0 <= i < |a| ==> a[i] in b;
    assert forall i :: 0 <= i < |b| ==> b[i] in a;
  }

  /** Every slice that numbers the name numbers it alike. */
  ghost predicate NameAgrees(slices: seq<Slice>, name: string) {
    forall i, j :: 0 <= i < |slices| && 0 <= j < |slices| && FirstPort(slices[i].ports, name).Some? && FirstPort(slices[j].ports, name).Some?
                   ==> FirstPort(slices[i].ports, name) == FirstPort(slices[j].ports, name)
  }

  lemma SamePort(a: seq<Slice>, b: seq<Slice>, name: string)
    requires SameSlices(a, b) && NameAgrees(a, name)
    ensures FirstPort(AllPorts(a), name) == FirstPort(AllPorts(b), name)
  {
    FirstFromSlice(a, name);
    FirstFromSlice(b, name);
    SameNumbered(a, b, name);
    if FirstPort(AllPorts(a), name).Some? {
      var j :| 0 <= j < |b| && FirstPort(b[j].ports, name) == FirstPort(AllPorts(b), name);
      assert b[j] in a;
    }
  }

  predicate Known(sp: SvcPort) { Lower(sp.proto) in {"tcp", "udp"} }

  ghost predicate Alike(ports: seq<SvcPort>, x: seq<SlicePort>, y: seq<SlicePort>) {
    forall i :: 0 <= i < |ports| && Known(ports[i]) ==> FirstPort(x, ports[i].name) == FirstPort(y, ports[i].name)
  }

  /** The rules of two listings are the same exactly when the listings number the Service's ports alike. */
  lemma {:induction false} PortRulesIff(svc: Service, ports: seq<SvcPort>, x: seq<SlicePort>, y: seq<SlicePort>, ips: seq<string>)
    requires forall name :: FirstPort(x, name).Some? <==> FirstPort(y, name).Some?
    ensures PortRules(svc, ports, x, ips) == PortRules(svc, ports, y, ips) <==> Alike(ports, x, y)
  {
    if ports != [] {
      var n := |ports| - 1;
      PortRulesIff(svc, ports[..n], x, y, ips);
      var a, b := PortRules(svc, ports[..n], x, ips), PortRules(svc, ports[..n], y, ips);
      assert Alike(ports, x, y) <==> Alike(ports[..n], x, y) && (Known(ports[n]) ==> FirstPort(x, ports[n].name) == FirstPort(y, ports[n].name));
      if Known(ports[n]) && FirstPort(x, ports[n].name).Some? {
        var ra := ServiceRule(ServiceKey(svc.ns, svc.name), svc.clusterIP, Lower(ports[n].proto), ports[n].port, FirstPort(x, ports[n].name).value, ips);
        var rb := ra.(targetPort := FirstPort(y, ports[n].name).value);
        SnocEqual(a, ra, b, rb);
      }
    }
  }

  lemma SnocEqual<T>(a: seq<T>, x: T, b: seq<T>, y: T)
    ensures a + [x] == b + [y] <==> a == b && x == y
  {
    if a + [x] == b + [y] {
      assert |a| == |b| && (a + [x])[..|a|] == a && (b + [y])[..|b|] == b;
      assert (a + [x])[|a|] == x && (b + [y])[|b|] == y;
    }
  }

  /** No order of these slices can change the Service's rules. */
  ghost predicate OrderSafe(svc: Service, slices: seq<Slice>) {
    || !Programmable(svc) || SliceIPs(slices) == {}
    || forall i :: 0 <= i < |svc.ports| && Known(svc.ports[i]) ==> NameAgrees(slices, svc.ports[i].name)
  }

  lemma BuildSame(svc: Service, a: seq<Slice>, b: seq<Slice>)
    requires SameSlices(a, b) && OrderSafe(svc, a)
    ensures Build(svc, a) == Build(svc, b)
  {
    SameIPs(a, b);
    if Programmable(svc) && SliceIPs(a) != {} {
      forall name
        ensures FirstPort(AllPorts(a), name).Some? <==> FirstPort(AllPorts(b), name).Some?
      {
        SameNumbered(a, b, name);
      }
      forall i | 0 <= i < |svc.ports| && Known(svc.ports[i])
        ensures FirstPort(AllPorts(a), svc.ports[i].name) == FirstPort(AllPorts(b), svc.ports[i].name)
      {
        SamePort(a, b, svc.ports[i].name);
      }
      PortRulesIff(svc, svc.ports, AllPorts(a), AllPorts(b), SortedKeys(SliceIPs(a)));
    }
  }

  /** The slice at `i` first, then the others in order. */
  function Front(a: seq<Slice>, i: nat): seq<Slice>
    requires i < |a|
  {
    [a[i]] + (a[..i] + a[i + 1..])
  }

  lemma FrontReorders(a: seq<Slice>, i: nat)
    requires i < |a|
    ensures multiset(Front(a, i)) == multiset(a) && SameSlices(a, Front(a, i))
  {
    assert a == a[..i] + [a[i]] + a[i + 1..];
    forall s
      ensures s in a <==> s in Front(a, i)
    {
      assert s in a <==> s in a[..i] || s == a[i] || s in a[i + 1..];
    }
  }

  /** The slice in front decides. */
  lemma FrontDecides(a: seq<Slice>, i: nat, name: string)
    requires i < |a| && FirstPort(a[i].ports, name).Some?
    ensures FirstPort(AllPorts(Front(a, i)), name) == FirstPort(a[i].ports, name)
  {
    AllPortsCons(a[i], a[..i] + a[i + 1..]);
    FirstPortAppend(a[i].ports, AllPorts(a[..i] + a[i + 1..]), name);
  }

  lemma Disagreement(svc: Service, a: seq<Slice>, sp: nat, i: nat, j: nat)
    requires Programmable(svc) && SliceIPs(a) != {} && sp < |svc.ports| && Known(svc.ports[sp]) && i < |a| && j < |a|
    requires var name := svc.ports[sp].name;
             FirstPort(a[i].ports, name).Some? && FirstPort(a[j].ports, name).Some? && FirstPort(a[i].ports, name) != FirstPort(a[j].ports, name)
    ensures Build(svc, Front(a, i)) != Build(svc, Front(a, j))
  {
    var x, y, name := Front(a, i), Front(a, j), svc.ports[sp].name;
    FrontReorders(a, i);
    FrontReorders(a, j);
    SameIPs(a, x);
    SameIPs(a, y);
    FrontDecides(a, i, name);
    FrontDecides(a, j, name);
    forall n
      ensures FirstPort(AllPorts(x), n).Some? <==> FirstPort(AllPorts(y), n).Some?
    {
      SameNumbered(a, x, n);
      SameNumbered(a, y, n);
    }
    PortRulesIff(svc, svc.ports, AllPorts(x), AllPorts(y), SortedKeys(SliceIPs(a)));
  }

  /**
   * Every order of the slices gives the same rules if and only if the Service is not programmed, nothing backs it, or
   * the slices number each of its tcp and udp ports alike.
   */
  lemma OrderFreeIff(svc: Service, a: seq<Slice>)
    ensures (forall b :: multiset(b) == multiset(a) ==> Build(svc, b) == Build(svc, a)) <==> OrderSafe(svc, a)
  {
    if OrderSafe(svc, a) {
      forall b | multiset(b) == multiset(a)
        ensures Build(svc, b) == Build(svc, a)
      {
        forall s
          ensures s in a <==> s in b
        {
          assert s in a <==> s in multiset(a);
          assert s in b <==> s in multiset(b);
        }
        BuildSame(svc, a, b);
      }
    } else {
      var sp :| 0 <= sp < |svc.ports| && Known(svc.ports[sp]) && !NameAgrees(a, svc.ports[sp].name);
      var name := svc.ports[sp].name;
      var i, j :| 0 <= i < |a| && 0 <= j < |a| && FirstPort(a[i].ports, name).Some? && FirstPort(a[j].ports, name).Some?
                  && FirstPort(a[i].ports, name) != FirstPort(a[j].ports, name);
      Disagreement(svc, a, sp, i, j);
      FrontReorders(a, i);
      FrontReorders(a, j);
    }
  }

  function OneSlice(owner: string, ip: string, name: string, number: int): Slice {
    Slice(owner, true, [SliceEndpoint(None, None, [ip])], [SlicePort(Some(name), Some(number))])
  }

  lemma OnePort(owner: string, ip: string, name: string, number: int)
    ensures FirstPort(OneSlice(owner, ip, name, number).ports, name) == Some(number)
  {
    var ports := OneSlice(owner, ip, name, number).ports;
    assert FirstPort(ports[..0], name) == None;
  }

  lemma OneBacks(slices: seq<Slice>, owner: string, ip: string, name: string, number: int)
    requires slices != [] && slices[0] == OneSlice(owner, ip, name, number)
    ensures SliceIPs(slices) != {}
  {
    assert Serving(slices[0].endpoints[0]) && ip in slices[0].endpoints[0].addresses;
    assert Backs(slices, ip);
    SliceIPsExact(slices, ip);
  }

  /** Two slices that number one port differently, listed in either order. */
  lemma OrderMatters(svc: Service, sp: SvcPort, ip: string, x: int, y: int)
    requires Programmable(svc) && svc.ports == [sp] && Known(sp) && x != y
    ensures var a, b := OneSlice(svc.name, ip, sp.name, x), OneSlice(svc.name, ip, sp.name, y);
            Build(svc, [a, b]) != Build(svc, [b, a])
  {
    var a, b := OneSlice(svc.name, ip, sp.name, x), OneSlice(svc.name, ip, sp.name, y);
    var both := [a, b];
    OneBacks(both, svc.name, ip, sp.name, x);
    OnePort(svc.name, ip, sp.name, x);
    OnePort(svc.name, ip, sp.name, y);
    assert svc.ports[0] == sp;
    Disagreement(svc, both, 0, 0, 1);
    assert Front(both, 0) == [a, b] && Front(both, 1) == [b, a];
  }

  /** Two lists of the same ids list the same slices. */
  lemma SameMapped(c: Cache, ns: string, x: seq<string>, y: seq<string>)
    requires forall id :: id in x <==> id in y
    requires forall id :: id in x ==> (ns, id) in c.slices
    ensures SameSlices(SlicesOf(c, ns, x), SlicesOf(c, ns, y))
  {
    var a, b := SlicesOf(c, ns, x), SlicesOf(c, ns, y);
    forall i | 0 <= i < |x|
      ensures a[i] in b
    {
      assert x[i] in y;
      var j :| 0 <= j < |y| && y[j] == x[i];
      assert b[j] == a[i];
    }
    forall j | 0 <= j < |y|
      ensures b[j] in a
    {
      assert y[j] in x;
      var i :| 0 <= i < |x| && x[i] == y[j];
      assert a[i] == b[j];
    }
  }

  lemma SameListing(c: Cache, svc: Name, x: seq<string>, y: seq<string>)
    requires Lists(c, svc, x) && Lists(c, svc, y)
    ensures SameSlices(SlicesOf(c, svc.0, x), SlicesOf(c, svc.0, y))
  {
    SameMapped(c, svc.0, x, y);
  }

  /** In a quiet system the router holds, at each Service's key, the rules of any listing of its slices. */
  lemma QuietExact(t: Parser, cfg: Config, filter: Option<string -> bool>, run: seq<Event>, key: string, ids: seq<string>)
    requires Controller.Legal(t, cfg, filter, EMPTY, run)
    requires var s, svc := Controller.After(t, cfg, filter, EMPTY, run), SplitKey(key);
             && !Queued(s, key) && key !in s.working
             && svc in s.cache.services && Lists(s.cache, svc, ids) && OrderSafe(s.cache.services[svc], SlicesOf(s.cache, svc.0, ids))
    ensures var s, svc := Controller.After(t, cfg, filter, EMPTY, run), SplitKey(key);
            RulesAt(s.router.services, key) == Filter(filter, Build(s.cache.services[svc], SlicesOf(s.cache, svc.0, ids)))
  {
    Converges(t, cfg, filter, run, key);
    var s, svc := Controller.After(t, cfg, filter, EMPTY, run), SplitKey(key);
    var other :| ListedRules(filter, s.cache, svc, other, RulesAt(s.router.services, key));
    SameListing(s.cache, svc, ids, other);
    BuildSame(s.cache.services[svc], SlicesOf(s.cache, svc.0, ids), SlicesOf(s.cache, svc.0, other));
  }

  /* ---- a label that changes ---- */

  /** `ids` lists the slices of the Service other than the one called `gone`. */
  ghost predicate ListsWithout(c: Cache, svc: Name, gone: string, ids: seq<string>) {
    && (forall i, j :: 0 <= i < j < |ids| ==> ids[i] != ids[j])
    && (forall id :: id in ids <==> id != gone && (svc.0, id) in c.slices && c.slices[(svc.0, id)].owner == svc.1)
  }

  ghost predicate RestRules(filter: Option<string -> bool>, c: Cache, svc: Name, gone: string, ids: seq<string>, rules: seq<ServiceRule>) {
    ListsWithout(c, svc, gone, ids) && svc in c.services && rules == Filter(filter, Build(c.services[svc], SlicesOf(c, svc.0, ids)))
  }

  /** The rules the caches would call for at the Service's key without that slice. */
  ghost predicate DesiredWithout(filter: Option<string -> bool>, c: Cache, svc: Name, gone: string, rules: seq<ServiceRule>) {
    if svc !in c.services then rules == [] else exists ids :: RestRules(filter, c, svc, gone, ids, rules)
  }

  /** Once relabelled, a slice is listed for its old Service no more; the others are as before. */
  lemma ListsRest(c: Cache, name: Name, slice: Slice, svc: Name, ids: seq<string>)
    requires name.0 == svc.0 && slice.owner != svc.1
    ensures var d := c.(slices := Put(c.slices, name, Some(slice)));
            && (Lists(d, svc, ids) <==> ListsWithout(c, svc, name.1, ids))
            && (Lists(d, svc, ids) ==> SlicesOf(d, svc.0, ids) == SlicesOf(c, svc.0, ids))
  {
    var d := c.(slices := Put(c.slices, name, Some(slice)));
    forall id
      ensures ((svc.0, id) in d.slices && d.slices[(svc.0, id)].owner == svc.1) <==>
              (id != name.1 && (svc.0, id) in c.slices && c.slices[(svc.0, id)].owner == svc.1)
      ensures id != name.1 && (svc.0, id) in c.slices ==> d.slices[(svc.0, id)] == c.slices[(svc.0, id)]
    {
    }
  }

  lemma DesiredRest(filter: Option<string -> bool>, c: Cache, name: Name, slice: Slice, svc: Name, rules: seq<ServiceRule>)
    requires Named(svc) && name.0 == svc.0 && slice.owner != svc.1
    ensures Desired(filter, c.(slices := Put(c.slices, name, Some(slice))), ServiceKey(svc.0, svc.1), rules) <==>
            DesiredWithout(filter, c, svc, name.1, rules)
  {
    SplitJoin(svc.0, svc.1);
    var d := c.(slices := Put(c.slices, name, Some(slice)));
    forall ids
      ensures ListedRules(filter, d, svc, ids, rules) <==> RestRules(filter, c, svc, name.1, ids, rules)
    {
      ListsRest(c, name, slice, svc, ids);
    }
  }

  /** What the old key's worker, or else the router, must already hold for the change to do no harm. */
  ghost predicate Unharmed(filter: Option<string -> bool>, s: Sys, svc: Name, gone: string) {
    var key := ServiceKey(svc.0, svc.1);
    if key in s.working then s.working[key].HaveRules? ==> DesiredWithout(filter, s.cache, svc, gone, s.working[key].rules)
    else DesiredWithout(filter, s.cache, svc, gone, RulesAt(s.router.services, key))
  }

  /**
   * Relabelling a slice keeps its old Service's key right if and only if the key is queued anyway, its worker has not
   * listed the slices yet, or what the worker or the router holds is what the remaining slices call for.
   */
  lemma RelabelKeepsIff(t: Parser, cfg: Config, filter: Option<string -> bool>, s: Sys, name: Name, slice: Slice)
    requires Controller.Inv(filter, s) && Named(name) && name in s.cache.slices && s.cache.slices[name].owner != ""
    requires slice.owner != s.cache.slices[name].owner
    ensures var svc := (name.0, s.cache.slices[name].owner);
            var key := ServiceKey(svc.0, svc.1);
            KeyInv(filter, Next(t, cfg, filter, s, SetSlice(name, Some(slice))), key) <==>
            Queued(s, key) || Unharmed(filter, s, svc, name.1)
  {
    var svc := (name.0, s.cache.slices[name].owner);
    var key, u := ServiceKey(svc.0, svc.1), Next(t, cfg, filter, s, SetSlice(name, Some(slice)));
    assert KeyInv(filter, s, key);
    SplitJoin(svc.0, svc.1);
    SplitJoin(svc.0, slice.owner);
    assert Queued(u, key) <==> Queued(s, key);
    DesiredRest(filter, s.cache, name, slice, svc, RulesAt(s.router.services, key));
    if key in s.working && s.working[key].HaveRules? {
      DesiredRest(filter, s.cache, name, slice, svc, s.working[key].rules);
    }
  }

  lemma SameRest(c: Cache, svc: Name, gone: string, x: seq<string>, y: seq<string>)
    requires ListsWithout(c, svc, gone, x) && ListsWithout(c, svc, gone, y)
    ensures SameSlices(SlicesOf(c, svc.0, x), SlicesOf(c, svc.0, y))
  {
    SameMapped(c, svc.0, x, y);
  }

  /**
   * So an idle Service is stranded by the change exactly when the slice made a difference to its rules; whatever the
   * number of slices that remain, it then goes on routing to the moved backends with nothing queued.
   */
  lemma StrandedIff(t: Parser, cfg: Config, filter: Option<string -> bool>, s: Sys, name: Name, slice: Slice, all: seq<string>, rest: seq<string>)
    requires Controller.Inv(filter, s) && Named(name) && name in s.cache.slices && s.cache.slices[name].owner != ""
    requires slice.owner != s.cache.slices[name].owner
    requires var svc := (name.0, s.cache.slices[name].owner);
             var key := ServiceKey(svc.0, svc.1);
             && svc in s.cache.services && !Queued(s, key) && key !in s.working
             && Lists(s.cache, svc, all) && OrderSafe(s.cache.services[svc], SlicesOf(s.cache, svc.0, all))
             && ListsWithout(s.cache, svc, name.1, rest) && OrderSafe(s.cache.services[svc], SlicesOf(s.cache, svc.0, rest))
    ensures var svc := (name.0, s.cache.slices[name].owner);
            var c := s.cache;
            KeyInv(filter, Next(t, cfg, filter, s, SetSlice(name, Some(slice))), ServiceKey(svc.0, svc.1)) <==>
            Filter(filter, Build(c.services[svc], SlicesOf(c, svc.0, all))) == Filter(filter, Build(c.services[svc], SlicesOf(c, svc.0, rest)))
  {
    var c, svc := s.cache, (name.0, s.cache.slices[name].owner);
    var key := ServiceKey(svc.0, svc.1);
    var held := RulesAt(s.router.services, key);
    RelabelKeepsIff(t, cfg, filter, s, name, slice);
    assert KeyInv(filter, s, key);
    SplitJoin(svc.0, svc.1);
    var now :| ListedRules(filter, c, svc, now, held);
    SameListing(c, svc, all, now);
    BuildSame(c.services[svc], SlicesOf(c, svc.0, all), SlicesOf(c, svc.0, now));
    if ids :| RestRules(filter, c, svc, name.1, ids, held) {
      SameRest(c, svc, name.1, rest, ids);
      BuildSame(c.services[svc], SlicesOf(c, svc.0, rest), SlicesOf(c, svc.0, ids));
    } else {
      assert !RestRules(filter, c, svc, name.1, rest, held);
    }
  }

  /* ---- a run that gets there ---- */

  ghost predicate Reaches(t: Parser, cfg: Config, u: Sys) {
    exists run :: Controller.Legal(t, cfg, None, EMPTY, run) && Controller.After(t, cfg, None, EMPTY, run) == u
  }

  lemma {:induction false} RunOn(t: Parser, cfg: Config, s: Sys, run: seq<Event>, e: Event)
    requires Controller.Legal(t, cfg, None, s, run) && Enabled(None, Controller.After(t, cfg, None, s, run), e) && OwnerFixed(Controller.After(t, cfg, None, s, run), e)
    ensures Controller.Legal(t, cfg, None, s, run + [e])
    ensures Controller.After(t, cfg, None, s, run + [e]) == Next(t, cfg, None, Controller.After(t, cfg, None, s, run), e)
    decreases |run|
  {
    if run == [] {
      assert run + [e] == [e] && [e][1..] == [];
      var u := Next(t, cfg, None, s, e);
      assert Controller.Legal(t, cfg, None, u, []) && Controller.After(t, cfg, None, u, []) == u;
    } else {
      assert (run + [e])[1..] == run[1..] + [e];
      RunOn(t, cfg, Next(t, cfg, None, s, run[0]), run[1..], e);
    }
  }

  lemma ReachThen(t: Parser, cfg: Config, u: Sys, e: Event)
    requires Reaches(t, cfg, u) && Enabled(None, u, e) && OwnerFixed(u, e)
    ensures Reaches(t, cfg, Next(t, cfg, None, u, e))
  {
    var run :| Controller.Legal(t, cfg, None, EMPTY, run) && Controller.After(t, cfg, None, EMPTY, run) == u;
    RunOn(t, cfg, EMPTY, run, e);
  }

  const FINE := Env(true, true, true, None, true, true, true, map[])

  /** A Service, a slice of its namespace, and the Service's key. */
  ghost predicate Setup(web: Name, one: Name, key: string) {
    Named(web) && Named(one) && web.0 == one.0 && key == ServiceKey(web.0, web.1) && SplitKey(key) == web
  }

  lemma StartedRun(t: Parser, cfg: Config) returns (s: Sys)
    requires cfg.iface != ""
    ensures Reaches(t, cfg, s) && s == EMPTY.(router := s.router) && s.router.started && s.router.services == map[]
  {
    assert Controller.Legal(t, cfg, None, EMPTY, []) && Controller.After(t, cfg, None, EMPTY, []) == EMPTY;
    ReachThen(t, cfg, EMPTY, Other(Op.Start, FINE));
    s := Next(t, cfg, None, EMPTY, Other(Op.Start, FINE));
  }

  lemma FilledRun(t: Parser, cfg: Config, svc: Service, slice: Slice, s: Sys, web: Name, one: Name, key: string) returns (u: Sys)
    requires Setup(web, one, key)
    requires Reaches(t, cfg, s) && s == EMPTY.(router := s.router) && slice.owner == web.1
    ensures Reaches(t, cfg, u) && u == s.(cache := Cache(map[web := svc], map[one := slice]), pending := multiset{key, key})
  {
    ReachThen(t, cfg, s, SetService(web, Some(svc)));
    var s1 := Next(t, cfg, None, s, SetService(web, Some(svc)));
    assert s1 == s.(cache := Cache(map[web := svc], map[]), pending := multiset{key});
    ReachThen(t, cfg, s1, SetSlice(one, Some(slice)));
    u := Next(t, cfg, None, s1, SetSlice(one, Some(slice)));
  }

  lemma DeliveredRun(t: Parser, cfg: Config, s: Sys, key: string) returns (u: Sys)
    requires Reaches(t, cfg, s) && s.pending == multiset{key, key} && s.dirty == {}
    ensures Reaches(t, cfg, u) && u == s.(pending := multiset{}, dirty := {key})
  {
    ReachThen(t, cfg, s, Deliver(key));
    var s1 := Next(t, cfg, None, s, Deliver(key));
    assert s1 == s.(pending := multiset{key}, dirty := {key});
    ReachThen(t, cfg, s1, Deliver(key));
    u := Next(t, cfg, None, s1, Deliver(key));
  }

  lemma NotifiedRun(t: Parser, cfg: Config, svc: Service, slice: Slice, web: Name, one: Name, key: string) returns (s: Sys)
    requires Setup(web, one, key)
    requires cfg.iface != "" && slice.owner == web.1
    ensures Reaches(t, cfg, s) && s.router.started && s.router.services == map[]
    ensures s == Sys(Cache(map[web := svc], map[one := slice]), multiset{}, {key}, {}, map[], s.router)
  {
    s := StartedRun(t, cfg);
    s := FilledRun(t, cfg, svc, slice, s, web, one, key);
    s := DeliveredRun(t, cfg, s, key);
  }

  lemma BuiltHaveBackends(svc: Service, slices: seq<Slice>)
    ensures forall i :: 0 <= i < |Build(svc, slices)| ==> Build(svc, slices)[i].backends != []
  {
    var none: Option<string -> bool>, built := None, Build(svc, slices);
    PushedHaveBackends(none, svc, slices);
    assert Filter(none, built) == built;
    forall i | 0 <= i < |built|
      ensures built[i].backends != []
    {
      assert Filter(none, built)[i].backends != [];
    }
  }

  lemma TakenRun(t: Parser, cfg: Config, s: Sys, key: string) returns (u: Sys)
    requires Reaches(t, cfg, s) && s.dirty == {key} && s.working == map[]
    ensures Reaches(t, cfg, u) && u == s.(dirty := {}, working := map[key := Stage.Started])
  {
    ReachThen(t, cfg, s, Get(key));
    u := Next(t, cfg, None, s, Get(key));
  }

  lemma ServiceRun(t: Parser, cfg: Config, svc: Service, s: Sys, web: Name, key: string) returns (u: Sys)
    requires SplitKey(key) == web
    requires Reaches(t, cfg, s) && s.cache.services == map[web := svc] && s.working == map[key := Stage.Started]
    ensures Reaches(t, cfg, u) && u == s.(working := map[key := HaveService(svc)])
  {
    ReachThen(t, cfg, s, ReadService(key));
    u := Next(t, cfg, None, s, ReadService(key));
  }

  /** A worker reads the caches and computes the rules. */
  lemma ComputedRun(t: Parser, cfg: Config, svc: Service, slice: Slice, s: Sys, web: Name, one: Name, key: string) returns (u: Sys)
    requires Setup(web, one, key)
    requires Reaches(t, cfg, s) && s.cache == Cache(map[web := svc], map[one := slice]) && slice.owner == web.1
    requires s.dirty == {key} && s.working == map[]
    ensures Reaches(t, cfg, u) && u == s.(dirty := {}, working := map[key := HaveRules(Build(svc, [slice]))])
  {
    u := TakenRun(t, cfg, s, key);
    u := ServiceRun(t, cfg, svc, u, web, key);
    u := ListedRun(t, cfg, svc, slice, u, web, one, key);
  }

  lemma OneListed(c: Cache, slice: Slice, web: Name, one: Name)
    requires web.0 == one.0
    requires c.slices == map[one := slice] && slice.owner == web.1
    ensures Lists(c, web, [one.1]) && SlicesOf(c, web.0, [one.1]) == [slice]
  {
    assert forall id: string :: (web.0, id) in c.slices <==> id == one.1;
  }

  lemma ListedRun(t: Parser, cfg: Config, svc: Service, slice: Slice, s: Sys, web: Name, one: Name, key: string) returns (u: Sys)
    requires Setup(web, one, key)
    requires Reaches(t, cfg, s) && s.cache.slices == map[one := slice] && slice.owner == web.1
    requires s.working == map[key := HaveService(svc)]
    ensures Reaches(t, cfg, u) && u == s.(working := map[key := HaveRules(Build(svc, [slice]))])
  {
    OneListed(s.cache, slice, web, one);
    ReachThen(t, cfg, s, ReadSlices(key, [one.1]));
    u := Next(t, cfg, None, s, ReadSlices(key, [one.1]));
  }

  lemma PushedRun(t: Parser, cfg: Config, s: Sys, rules: seq<ServiceRule>, key: string) returns (u: Sys)
    requires key != ""
    requires Reaches(t, cfg, s) && s.working == map[key := HaveRules(rules)] && rules != [] && AllValid(t, rules)
    requires s.router.started && ServicesOk(s.router.services) && forall i :: 0 <= i < |rules| ==> rules[i].backends != []
    ensures Reaches(t, cfg, u) && u == s.(working := map[], router := u.router) && RulesAt(u.router.services, key) == rules
  {
    ReachThen(t, cfg, s, Push(key, FINE));
    u := Next(t, cfg, None, s, Push(key, FINE));
    PushExact(t, cfg, s.router, key, rules, FINE);
    assert Apply(t, cfg, s.router, PushOp(key, rules), FINE).1;
  }

  /** Nothing is queued or in work, the router holds rules, and the relabelled cache calls for none. */
  ghost predicate Strands(t: Parser, cfg: Config, s: Sys, name: Name, slice: Slice, key: string) {
    && Enabled(None, s, SetSlice(name, Some(slice)))
    && !KeyInv(None, Next(t, cfg, None, s, SetSlice(name, Some(slice))), key)
  }

  lemma SomeMember(ids: seq<string>)
    ensures ids == [] || exists id :: id in ids
  {
    if ids != [] {
      assert ids[0] in ids;
    }
  }

  lemma NothingLeft(c: Cache, slice: Slice, ids: seq<string>, rules: seq<ServiceRule>, web: Name, one: Name)
    requires web.0 == one.0
    requires c.slices == map[one := slice] && RestRules(None, c, web, one.1, ids, rules)
    ensures rules == []
  {
    SomeMember(ids);
    assert forall id :: id in ids ==> id != one.1 && (web.0, id) in c.slices;
    assert forall id: string :: id != one.1 ==> (web.0, id) != one;
    assert ids == [];
    assert SlicesOf(c, web.0, ids) == [];
  }

  lemma StrandedHere(t: Parser, cfg: Config, u: Sys, svc: Service, slice: Slice, web: Name, one: Name, key: string, owner: string)
    requires Setup(web, one, key) && owner != web.1
    requires Reaches(t, cfg, u) && u.cache == Cache(map[web := svc], map[one := slice]) && slice.owner == web.1
    requires u.pending == multiset{} && u.dirty == {} && u.delayed == {} && u.working == map[] && RulesAt(u.router.services, key) != []
    ensures Strands(t, cfg, u, one, slice.(owner := owner), key)
  {
    var run :| Controller.Legal(t, cfg, None, EMPTY, run) && Controller.After(t, cfg, None, EMPTY, run) == u;
    Controller.RunInv(t, cfg, None, EMPTY, run);
    RelabelKeepsIff(t, cfg, None, u, one, slice.(owner := owner));
    var held := RulesAt(u.router.services, key);
    if DesiredWithout(None, u.cache, web, one.1, held) {
      var ids :| RestRules(None, u.cache, web, one.1, ids, held);
      NothingLeft(u.cache, slice, ids, held, web, one);
    }
  }

  /** A Service with one slice converges, and the relabelling of that slice strands it. */
  lemma RelabelStrands(t: Parser, cfg: Config, svc: Service, slice: Slice, web: Name, one: Name, key: string, owner: string)
    requires Setup(web, one, key) && owner != web.1
    requires cfg.iface != "" && slice.owner == web.1 && Build(svc, [slice]) != [] && AllValid(t, Build(svc, [slice]))
    ensures exists s :: Reaches(t, cfg, s) && Strands(t, cfg, s, one, slice.(owner := owner), key)
  {
    var s := NotifiedRun(t, cfg, svc, slice, web, one, key);
    s := ComputedRun(t, cfg, svc, slice, s, web, one, key);
    BuiltHaveBackends(svc, [slice]);
    s := PushedRun(t, cfg, s, Build(svc, [slice]), key);
    StrandedHere(t, cfg, s, svc, slice, web, one, key, owner);
  }
}
