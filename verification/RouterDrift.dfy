/** When the loaded anchor is not the rendering of the router's maps. */
module RouterDrift {
  import opened Common
  import opened Net
  import opened Text
  import opened Helper
  import opened Anchor
  import opened PodNet
  import opened Agreement

  /* ---- texts and line counts ---- */

  /** Printable anchors with the same text have the same lines. */
  lemma SameTexts(t: Parser, a: seq<Line>, b: seq<Line>)
    requires Sane(t) && Prints(t, a) && Prints(t, b) && AnchorText(a) == AnchorText(b)
    ensures |a| == |b|
  {
    PlainTexts(t, a);
    PlainTexts(t, b);
    SplitUnlines(Texts(a));
    SplitUnlines(Texts(b));
    assert |Texts(a) + [""]| == |Texts(b) + [""]|;
  }

  lemma PlainTexts(t: Parser, a: seq<Line>)
    requires Sane(t) && Prints(t, a)
    ensures forall i :: 0 <= i < |a| ==> '\n' !in Texts(a)[i]
  {
    var nobody := Policy("", "", "", "", 0, {}, {}, {}, {});
    forall i | 0 <= i < |a|
      ensures '\n' !in Texts(a)[i]
    {
      LineExact(nobody, t, a[i]);
    }
  }

  function Dropped(ks: seq<string>, i: nat): seq<string>
    requires i < |ks|
  {
    ks[..i] + ks[i + 1..]
  }

  lemma DroppedAt(ks: seq<string>, i: nat)
    requires i < |ks|
    ensures var r := Dropped(ks, i);
            |r| == |ks| - 1 && (forall j :: 0 <= j < i ==> r[j] == ks[j]) && (forall j :: i <= j < |r| ==> r[j] == ks[j + 1])
  {
  }

  lemma DroppedMembers(ks: seq<string>, i: nat, s: set<string>, k: string)
    requires SortedListOf(ks, s) && i < |ks|
    ensures k in Dropped(ks, i) <==> k in s - {ks[i]}
  {
    DroppedAt(ks, i);
    var r := Dropped(ks, i);
    if k in r {
      var j :| 0 <= j < |r| && r[j] == k;
      var m := if j < i then j else j + 1;
      assert ks[m] == k && ks[m] in ks;
      assert if m < i then StrLess(ks[m], ks[i]) else StrLess(ks[i], ks[m]);
    }
    if k in s && k != ks[i] {
      assert k in ks;
      var m :| 0 <= m < |ks| && ks[m] == k;
      assert r[if m < i then m else m - 1] == k;
    }
  }

  lemma DroppedSorted(ks: seq<string>, i: nat, s: set<string>)
    requires SortedListOf(ks, s) && i < |ks|
    ensures SortedListOf(Dropped(ks, i), s - {ks[i]})
  {
    DroppedAt(ks, i);
    forall k
      ensures k in Dropped(ks, i) <==> k in s - {ks[i]}
    {
      DroppedMembers(ks, i, s, k);
    }
  }

  /** The sorted keys without one of them. */
  lemma SortedWithout(s: set<string>, x: string) returns (i: nat)
    requires x in s
    ensures i < |SortedKeys(s)| && SortedKeys(s)[i] == x && SortedKeys(s - {x}) == Dropped(SortedKeys(s), i)
  {
    var ks := SortedKeys(s);
    assert x in ks;
    i :| 0 <= i < |ks| && ks[i] == x;
    DroppedSorted(ks, i, s);
    SortedListUnique(Dropped(ks, i), SortedKeys(s - {x}), s - {x});
  }

  lemma {:induction false} EndpointLinesAppend(cfg: Config, eps: Endpoints, a: seq<string>, b: seq<string>)
    requires forall i :: 0 <= i < |a| ==> a[i] in eps
    requires forall i :: 0 <= i < |b| ==> b[i] in eps
    ensures |AllEndpointLines(cfg, eps, a + b)| == |AllEndpointLines(cfg, eps, a)| + |AllEndpointLines(cfg, eps, b)|
  {
    if b == [] {
      assert a + b == a;
    } else {
      assert (a + b)[..|a + b| - 1] == a + b[..|b| - 1];
      EndpointLinesAppend(cfg, eps, a, b[..|b| - 1]);
    }
  }

  lemma {:induction false} EndpointLinesSame(cfg: Config, eps: Endpoints, other: Endpoints, keys: seq<string>)
    requires forall i :: 0 <= i < |keys| ==> keys[i] in eps && keys[i] in other && eps[keys[i]] == other[keys[i]]
    ensures AllEndpointLines(cfg, eps, keys) == AllEndpointLines(cfg, other, keys)
  {
    if keys != [] {
      EndpointLinesSame(cfg, eps, other, keys[..|keys| - 1]);
    }
  }

  /** Taking one key out takes its endpoint's lines out. */
  lemma DroppedLines(cfg: Config, eps: Endpoints, keys: seq<string>, i: nat)
    requires i < |keys| && forall j :: 0 <= j < |keys| ==> keys[j] in eps
    ensures forall j :: 0 <= j < |Dropped(keys, i)| ==> Dropped(keys, i)[j] in eps
    ensures |AllEndpointLines(cfg, eps, Dropped(keys, i))| < |AllEndpointLines(cfg, eps, keys)|
  {
    var pre, x, post := keys[..i], keys[i], keys[i + 1..];
    assert keys == pre + [x] + post;
    EndpointLinesAppend(cfg, eps, pre, [x]);
    EndpointLinesAppend(cfg, eps, pre + [x], post);
    EndpointLinesAppend(cfg, eps, pre, post);
    assert [x][..0] == [] && AllEndpointLines(cfg, eps, []) == [];
    assert |AllEndpointLines(cfg, eps, [x])| == |EndpointLines(cfg, eps[x])| >= 1;
  }

  /** The Pod half loses lines with every endpoint. */
  lemma FewerPodLines(cfg: Config, eps: Endpoints, key: string)
    requires key in eps
    ensures |AllEndpointLines(cfg, eps - {key}, SortedKeys((eps - {key}).Keys))| < |AllEndpointLines(cfg, eps, SortedKeys(eps.Keys))|
  {
    var left, keys := eps - {key}, SortedKeys(eps.Keys);
    assert left.Keys == eps.Keys - {key};
    assert forall j :: 0 <= j < |keys| ==> keys[j] in eps.Keys;
    var i := SortedWithout(eps.Keys, key);
    var rest := SortedKeys(left.Keys);
    assert forall j :: 0 <= j < |rest| ==> rest[j] in left.Keys;
    DroppedLines(cfg, eps, keys, i);
    EndpointLinesSame(cfg, eps, left, rest);
  }

  /** `k` comments and, below each, one line per interface. */
  function Block(k: nat, n: nat): nat { if k == 0 then 0 else Block(k - 1, n) + n + 1 }

  lemma {:induction false} BlockGrows(k: nat, m: nat, n: nat)
    requires m <= n
    ensures Block(k, m) <= Block(k, n)
  {
    if k > 0 {
      BlockGrows(k - 1, m, n);
    }
  }

  /** The Service half has so many lines for `n` interfaces, whatever the addresses. */
  ghost function ServiceCount(n: nat, services: Services, keys: seq<string>): nat
    requires forall i :: 0 <= i < |keys| ==> keys[i] in services
  {
    if keys == [] || n == 0 then 0
    else ServiceCount(n, services, keys[..|keys| - 1]) + Block(|services[keys[|keys| - 1]]|, n)
  }

  lemma {:induction false} RulesCount(ifaces: seq<string>, vm: map<string, string>, rs: seq<ServiceRule>)
    requires PortsOk(rs)
    ensures |RulesLines(ifaces, vm, rs)| == Block(|rs|, |ifaces|)
  {
    if rs != [] {
      RulesCount(ifaces, vm, rs[..|rs| - 1]);
      assert |RuleLines(ifaces, vm, rs[|rs| - 1])| == |ifaces| + 1;
    }
  }

  lemma {:induction false} ServicesCount(ifaces: seq<string>, vm: map<string, string>, services: Services, keys: seq<string>)
    requires ServicesOk(services) && forall i :: 0 <= i < |keys| ==> keys[i] in services
    ensures |ServiceLines(ifaces, vm, services, keys)| == ServiceCount(|ifaces|, services, keys)
  {
    if keys != [] && ifaces != [] {
      ServicesCount(ifaces, vm, services, keys[..|keys| - 1]);
      var rs := services[keys[|keys| - 1]];
      SortRulesPorts(rs);
      RulesCount(ifaces, vm, SortRules(rs));
      SortRulesMembers(rs);
      assert |SortRules(rs)| == |rs| by { assert |multiset(SortRules(rs))| == |multiset(rs)|; }
    }
  }

  lemma {:induction false} CountGrows(m: nat, n: nat, services: Services, keys: seq<string>)
    requires m <= n && forall i :: 0 <= i < |keys| ==> keys[i] in services
    ensures ServiceCount(m, services, keys) <= ServiceCount(n, services, keys)
  {
    if keys != [] && m > 0 {
      CountGrows(m, n, services, keys[..|keys| - 1]);
      BlockGrows(|services[keys[|keys| - 1]]|, m, n);
    }
  }

  lemma {:induction false} SortedCount(s: set<string>)
    ensures |SortedKeys(s)| == |s|
  {
    if s != {} {
      var x :| x in s;
      var _ := SortedWithout(s, x);
      SortedCount(s - {x});
    }
  }

  lemma FewerIfaces(cfg: Config, eps: Endpoints, key: string)
    requires key in eps
    ensures |SortedKeys(VmnetIfaces(cfg, eps - {key}))| <= |SortedKeys(VmnetIfaces(cfg, eps))|
  {
    var a, b := VmnetIfaces(cfg, eps - {key}), VmnetIfaces(cfg, eps);
    assert a <= b;
    SubsetCount(a, b);
    SortedCount(a);
    SortedCount(b);
  }

  /* ---- removing an endpoint ---- */

  lemma FewerLines(cfg: Config, eps: Endpoints, services: Services, key: string, vm: map<string, string>, vm2: map<string, string>)
    requires key in eps && ServicesOk(services)
    ensures |RenderLines(cfg, eps - {key}, services, vm2)| < |RenderLines(cfg, eps, services, vm)|
  {
    var keys := SortedKeys(services.Keys);
    assert forall i :: 0 <= i < |keys| ==> keys[i] in services.Keys;
    FewerPodLines(cfg, eps, key);
    FewerIfaces(cfg, eps, key);
    ServicesCount(SortedKeys(VmnetIfaces(cfg, eps)), vm, services, keys);
    ServicesCount(SortedKeys(VmnetIfaces(cfg, eps - {key})), vm2, services, keys);
    CountGrows(|SortedKeys(VmnetIfaces(cfg, eps - {key}))|, |SortedKeys(VmnetIfaces(cfg, eps))|, services, keys);
  }

  /** The ruleset of maps that hold an endpoint is never one of the maps without it. */
  lemma RemovalShows(t: Parser, cfg: Config, eps: Endpoints, services: Services, key: string, text: string)
    requires Sane(t) && ConfigPrintable(cfg) && StatePrintable(t, eps, services) && key in eps
    requires IsRendering(cfg, eps, services, text)
    ensures !IsRendering(cfg, eps - {key}, services, text)
  {
    var nobody := Policy("", "", "", "", 0, {}, {}, {}, {});
    var vm :| IsVmMap(eps, vm) && text == AnchorText(RenderLines(cfg, eps, services, vm));
    RenderJudged(nobody, t, cfg, eps, services, vm);
    forall vm2 | IsVmMap(eps - {key}, vm2)
      ensures text != AnchorText(RenderLines(cfg, eps - {key}, services, vm2))
    {
      RenderJudged(nobody, t, cfg, eps - {key}, services, vm2);
      FewerLines(cfg, eps, services, key, vm, vm2);
      if text == AnchorText(RenderLines(cfg, eps - {key}, services, vm2)) {
        SameTexts(t, RenderLines(cfg, eps, services, vm), RenderLines(cfg, eps - {key}, services, vm2));
      }
    }
  }

  /**
   * Retrying a Detach whose load failed returns nil with the anchor out of step: it still renders the endpoint, and is
   * no rendering of the maps as they stand.
   */
  lemma DetachRetryStale(t: Parser, cfg: Config, s: State, key: string, e1: Env, e2: Env)
    requires Sane(t) && ConfigPrintable(cfg) && StatePrintable(t, s.endpoints, s.services)
    requires PodNet.Inv(cfg, s) && s.started && !s.dirty && key in s.endpoints && !e1.loadOk
    ensures var (u, ok1) := Apply(t, cfg, s, Detach(key), e1);
            var (v, ok2) := Apply(t, cfg, u, Detach(key), e2);
            && !ok1 && ok2 && v.loaded == s.loaded && IsRendering(cfg, s.endpoints, s.services, v.loaded)
            && !IsRendering(cfg, v.endpoints, v.services, v.loaded)
  {
    RemovalShows(t, cfg, s.endpoints, s.services, key, s.loaded);
  }

  /* ---- removing a Service ---- */

  lemma {:induction false} CountAppend(n: nat, services: Services, a: seq<string>, b: seq<string>)
    requires forall i :: 0 <= i < |a| ==> a[i] in services
    requires forall i :: 0 <= i < |b| ==> b[i] in services
    ensures ServiceCount(n, services, a + b) == ServiceCount(n, services, a) + ServiceCount(n, services, b)
  {
    if b == [] {
      assert a + b == a;
    } else {
      assert (a + b)[..|a + b| - 1] == a + b[..|b| - 1];
      CountAppend(n, services, a, b[..|b| - 1]);
    }
  }

  lemma {:induction false} CountSame(n: nat, services: Services, other: Services, keys: seq<string>)
    requires forall i :: 0 <= i < |keys| ==> keys[i] in services && keys[i] in other && services[keys[i]] == other[keys[i]]
    ensures ServiceCount(n, services, keys) == ServiceCount(n, other, keys)
  {
    if keys != [] {
      CountSame(n, services, other, keys[..|keys| - 1]);
    }
  }

  lemma DroppedCount(n: nat, services: Services, keys: seq<string>, i: nat)
    requires n > 0 && i < |keys| && (forall j :: 0 <= j < |keys| ==> keys[j] in services) && services[keys[i]] != []
    ensures forall j :: 0 <= j < |Dropped(keys, i)| ==> Dropped(keys, i)[j] in services
    ensures ServiceCount(n, services, Dropped(keys, i)) < ServiceCount(n, services, keys)
  {
    var pre, x, post := keys[..i], keys[i], keys[i + 1..];
    assert keys == pre + [x] + post;
    CountAppend(n, services, pre, [x]);
    CountAppend(n, services, pre + [x], post);
    CountAppend(n, services, pre, post);
    assert [x][..0] == [] && ServiceCount(n, services, []) == 0;
  }

  lemma FewerServiceLines(n: nat, services: Services, key: string)
    requires n > 0 && key in services && services[key] != []
    ensures var left := services - {key};
            ServiceCount(n, left, SortedKeys(left.Keys)) < ServiceCount(n, services, SortedKeys(services.Keys))
  {
    var left, keys := services - {key}, SortedKeys(services.Keys);
    assert left.Keys == services.Keys - {key};
    assert forall j :: 0 <= j < |keys| ==> keys[j] in services.Keys;
    var i := SortedWithout(services.Keys, key);
    var rest := SortedKeys(left.Keys);
    assert forall j :: 0 <= j < |rest| ==> rest[j] in left.Keys;
    DroppedCount(n, services, keys, i);
    CountSame(n, services, left, rest);
  }

  lemma FewerRuleLines(cfg: Config, eps: Endpoints, services: Services, key: string, vm: map<string, string>, vm2: map<string, string>)
    requires cfg.iface != "" && ServicesOk(services) && key in services && services[key] != []
    ensures ServicesOk(services - {key})
    ensures |RenderLines(cfg, eps, services - {key}, vm2)| < |RenderLines(cfg, eps, services, vm)|
  {
    var left, ifaces := services - {key}, SortedKeys(VmnetIfaces(cfg, eps));
    var keys, rest := SortedKeys(services.Keys), SortedKeys(left.Keys);
    assert cfg.iface in VmnetIfaces(cfg, eps) && cfg.iface in ifaces;
    assert forall i :: 0 <= i < |keys| ==> keys[i] in services.Keys;
    assert forall i :: 0 <= i < |rest| ==> rest[i] in left.Keys;
    ServicesCount(ifaces, vm, services, keys);
    ServicesCount(ifaces, vm2, left, rest);
    FewerServiceLines(|ifaces|, services, key);
  }

  lemma ServiceRemovalShows(t: Parser, cfg: Config, eps: Endpoints, services: Services, key: string, text: string)
    requires Sane(t) && ConfigPrintable(cfg) && StatePrintable(t, eps, services) && key in services && services[key] != []
    requires IsRendering(cfg, eps, services, text)
    ensures !IsRendering(cfg, eps, services - {key}, text)
  {
    var nobody := Policy("", "", "", "", 0, {}, {}, {}, {});
    var vm :| IsVmMap(eps, vm) && text == AnchorText(RenderLines(cfg, eps, services, vm));
    RenderJudged(nobody, t, cfg, eps, services, vm);
    forall vm2 | IsVmMap(eps, vm2) && ServicesOk(services - {key})
      ensures text != AnchorText(RenderLines(cfg, eps, services - {key}, vm2))
    {
      RenderJudged(nobody, t, cfg, eps, services - {key}, vm2);
      FewerRuleLines(cfg, eps, services, key, vm, vm2);
      if text == AnchorText(RenderLines(cfg, eps, services - {key}, vm2)) {
        SameTexts(t, RenderLines(cfg, eps, services, vm), RenderLines(cfg, eps, services - {key}, vm2));
      }
    }
  }

  /** The same for a Service with rules. */
  lemma DetachServiceRetryStale(t: Parser, cfg: Config, s: State, key: string, e1: Env, e2: Env)
    requires Sane(t) && ConfigPrintable(cfg) && StatePrintable(t, s.endpoints, s.services)
    requires PodNet.Inv(cfg, s) && s.started && !s.dirty && key in s.services && s.services[key] != [] && !e1.loadOk
    ensures var (u, ok1) := Apply(t, cfg, s, DetachService(key), e1);
            var (v, ok2) := Apply(t, cfg, u, DetachService(key), e2);
            && !ok1 && ok2 && v.loaded == s.loaded && IsRendering(cfg, s.endpoints, s.services, v.loaded)
            && !IsRendering(cfg, v.endpoints, v.services, v.loaded)
  {
    ServiceRemovalShows(t, cfg, s.endpoints, s.services, key, s.loaded);
  }
}
