/** Where Service traffic ends up: redirecting a local backend straight to its VM changes nothing. */
module ServicePath {
  import opened Common
  import opened Net
  import opened Text
  import opened Helper
  import opened Anchor
  import opened PodNet

  /** The inbound side of binat: a destination that is some rule's Pod IP becomes that rule's VM address. */
  function Inbound(lines: seq<Line>, dst: string): string {
    if lines == [] then dst
    else if lines[0].Binat? && lines[0].pod == dst then lines[0].vm
    else Inbound(lines[1..], dst)
  }

  function Reached(lines: seq<Line>, dsts: seq<string>): (r: seq<string>)
    ensures |r| == |dsts|
  {
    seq(|dsts|, i requires 0 <= i < |dsts| => Inbound(lines, dsts[i]))
  }

  /** Some rule translates `pod`, and does so to `vm`. */
  ghost predicate Maps(lines: seq<Line>, pod: string, vm: string) {
    exists i :: 0 <= i < |lines| && lines[i].Binat? && lines[i].pod == pod && lines[i].vm == vm
  }

  /** Some endpoint binds `pod` to `vm`. */
  ghost predicate Binds(eps: Endpoints, pod: string, vm: string) {
    exists k :: k in eps && eps[k].podIP == pod && eps[k].vmIP == vm
  }

  /** The binat rules among the lines are exactly the endpoints' pairs. */
  ghost predicate Translates(lines: seq<Line>, eps: Endpoints) {
    forall pod, vm :: Maps(lines, pod, vm) <==> Binds(eps, pod, vm)
  }

  lemma {:induction false} InboundFinds(lines: seq<Line>, dst: string)
    ensures Maps(lines, dst, Inbound(lines, dst)) || (Inbound(lines, dst) == dst && forall vm :: !Maps(lines, dst, vm))
  {
    if lines != [] {
      if lines[0].Binat? && lines[0].pod == dst {
        assert Maps(lines, dst, lines[0].vm);
      } else {
        InboundFinds(lines[1..], dst);
        forall vm
          ensures Maps(lines, dst, vm) <==> Maps(lines[1..], dst, vm)
        {
          MapsTail(lines, dst, vm);
        }
      }
    }
  }

  lemma MapsTail(lines: seq<Line>, pod: string, vm: string)
    requires lines != [] && !(lines[0].Binat? && lines[0].pod == pod && lines[0].vm == vm)
    ensures Maps(lines, pod, vm) <==> Maps(lines[1..], pod, vm)
  {
    if i :| 0 <= i < |lines| && lines[i].Binat? && lines[i].pod == pod && lines[i].vm == vm {
      assert lines[1..][i - 1] == lines[i];
    }
    if i :| 0 <= i < |lines[1..]| && lines[1..][i].Binat? && lines[1..][i].pod == pod && lines[1..][i].vm == vm {
      assert lines[i + 1] == lines[1..][i];
    }
  }

  lemma VmMapBinds(eps: Endpoints, vm: map<string, string>, pod: string, addr: string)
    requires IsVmMap(eps, vm) && DistinctPodIPs(eps)
    ensures Binds(eps, pod, addr) <==> pod in vm && vm[pod] == addr
  {
    if Binds(eps, pod, addr) {
      var j :| j in eps && eps[j].podIP == pod && eps[j].vmIP == addr;
      var k :| k in eps && eps[k].podIP == pod && eps[k].vmIP == vm[pod];
    }
  }

  /** Inbound translation is the Pod-IP map. */
  lemma InboundExact(lines: seq<Line>, eps: Endpoints, vm: map<string, string>, dst: string)
    requires Translates(lines, eps) && IsVmMap(eps, vm) && DistinctPodIPs(eps)
    ensures Inbound(lines, dst) == Target(vm, dst)
  {
    InboundFinds(lines, dst);
    VmMapBinds(eps, vm, dst, Inbound(lines, dst));
    if dst in vm {
      VmMapBinds(eps, vm, dst, vm[dst]);
      assert Maps(lines, dst, vm[dst]);
    }
  }

  /* ---- what the router renders ---- */

  lemma EndpointMaps(cfg: Config, e: Endpoint, pod: string, vm: string)
    requires cfg.iface != ""
    ensures Maps(EndpointLines(cfg, e), pod, vm) <==> pod == e.podIP && vm == e.vmIP
  {
    var ifaces := SortedKeys(BinatIfaces(cfg, e));
    var own := if e.iface != "" then e.iface else cfg.iface;
    assert own in BinatIfaces(cfg, e) && own in ifaces;
    var i :| 0 <= i < |ifaces| && ifaces[i] == own;
    assert EndpointLines(cfg, e)[i + 1] == Binat(own, e.vmIP, e.podIP);
  }

  lemma MapsAppend(a: seq<Line>, b: seq<Line>, pod: string, vm: string)
    ensures Maps(a + b, pod, vm) <==> Maps(a, pod, vm) || Maps(b, pod, vm)
  {
    if Maps(a, pod, vm) {
      var i :| 0 <= i < |a| && a[i].Binat? && a[i].pod == pod && a[i].vm == vm;
      assert (a + b)[i] == a[i];
    }
    if Maps(b, pod, vm) {
      var i :| 0 <= i < |b| && b[i].Binat? && b[i].pod == pod && b[i].vm == vm;
      assert (a + b)[|a| + i] == b[i];
    }
  }

  lemma {:induction false} AllMap(cfg: Config, eps: Endpoints, keys: seq<string>, pod: string, vm: string)
    requires cfg.iface != "" && forall i :: 0 <= i < |keys| ==> keys[i] in eps
    ensures Maps(AllEndpointLines(cfg, eps, keys), pod, vm) <==>
            exists i :: 0 <= i < |keys| && eps[keys[i]].podIP == pod && eps[keys[i]].vmIP == vm
  {
    if keys != [] {
      var last, front := keys[|keys| - 1], keys[..|keys| - 1];
      AllMap(cfg, eps, front, pod, vm);
      EndpointMaps(cfg, eps[last], pod, vm);
      MapsAppend(AllEndpointLines(cfg, eps, front), EndpointLines(cfg, eps[last]), pod, vm);
    }
  }

  /** The Pod half of the anchor translates exactly the attached endpoints. */
  lemma RenderTranslates(cfg: Config, eps: Endpoints)
    requires cfg.iface != ""
    ensures Translates(AllEndpointLines(cfg, eps, SortedKeys(eps.Keys)), eps)
  {
    var keys := SortedKeys(eps.Keys);
    forall pod, vm
      ensures Maps(AllEndpointLines(cfg, eps, keys), pod, vm) <==> Binds(eps, pod, vm)
    {
      AllMap(cfg, eps, keys, pod, vm);
      ListedBinds(eps, keys, pod, vm);
    }
  }

  lemma ListedBinds(eps: Endpoints, keys: seq<string>, pod: string, vm: string)
    requires forall k :: k in keys <==> k in eps
    ensures Binds(eps, pod, vm) <==> exists i :: 0 <= i < |keys| && eps[keys[i]].podIP == pod && eps[keys[i]].vmIP == vm
  {
    if Binds(eps, pod, vm) {
      var k :| k in eps && eps[k].podIP == pod && eps[k].vmIP == vm;
      assert k in keys;
      var i :| 0 <= i < |keys| && keys[i] == k;
    }
    if i :| 0 <= i < |keys| && eps[keys[i]].podIP == pod && eps[keys[i]].vmIP == vm {
      assert keys[i] in eps;
    }
  }

  /* ---- the theorem ---- */

  lemma ReachedCons(lines: seq<Line>, x: string, s: seq<string>)
    ensures Reached(lines, [x] + s) == [Inbound(lines, x)] + Reached(lines, s)
  {
  }

  lemma {:induction false} ReachedInsert(lines: seq<Line>, x: string, s: seq<string>)
    ensures multiset(Reached(lines, Insert(x, s))) == multiset{Inbound(lines, x)} + multiset(Reached(lines, s))
  {
    if s == [] || StrLE(x, s[0]) {
      ReachedCons(lines, x, s);
    } else {
      ReachedInsert(lines, x, s[1..]);
      ReachedCons(lines, s[0], Insert(x, s[1..]));
      ReachedCons(lines, s[0], s[1..]);
      assert s == [s[0]] + s[1..];
    }
  }

  lemma {:induction false} ReachedSort(lines: seq<Line>, s: seq<string>)
    ensures multiset(Reached(lines, SortStrings(s))) == multiset(Reached(lines, s))
  {
    if s != [] {
      ReachedSort(lines, s[1..]);
      ReachedInsert(lines, s[0], SortStrings(s[1..]));
      ReachedCons(lines, s[0], s[1..]);
      assert s == [s[0]] + s[1..];
    }
  }

  /** No VM address is also a Pod IP. */
  ghost predicate Apart(eps: Endpoints) {
    forall j, k :: j in eps && k in eps ==> eps[j].vmIP != eps[k].podIP
  }

  /** Disjoint Pod and vmnet ranges keep VM addresses and Pod IPs apart. */
  lemma RangesApart(p: Policy, t: Parser, eps: Endpoints)
    requires forall c :: c in p.podCIDRs + p.vmnetCIDRs ==> c.Valid()
    requires forall a, b :: a in p.podCIDRs && b in p.vmnetCIDRs ==> !Overlap(a, b)
    requires forall k :: k in eps ==> InSet(t, eps[k].vmIP, p.vmnetCIDRs) && InSet(t, eps[k].podIP, p.podCIDRs)
    ensures Apart(eps)
  {
    forall j, k | j in eps && k in eps
      ensures eps[j].vmIP != eps[k].podIP
    {
      var b :| b in p.vmnetCIDRs && b.Contains(t.ip(eps[j].vmIP).value);
      var a :| a in p.podCIDRs && a.Contains(t.ip(eps[k].podIP).value);
      NestedOrDisjoint(a, b);
    }
  }

  /**
   * The addresses a Service's rendered targets lead to are, as a multiset, those its backend Pod IPs lead to
   * through the anchor's own inbound translation.
   */
  lemma RedirectPreservesMeaning(cfg: Config, eps: Endpoints, vm: map<string, string>, backends: seq<string>)
    requires cfg.iface != "" && IsVmMap(eps, vm) && DistinctPodIPs(eps) && Apart(eps)
    ensures var lines := AllEndpointLines(cfg, eps, SortedKeys(eps.Keys));
            multiset(Reached(lines, SortStrings(Targets(vm, backends)))) == multiset(Reached(lines, backends))
  {
    var lines := AllEndpointLines(cfg, eps, SortedKeys(eps.Keys));
    RenderTranslates(cfg, eps);
    ReachedSort(lines, Targets(vm, backends));
    TargetsReach(lines, eps, vm, backends);
  }

  lemma TargetsReach(lines: seq<Line>, eps: Endpoints, vm: map<string, string>, backends: seq<string>)
    requires Translates(lines, eps) && IsVmMap(eps, vm) && DistinctPodIPs(eps) && Apart(eps)
    ensures Reached(lines, Targets(vm, backends)) == Reached(lines, backends)
  {
    forall i | 0 <= i < |backends|
      ensures Inbound(lines, Target(vm, backends[i])) == Inbound(lines, backends[i])
    {
      InboundExact(lines, eps, vm, backends[i]);
      InboundExact(lines, eps, vm, Target(vm, backends[i]));
      TargetOnce(eps, vm, backends[i]);
    }
  }

  lemma TargetOnce(eps: Endpoints, vm: map<string, string>, d: string)
    requires IsVmMap(eps, vm) && Apart(eps)
    ensures Target(vm, Target(vm, d)) == Target(vm, d)
  {
    if d in vm {
      var j :| j in eps && eps[j].podIP == d && eps[j].vmIP == vm[d];
    }
  }
}
