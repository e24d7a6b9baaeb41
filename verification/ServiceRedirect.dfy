/**
 * What the rendered anchor does, read from its lines alone: which Service traffic is redirected, on which interfaces, to
 * which port of which addresses, and which Pod addresses are translated where.
 */
module ServiceRedirect {
  import opened Common
  import opened Net
  import opened Text
  import opened Helper
  import opened Anchor
  import opened PodNet
  import opened ServicePath

  /** The first rdr rule that matches a packet on `iface` to `dst`:`port` sends it to one of the targets, at their port. */
  function Redirect(lines: seq<Line>, iface: string, proto: string, dst: string, port: nat): Option<(seq<string>, nat)> {
    if lines == [] then None
    else
      match lines[0]
      case Rdr(i, pr, d, p, targets, targetPort) =>
        if i == iface && pr == proto && d == dst && p == port then Some((targets, targetPort))
        else Redirect(lines[1..], iface, proto, dst, port)
      case _ => Redirect(lines[1..], iface, proto, dst, port)
  }

  /** The rule is in the table of services. */
  ghost predicate Stored(services: Services, r: ServiceRule) { exists k :: k in services && r in services[k] }

  /** An interface that VMs sit on: the default one, or an endpoint's own. */
  ghost predicate OnVmnet(cfg: Config, eps: Endpoints, iface: string) {
    iface != "" && (iface == cfg.iface || exists k :: k in eps && eps[k].iface == iface)
  }

  predicate SameTraffic(a: ServiceRule, b: ServiceRule) { a.clusterIP == b.clusterIP && a.proto == b.proto && a.port == b.port }

  /** No two stored rules redirect the same traffic. */
  ghost predicate Distinct(services: Services) {
    forall a, b :: Stored(services, a) && Stored(services, b) && SameTraffic(a, b) ==> a == b
  }

  /** The line for a rule: its ClusterIP and port, to its target port at the VM or Pod addresses of its backends. */
  function LineFor(iface: string, vm: map<string, string>, r: ServiceRule): Line
    requires r.port >= 0 && r.targetPort >= 0
  {
    Rdr(iface, r.proto, r.clusterIP, r.port, SortStrings(Targets(vm, r.backends)), r.targetPort)
  }

  /* ---- the rdr lines ---- */

  /** The line is the rule's on one of the interfaces. */
  ghost predicate RuleOn(ifaces: seq<string>, vm: map<string, string>, r: ServiceRule, l: Line) {
    r.port >= 0 && r.targetPort >= 0 && exists i :: 0 <= i < |ifaces| && l == LineFor(ifaces[i], vm, r)
  }

  lemma RuleLinesHave(ifaces: seq<string>, vm: map<string, string>, r: ServiceRule, l: Line)
    requires r.port >= 0 && r.targetPort >= 0 && l.Rdr?
    ensures l in RuleLines(ifaces, vm, r) <==> RuleOn(ifaces, vm, r, l)
  {
    var ls := RuleLines(ifaces, vm, r);
    if l in ls {
      var n :| 0 <= n < |ls| && ls[n] == l;
      assert n > 0;
      assert ls[n] == LineFor(ifaces[n - 1], vm, r);
    }
    if RuleOn(ifaces, vm, r, l) {
      var i :| 0 <= i < |ifaces| && l == LineFor(ifaces[i], vm, r);
      assert ls[i + 1] == l;
    }
  }

  ghost predicate AnyOn(ifaces: seq<string>, vm: map<string, string>, rs: seq<ServiceRule>, l: Line) {
    exists r :: r in rs && RuleOn(ifaces, vm, r, l)
  }

  lemma AnySplits(ifaces: seq<string>, vm: map<string, string>, rs: seq<ServiceRule>, r: ServiceRule, l: Line)
    ensures AnyOn(ifaces, vm, rs + [r], l) <==> AnyOn(ifaces, vm, rs, l) || RuleOn(ifaces, vm, r, l)
  {
    if AnyOn(ifaces, vm, rs, l) {
      var x :| x in rs && RuleOn(ifaces, vm, x, l);
      assert x in rs + [r];
    }
    if RuleOn(ifaces, vm, r, l) {
      assert r in rs + [r];
    }
  }

  lemma {:induction false} RulesLinesHave(ifaces: seq<string>, vm: map<string, string>, rs: seq<ServiceRule>, l: Line)
    requires PortsOk(rs) && l.Rdr?
    ensures l in RulesLines(ifaces, vm, rs) <==> AnyOn(ifaces, vm, rs, l)
  {
    if rs != [] {
      var front, last := rs[..|rs| - 1], rs[|rs| - 1];
      assert rs == front + [last];
      RulesLinesHave(ifaces, vm, front, l);
      RuleLinesHave(ifaces, vm, last, l);
      AnySplits(ifaces, vm, front, last, l);
    }
  }

  lemma SortedHas(ifaces: seq<string>, vm: map<string, string>, rs: seq<ServiceRule>, l: Line)
    requires PortsOk(rs) && PortsOk(SortRules(rs)) && l.Rdr?
    ensures l in RulesLines(ifaces, vm, SortRules(rs)) <==> AnyOn(ifaces, vm, rs, l)
  {
    RulesLinesHave(ifaces, vm, SortRules(rs), l);
    SortRulesMembers(rs);
  }

  /** Some service among `keys` has the line. */
  ghost predicate ServiceHas(ifaces: seq<string>, vm: map<string, string>, services: Services, keys: seq<string>, l: Line) {
    exists k :: k in keys && k in services && AnyOn(ifaces, vm, services[k], l)
  }

  lemma ServiceSplits(ifaces: seq<string>, vm: map<string, string>, services: Services, keys: seq<string>, k: string, l: Line)
    requires k in services
    ensures ServiceHas(ifaces, vm, services, keys + [k], l) <==>
            ServiceHas(ifaces, vm, services, keys, l) || AnyOn(ifaces, vm, services[k], l)
  {
    if ServiceHas(ifaces, vm, services, keys, l) {
      var x :| x in keys && x in services && AnyOn(ifaces, vm, services[x], l);
      assert x in keys + [k];
    }
    if AnyOn(ifaces, vm, services[k], l) {
      assert k in keys + [k];
    }
  }

  lemma NoInterface(vm: map<string, string>, services: Services, keys: seq<string>, l: Line)
    ensures !ServiceHas([], vm, services, keys, l)
  {
  }

  lemma {:induction false} ServiceLinesHave(ifaces: seq<string>, vm: map<string, string>, services: Services, keys: seq<string>, l: Line)
    requires ServicesOk(services) && (forall i :: 0 <= i < |keys| ==> keys[i] in services) && l.Rdr?
    ensures l in ServiceLines(ifaces, vm, services, keys) <==> ServiceHas(ifaces, vm, services, keys, l)
  {
    if ifaces == [] {
      NoInterface(vm, services, keys, l);
    } else if keys != [] {
      var front, k := keys[..|keys| - 1], keys[|keys| - 1];
      assert keys == front + [k];
      ServiceLinesHave(ifaces, vm, services, front, l);
      SortRulesPorts(services[k]);
      SortedHas(ifaces, vm, services[k], l);
      ServiceSplits(ifaces, vm, services, front, k, l);
    }
  }

  /** The Pod half holds no rdr line. */
  lemma {:induction false} PodsHaveNone(cfg: Config, eps: Endpoints, keys: seq<string>, l: Line)
    requires (forall i :: 0 <= i < |keys| ==> keys[i] in eps) && l.Rdr?
    ensures l !in AllEndpointLines(cfg, eps, keys)
  {
    if keys != [] {
      PodsHaveNone(cfg, eps, keys[..|keys| - 1], l);
    }
  }

  lemma VmnetIs(cfg: Config, eps: Endpoints, iface: string)
    ensures iface in SortedKeys(VmnetIfaces(cfg, eps)) <==> OnVmnet(cfg, eps, iface)
  {
    assert iface in SortedKeys(VmnetIfaces(cfg, eps)) <==> iface in VmnetIfaces(cfg, eps);
  }

  /** An rdr line is rendered if and only if it is that of a stored rule on an interface with VMs. */
  lemma RenderedRdr(cfg: Config, eps: Endpoints, services: Services, vm: map<string, string>, l: Line)
    requires ServicesOk(services) && l.Rdr?
    ensures l in RenderLines(cfg, eps, services, vm) <==>
            exists r :: Stored(services, r) && r.port >= 0 && r.targetPort >= 0
                        && OnVmnet(cfg, eps, l.iface) && l == LineFor(l.iface, vm, r)
  {
    var ifaces, keys := SortedKeys(VmnetIfaces(cfg, eps)), SortedKeys(services.Keys);
    PodsHaveNone(cfg, eps, SortedKeys(eps.Keys), l);
    ServiceLinesHave(ifaces, vm, services, keys, l);
    VmnetIs(cfg, eps, l.iface);
    if ServiceHas(ifaces, vm, services, keys, l) {
      var k :| k in keys && k in services && AnyOn(ifaces, vm, services[k], l);
      var r :| r in services[k] && RuleOn(ifaces, vm, r, l);
      assert Stored(services, r);
    }
    if r :| Stored(services, r) && r.port >= 0 && r.targetPort >= 0 && OnVmnet(cfg, eps, l.iface) && l == LineFor(l.iface, vm, r) {
      var k :| k in services && r in services[k];
      var i :| 0 <= i < |ifaces| && ifaces[i] == l.iface;
      assert RuleOn(ifaces, vm, r, l);
      assert k in keys && AnyOn(ifaces, vm, services[k], l);
    }
  }

  /* ---- the first match ---- */

  predicate Matches(l: Line, iface: string, proto: string, dst: string, port: nat) {
    l.Rdr? && l.iface == iface && l.proto == proto && l.clusterIP == dst && l.port == port
  }

  lemma {:induction false} RedirectFinds(lines: seq<Line>, iface: string, proto: string, dst: string, port: nat)
    ensures var r := Redirect(lines, iface, proto, dst, port);
            && (r.None? <==> forall l :: l in lines ==> !Matches(l, iface, proto, dst, port))
            && (r.Some? ==> Rdr(iface, proto, dst, port, r.value.0, r.value.1) in lines)
  {
    if lines != [] && !Matches(lines[0], iface, proto, dst, port) {
      RedirectFinds(lines[1..], iface, proto, dst, port);
    }
  }

  lemma StoredPorts(services: Services, r: ServiceRule)
    requires ServicesOk(services) && Stored(services, r)
    ensures r.port >= 0 && r.targetPort >= 0
  {
    var k :| k in services && r in services[k];
    assert PortsOk(services[k]);
  }

  /** The rule is stored and for this traffic. */
  ghost predicate Serves(services: Services, r: ServiceRule, proto: string, dst: string, port: nat) {
    Stored(services, r) && r.clusterIP == dst && r.proto == proto && r.port == port
  }

  /**
   * Exactly what arrives on an interface with VMs for some stored rule is redirected, and to the target port and the
   * backends of such a rule.
   */
  lemma RedirectsOnly(cfg: Config, eps: Endpoints, services: Services, vm: map<string, string>,
                      iface: string, proto: string, dst: string, port: nat)
    requires ServicesOk(services)
    ensures var d := Redirect(RenderLines(cfg, eps, services, vm), iface, proto, dst, port);
            && (d.Some? <==> OnVmnet(cfg, eps, iface) && exists r :: Serves(services, r, proto, dst, port))
            && (d.Some? ==> exists r :: Serves(services, r, proto, dst, port)
                                        && d.value == (SortStrings(Targets(vm, r.backends)), r.targetPort))
  {
    var lines := RenderLines(cfg, eps, services, vm);
    RedirectFinds(lines, iface, proto, dst, port);
    var d := Redirect(lines, iface, proto, dst, port);
    if r :| OnVmnet(cfg, eps, iface) && Serves(services, r, proto, dst, port) {
      StoredPorts(services, r);
      RenderedRdr(cfg, eps, services, vm, LineFor(iface, vm, r));
      assert Matches(LineFor(iface, vm, r), iface, proto, dst, port);
    }
    if d.Some? {
      var l := Rdr(iface, proto, dst, port, d.value.0, d.value.1);
      RenderedRdr(cfg, eps, services, vm, l);
      var x :| Stored(services, x) && x.port >= 0 && x.targetPort >= 0 && OnVmnet(cfg, eps, iface) && l == LineFor(iface, vm, x);
      assert Serves(services, x, proto, dst, port);
    }
  }

  /**
   * With no two stored rules for the same traffic, the rendered anchor sends what arrives on any interface with VMs for a
   * stored rule's ClusterIP, protocol and port to that rule's target port, at the VM or Pod addresses of its backends.
   */
  lemma RedirectExact(cfg: Config, eps: Endpoints, services: Services, vm: map<string, string>, iface: string, r: ServiceRule)
    requires ServicesOk(services) && Distinct(services) && Stored(services, r) && r.port >= 0 && OnVmnet(cfg, eps, iface)
    ensures Redirect(RenderLines(cfg, eps, services, vm), iface, r.proto, r.clusterIP, r.port)
            == Some((SortStrings(Targets(vm, r.backends)), r.targetPort))
  {
    RedirectsOnly(cfg, eps, services, vm, iface, r.proto, r.clusterIP, r.port);
    assert Serves(services, r, r.proto, r.clusterIP, r.port);
    var d := Redirect(RenderLines(cfg, eps, services, vm), iface, r.proto, r.clusterIP, r.port).value;
    var x :| Serves(services, x, r.proto, r.clusterIP, r.port) && d == (SortStrings(Targets(vm, x.backends)), x.targetPort);
    assert SameTraffic(x, r);
  }

  /** And those addresses lead where the rule's backends lead. */
  lemma RedirectReaches(cfg: Config, eps: Endpoints, services: Services, vm: map<string, string>, iface: string, r: ServiceRule)
    requires ServicesOk(services) && Distinct(services) && Stored(services, r) && r.port >= 0 && OnVmnet(cfg, eps, iface)
    requires cfg.iface != "" && IsVmMap(eps, vm) && DistinctPodIPs(eps) && Apart(eps)
    ensures var d := Redirect(RenderLines(cfg, eps, services, vm), iface, r.proto, r.clusterIP, r.port);
            var pods := AllEndpointLines(cfg, eps, SortedKeys(eps.Keys));
            && d.Some? && d.value.1 == r.targetPort
            && multiset(Reached(pods, d.value.0)) == multiset(Reached(pods, r.backends))
  {
    RedirectExact(cfg, eps, services, vm, iface, r);
    RedirectPreservesMeaning(cfg, eps, vm, r.backends);
  }

  /* ---- the binat lines ---- */

  /** The interfaces an endpoint is translated on: its own or the default one, and the mesh. */
  predicate TranslatedOn(cfg: Config, e: Endpoint, iface: string) {
    iface != "" && (iface == (if e.iface != "" then e.iface else cfg.iface) || iface == cfg.mesh)
  }

  lemma EndpointBinat(cfg: Config, e: Endpoint, l: Line)
    requires l.Binat?
    ensures l in EndpointLines(cfg, e) <==> TranslatedOn(cfg, e, l.iface) && l == Binat(l.iface, e.vmIP, e.podIP)
  {
    var ifaces := SortedKeys(BinatIfaces(cfg, e));
    assert l.iface in ifaces <==> l.iface in BinatIfaces(cfg, e);
    var ls := EndpointLines(cfg, e);
    if l in ls {
      var n :| 0 <= n < |ls| && ls[n] == l;
      assert n > 0;
      assert ls[n] == BinatLines(ifaces, e)[n - 1];
    }
    if TranslatedOn(cfg, e, l.iface) && l == Binat(l.iface, e.vmIP, e.podIP) {
      var i :| 0 <= i < |ifaces| && ifaces[i] == l.iface;
      assert ls[i + 1] == l;
    }
  }

  lemma {:induction false} EndpointsBinat(cfg: Config, eps: Endpoints, keys: seq<string>, l: Line)
    requires (forall i :: 0 <= i < |keys| ==> keys[i] in eps) && l.Binat?
    ensures l in AllEndpointLines(cfg, eps, keys) <==>
            exists i :: 0 <= i < |keys| && TranslatedOn(cfg, eps[keys[i]], l.iface)
                        && l == Binat(l.iface, eps[keys[i]].vmIP, eps[keys[i]].podIP)
  {
    if keys != [] {
      EndpointsBinat(cfg, eps, keys[..|keys| - 1], l);
      EndpointBinat(cfg, eps[keys[|keys| - 1]], l);
    }
  }

  lemma {:induction false} ServicesHaveNone(ifaces: seq<string>, vm: map<string, string>, rs: seq<ServiceRule>, l: Line)
    requires PortsOk(rs) && l.Binat?
    ensures l !in RulesLines(ifaces, vm, rs)
  {
    if rs != [] {
      ServicesHaveNone(ifaces, vm, rs[..|rs| - 1], l);
    }
  }

  lemma {:induction false} ServiceLinesNone(ifaces: seq<string>, vm: map<string, string>, services: Services, keys: seq<string>, l: Line)
    requires ServicesOk(services) && (forall i :: 0 <= i < |keys| ==> keys[i] in services) && l.Binat?
    ensures l !in ServiceLines(ifaces, vm, services, keys)
  {
    if keys != [] && ifaces != [] {
      ServiceLinesNone(ifaces, vm, services, keys[..|keys| - 1], l);
      SortRulesPorts(services[keys[|keys| - 1]]);
      ServicesHaveNone(ifaces, vm, SortRules(services[keys[|keys| - 1]]), l);
    }
  }

  /** A binat line is rendered if and only if it translates an attached endpoint on one of its interfaces. */
  lemma RenderedBinat(cfg: Config, eps: Endpoints, services: Services, vm: map<string, string>, l: Line)
    requires ServicesOk(services) && l.Binat?
    ensures l in RenderLines(cfg, eps, services, vm) <==>
            exists k :: k in eps && TranslatedOn(cfg, eps[k], l.iface) && l == Binat(l.iface, eps[k].vmIP, eps[k].podIP)
  {
    var keys := SortedKeys(eps.Keys);
    EndpointsBinat(cfg, eps, keys, l);
    ServiceLinesNone(SortedKeys(VmnetIfaces(cfg, eps)), vm, services, SortedKeys(services.Keys), l);
    if k :| k in eps && TranslatedOn(cfg, eps[k], l.iface) && l == Binat(l.iface, eps[k].vmIP, eps[k].podIP) {
      assert k in keys;
      var i :| 0 <= i < |keys| && keys[i] == k;
    }
    if i :| 0 <= i < |keys| && TranslatedOn(cfg, eps[keys[i]], l.iface) && l == Binat(l.iface, eps[keys[i]].vmIP, eps[keys[i]].podIP) {
      assert keys[i] in keys;
    }
  }
}
