/** Printers against the validator: what the router and the mesh emit, judged by the policy of the same config. */
module Agreement {
  import opened Common
  import opened Net
  import opened Text
  import opened Numbers
  import opened Helper
  import opened Anchor
  import opened PodNet
  import Banner
  import N = NodeConfig

  /* ---- lists of lines ---- */

  ghost predicate Prints(t: Parser, lines: seq<Line>) { forall i :: 0 <= i < |lines| ==> Printable(t, lines[i]) }

  ghost predicate Passes(p: Policy, t: Parser, lines: seq<Line>) { forall i :: 0 <= i < |lines| ==> Anchor.Allowed(p, t, lines[i]) }

  /** The lines are printable, and pass exactly when `ok`. */
  ghost predicate Judged(p: Policy, t: Parser, lines: seq<Line>, ok: bool) {
    Prints(t, lines) && (Passes(p, t, lines) <==> ok)
  }

  lemma JudgedAppend(p: Policy, t: Parser, a: seq<Line>, x: bool, b: seq<Line>, y: bool)
    requires Judged(p, t, a, x) && Judged(p, t, b, y)
    ensures Judged(p, t, a + b, x && y)
  {
    assert forall i :: 0 <= i < |a| ==> (a + b)[i] == a[i];
    assert forall i :: 0 <= i < |b| ==> (a + b)[|a| + i] == b[i];
  }

  /* ---- the Pod half ---- */

  predicate IfaceWord(s: string) { s == "" || Word(s) }

  /** Nothing in the endpoint breaks its lines. */
  predicate EpPrintable(t: Parser, e: Endpoint) {
    '\n' !in e.key && IfaceWord(e.iface) && t.ip(e.podIP).Some? && t.ip(e.vmIP).Some?
  }

  predicate ConfigPrintable(cfg: PodNet.Config) { Word(cfg.iface) && IfaceWord(cfg.mesh) }

  /** What the helper is meant to demand of an endpoint. */
  ghost predicate EpAllowed(p: Policy, t: Parser, cfg: PodNet.Config, e: Endpoint) {
    && (forall i :: i in BinatIfaces(cfg, e) ==> NatOk(p, i))
    && InSet(t, e.vmIP, p.vmnetCIDRs) && InSet(t, e.podIP, p.podCIDRs)
  }

  lemma BinatLinesExact(p: Policy, t: Parser, ifaces: seq<string>, e: Endpoint)
    requires Sane(t) && EpPrintable(t, e) && ifaces != [] && forall i :: 0 <= i < |ifaces| ==> Word(ifaces[i])
    ensures Judged(p, t, BinatLines(ifaces, e),
                   && (forall i :: 0 <= i < |ifaces| ==> NatOk(p, ifaces[i]))
                   && InSet(t, e.vmIP, p.vmnetCIDRs) && InSet(t, e.podIP, p.podCIDRs))
  {
    IpWord(t, e.podIP);
    IpWord(t, e.vmIP);
    var ls := BinatLines(ifaces, e);
    assert forall i :: 0 <= i < |ls| ==> ls[i] == Binat(ifaces[i], e.vmIP, e.podIP);
    if Passes(p, t, ls) {
      assert Anchor.Allowed(p, t, ls[0]);
      forall i | 0 <= i < |ifaces|
        ensures NatOk(p, ifaces[i])
      {
        assert Anchor.Allowed(p, t, ls[i]);
      }
    }
  }

  lemma EndpointExact(p: Policy, t: Parser, cfg: PodNet.Config, e: Endpoint)
    requires Sane(t) && EpPrintable(t, e) && ConfigPrintable(cfg)
    ensures Judged(p, t, EndpointLines(cfg, e), EpAllowed(p, t, cfg, e))
  {
    var own := BinatIfaces(cfg, e);
    var ifaces := SortedKeys(own);
    assert (if e.iface != "" then e.iface else cfg.iface) in own;
    assert forall i :: 0 <= i < |ifaces| ==> ifaces[i] in own;
    assert ifaces != [];
    BinatLinesExact(p, t, ifaces, e);
    assert (forall i :: 0 <= i < |ifaces| ==> NatOk(p, ifaces[i])) <==> (forall i :: i in own ==> NatOk(p, i));
    JudgedAppend(p, t, [Comment(e.key)], true, BinatLines(ifaces, e), EpAllowed(p, t, cfg, e));
  }

  ghost predicate EpsAllowed(p: Policy, t: Parser, cfg: PodNet.Config, eps: Endpoints, keys: seq<string>)
    requires forall i :: 0 <= i < |keys| ==> keys[i] in eps
  {
    keys == [] || (EpsAllowed(p, t, cfg, eps, keys[..|keys| - 1]) && EpAllowed(p, t, cfg, eps[keys[|keys| - 1]]))
  }

  lemma {:induction false} EpsAllowedAll(p: Policy, t: Parser, cfg: PodNet.Config, eps: Endpoints, keys: seq<string>)
    requires forall i :: 0 <= i < |keys| ==> keys[i] in eps
    ensures EpsAllowed(p, t, cfg, eps, keys) <==> forall i :: 0 <= i < |keys| ==> EpAllowed(p, t, cfg, eps[keys[i]])
  {
    if keys != [] {
      EpsAllowedAll(p, t, cfg, eps, keys[..|keys| - 1]);
    }
  }

  lemma {:induction false} EndpointsExact(p: Policy, t: Parser, cfg: PodNet.Config, eps: Endpoints, keys: seq<string>)
    requires Sane(t) && ConfigPrintable(cfg) && forall i :: 0 <= i < |keys| ==> keys[i] in eps && EpPrintable(t, eps[keys[i]])
    ensures Judged(p, t, AllEndpointLines(cfg, eps, keys), EpsAllowed(p, t, cfg, eps, keys))
  {
    if keys != [] {
      var last, front := keys[|keys| - 1], keys[..|keys| - 1];
      EndpointsExact(p, t, cfg, eps, front);
      EndpointExact(p, t, cfg, eps[last]);
      JudgedAppend(p, t, AllEndpointLines(cfg, eps, front), EpsAllowed(p, t, cfg, eps, front),
                   EndpointLines(cfg, eps[last]), EpAllowed(p, t, cfg, eps[last]));
    }
  }

  /* ---- the Service half ---- */

  predicate RulePrintable(t: Parser, r: ServiceRule) {
    RuleValid(t, r) && r.backends != [] && '\n' !in r.key
  }

  predicate TargetOk(p: Policy, t: Parser, ip: string) { InSet(t, ip, p.podCIDRs) || InSet(t, ip, p.vmnetCIDRs) }

  /** What the helper is meant to demand of a Service rule put on `ifaces`. */
  ghost predicate RuleAllowed(p: Policy, t: Parser, ifaces: seq<string>, vm: map<string, string>, r: ServiceRule) {
    && (forall i :: 0 <= i < |ifaces| ==> VmnetOk(p, ifaces[i]))
    && (forall i :: 0 <= i < |r.backends| ==> TargetOk(p, t, Target(vm, r.backends[i])))
  }

  ghost predicate VmParses(t: Parser, vm: map<string, string>) { forall k :: k in vm ==> t.ip(vm[k]).Some? }

  ghost predicate Every(f: string -> bool, s: seq<string>) { forall i :: 0 <= i < |s| ==> f(s[i]) }

  lemma {:induction false} EveryInsert(f: string -> bool, x: string, s: seq<string>)
    ensures (Every(f, Insert(x, s)) <==> f(x) && Every(f, s)) && |Insert(x, s)| == |s| + 1
  {
    if s == [] || StrLE(x, s[0]) {
      EveryCons(f, x, s);
    } else {
      EveryInsert(f, x, s[1..]);
      EveryCons(f, s[0], Insert(x, s[1..]));
      EveryCons(f, s[0], s[1..]);
      assert s == [s[0]] + s[1..];
    }
  }

  lemma EveryCons(f: string -> bool, x: string, s: seq<string>)
    ensures Every(f, [x] + s) <==> f(x) && Every(f, s)
  {
    var xs := [x] + s;
    assert xs[0] == x;
    assert forall i :: 0 <= i < |s| ==> xs[i + 1] == s[i];
    assert forall i :: 0 < i < |xs| ==> xs[i] == s[i - 1];
  }

  /** Sorting does not change which strings there are. */
  lemma {:induction false} EverySort(f: string -> bool, s: seq<string>)
    ensures (Every(f, SortStrings(s)) <==> Every(f, s)) && |SortStrings(s)| == |s|
  {
    if s != [] {
      EverySort(f, s[1..]);
      EveryInsert(f, s[0], SortStrings(s[1..]));
      EveryCons(f, s[0], s[1..]);
      assert s == [s[0]] + s[1..];
    }
  }

  lemma SortedTargets(p: Policy, t: Parser, vm: map<string, string>, backends: seq<string>)
    requires VmParses(t, vm) && forall i :: 0 <= i < |backends| ==> t.ip(backends[i]).Some?
    ensures var s := SortStrings(Targets(vm, backends));
            && |s| == |backends| && (forall i :: 0 <= i < |s| ==> t.ip(s[i]).Some?)
            && ((forall i :: 0 <= i < |s| ==> TargetOk(p, t, s[i])) <==>
                (forall i :: 0 <= i < |backends| ==> TargetOk(p, t, Target(vm, backends[i]))))
  {
    var ts := Targets(vm, backends);
    var parses, passes := x => t.ip(x).Some?, x => TargetOk(p, t, x);
    assert Every(parses, ts);
    EverySort(parses, ts);
    EverySort(passes, ts);
    assert Every(passes, ts) <==> forall i :: 0 <= i < |backends| ==> TargetOk(p, t, Target(vm, backends[i])) by {
      assert forall i :: 0 <= i < |backends| ==> ts[i] == Target(vm, backends[i]);
    }
  }

  lemma RdrLinesExact(p: Policy, t: Parser, ifaces: seq<string>, r: ServiceRule, targets: seq<string>)
    requires Sane(t) && RulePrintable(t, r) && ifaces != [] && (forall i :: 0 <= i < |ifaces| ==> Word(ifaces[i]))
    requires targets != [] && forall i :: 0 <= i < |targets| ==> t.ip(targets[i]).Some?
    ensures Judged(p, t, RdrLines(ifaces, r, targets),
                   && (forall i :: 0 <= i < |ifaces| ==> VmnetOk(p, ifaces[i]))
                   && (forall i :: 0 <= i < |targets| ==> TargetOk(p, t, targets[i])))
  {
    var ls := RdrLines(ifaces, r, targets);
    forall i | 0 <= i < |ls|
      ensures Printable(t, ls[i])
      ensures Anchor.Allowed(p, t, ls[i]) <==> VmnetOk(p, ifaces[i]) && forall j :: 0 <= j < |targets| ==> TargetOk(p, t, targets[j])
    {
      RdrLineExact(p, t, ifaces[i], r, targets);
    }
    assert Passes(p, t, ls) ==> Anchor.Allowed(p, t, ls[0]);
  }

  lemma RdrLineExact(p: Policy, t: Parser, iface: string, r: ServiceRule, targets: seq<string>)
    requires Sane(t) && RulePrintable(t, r) && Word(iface)
    requires targets != [] && forall i :: 0 <= i < |targets| ==> t.ip(targets[i]).Some?
    ensures var l := Rdr(iface, r.proto, r.clusterIP, r.port, targets, r.targetPort);
            && Printable(t, l)
            && (Anchor.Allowed(p, t, l) <==> VmnetOk(p, iface) && forall i :: 0 <= i < |targets| ==> TargetOk(p, t, targets[i]))
  {
    IpWord(t, r.clusterIP);
    ProtoWord(r.proto);
  }

  lemma ProtoWord(proto: string)
    requires proto == "tcp" || proto == "udp"
    ensures Word(proto)
  {
  }

  lemma RuleCommentPlain(t: Parser, r: ServiceRule)
    requires Sane(t) && RulePrintable(t, r)
    ensures '\n' !in r.key + " " + r.clusterIP + ":" + Itoa(r.port) + " -> :" + Itoa(r.targetPort)
  {
    IpWord(t, r.clusterIP);
    ItoaWord(r.port);
    ItoaWord(r.targetPort);
  }

  lemma RuleExact(p: Policy, t: Parser, ifaces: seq<string>, vm: map<string, string>, r: ServiceRule)
    requires Sane(t) && VmParses(t, vm) && RulePrintable(t, r) && ifaces != []
    requires forall i :: 0 <= i < |ifaces| ==> Word(ifaces[i])
    ensures Judged(p, t, RuleLines(ifaces, vm, r), RuleAllowed(p, t, ifaces, vm, r))
  {
    SortedTargets(p, t, vm, r.backends);
    var targets := SortStrings(Targets(vm, r.backends));
    RdrLinesExact(p, t, ifaces, r, targets);
    RuleCommentPlain(t, r);
    var note := [Comment(r.key + " " + r.clusterIP + ":" + Itoa(r.port) + " -> :" + Itoa(r.targetPort))];
    JudgedAppend(p, t, note, true, RdrLines(ifaces, r, targets), RuleAllowed(p, t, ifaces, vm, r));
  }

  ghost predicate RulesPrintable(t: Parser, rs: seq<ServiceRule>) { forall i :: 0 <= i < |rs| ==> RulePrintable(t, rs[i]) }

  /** Where rules go, and how their backends translate. */
  ghost predicate PlaceOk(t: Parser, ifaces: seq<string>, vm: map<string, string>) {
    VmParses(t, vm) && ifaces != [] && forall i :: 0 <= i < |ifaces| ==> Word(ifaces[i])
  }

  ghost predicate RulesAllowed(p: Policy, t: Parser, ifaces: seq<string>, vm: map<string, string>, rs: seq<ServiceRule>) {
    rs == [] || (RulesAllowed(p, t, ifaces, vm, rs[..|rs| - 1]) && RuleAllowed(p, t, ifaces, vm, rs[|rs| - 1]))
  }

  lemma {:induction false} RulesAllowedAll(p: Policy, t: Parser, ifaces: seq<string>, vm: map<string, string>, rs: seq<ServiceRule>)
    ensures RulesAllowed(p, t, ifaces, vm, rs) <==> forall r :: r in rs ==> RuleAllowed(p, t, ifaces, vm, r)
  {
    if rs != [] {
      RulesAllowedAll(p, t, ifaces, vm, rs[..|rs| - 1]);
      assert rs == rs[..|rs| - 1] + [rs[|rs| - 1]];
    }
  }

  lemma {:induction false} RulesExact(p: Policy, t: Parser, ifaces: seq<string>, vm: map<string, string>, rs: seq<ServiceRule>)
    requires Sane(t) && PlaceOk(t, ifaces, vm) && RulesPrintable(t, rs) && PortsOk(rs)
    ensures Judged(p, t, RulesLines(ifaces, vm, rs), RulesAllowed(p, t, ifaces, vm, rs))
  {
    if rs != [] {
      var last, front := rs[|rs| - 1], rs[..|rs| - 1];
      RulesExact(p, t, ifaces, vm, front);
      RuleExact(p, t, ifaces, vm, last);
      JudgedAppend(p, t, RulesLines(ifaces, vm, front), RulesAllowed(p, t, ifaces, vm, front),
                   RuleLines(ifaces, vm, last), RuleAllowed(p, t, ifaces, vm, last));
    }
  }

  lemma KeyExact(p: Policy, t: Parser, ifaces: seq<string>, vm: map<string, string>, rs: seq<ServiceRule>)
    requires Sane(t) && PlaceOk(t, ifaces, vm) && RulesPrintable(t, rs) && PortsOk(rs)
    ensures PortsOk(SortRules(rs))
    ensures Judged(p, t, RulesLines(ifaces, vm, SortRules(rs)), RulesAllowed(p, t, ifaces, vm, rs))
  {
    var s := SortRules(rs);
    SortRulesPorts(rs);
    SortRulesMembers(rs);
    assert RulesPrintable(t, s) by { assert forall i :: 0 <= i < |s| ==> s[i] in rs; }
    RulesExact(p, t, ifaces, vm, s);
    RulesAllowedAll(p, t, ifaces, vm, s);
    RulesAllowedAll(p, t, ifaces, vm, rs);
  }

  ghost predicate KeysAllowed(p: Policy, t: Parser, ifaces: seq<string>, vm: map<string, string>, services: Services, keys: seq<string>)
    requires forall i :: 0 <= i < |keys| ==> keys[i] in services
  {
    keys == [] ||
    (KeysAllowed(p, t, ifaces, vm, services, keys[..|keys| - 1]) && RulesAllowed(p, t, ifaces, vm, services[keys[|keys| - 1]]))
  }

  lemma {:induction false} KeysAllowedAll(p: Policy, t: Parser, ifaces: seq<string>, vm: map<string, string>,
                                          services: Services, keys: seq<string>)
    requires forall i :: 0 <= i < |keys| ==> keys[i] in services
    ensures KeysAllowed(p, t, ifaces, vm, services, keys) <==>
            forall i :: 0 <= i < |keys| ==> RulesAllowed(p, t, ifaces, vm, services[keys[i]])
  {
    if keys != [] {
      KeysAllowedAll(p, t, ifaces, vm, services, keys[..|keys| - 1]);
    }
  }

  lemma {:induction false} ServicesExact(p: Policy, t: Parser, ifaces: seq<string>, vm: map<string, string>,
                                         services: Services, keys: seq<string>)
    requires Sane(t) && PlaceOk(t, ifaces, vm) && ServicesOk(services)
    requires forall i :: 0 <= i < |keys| ==> keys[i] in services && RulesPrintable(t, services[keys[i]])
    ensures Judged(p, t, ServiceLines(ifaces, vm, services, keys), KeysAllowed(p, t, ifaces, vm, services, keys))
  {
    if keys != [] {
      var last, front := keys[|keys| - 1], keys[..|keys| - 1];
      ServicesExact(p, t, ifaces, vm, services, front);
      KeyExact(p, t, ifaces, vm, services[last]);
      JudgedAppend(p, t, ServiceLines(ifaces, vm, services, front), KeysAllowed(p, t, ifaces, vm, services, front),
                   RulesLines(ifaces, vm, SortRules(services[last])), RulesAllowed(p, t, ifaces, vm, services[last]));
    }
  }

  /* ---- the whole anchor ---- */

  ghost predicate StatePrintable(t: Parser, eps: Endpoints, services: Services) {
    && (forall k :: k in eps ==> EpPrintable(t, eps[k]))
    && (forall k :: k in services ==> RulesPrintable(t, services[k]))
  }

  ghost predicate StateAllowed(p: Policy, t: Parser, cfg: PodNet.Config, eps: Endpoints, services: Services, vm: map<string, string>) {
    PodsAllowed(p, t, cfg, eps) && ServicesAllowed(p, t, SortedKeys(VmnetIfaces(cfg, eps)), vm, services)
  }

  ghost predicate PodsAllowed(p: Policy, t: Parser, cfg: PodNet.Config, eps: Endpoints) {
    forall k :: k in eps ==> EpAllowed(p, t, cfg, eps[k])
  }

  ghost predicate ServicesAllowed(p: Policy, t: Parser, ifaces: seq<string>, vm: map<string, string>, services: Services) {
    forall k :: k in services ==> RulesAllowed(p, t, ifaces, vm, services[k])
  }

  lemma VmnetPlace(t: Parser, cfg: PodNet.Config, eps: Endpoints, vm: map<string, string>)
    requires ConfigPrintable(cfg) && IsVmMap(eps, vm) && forall k :: k in eps ==> EpPrintable(t, eps[k])
    ensures PlaceOk(t, SortedKeys(VmnetIfaces(cfg, eps)), vm)
  {
    var ifaces := SortedKeys(VmnetIfaces(cfg, eps));
    assert cfg.iface in VmnetIfaces(cfg, eps) && cfg.iface in ifaces;
    assert forall i :: 0 <= i < |ifaces| ==> ifaces[i] in VmnetIfaces(cfg, eps);
  }

  lemma HeaderJudged(p: Policy, t: Parser)
    ensures Judged(p, t, [Comment(HEADER)], true)
  {
    Banner.OneLine();
  }

  lemma PodsJudged(p: Policy, t: Parser, cfg: PodNet.Config, eps: Endpoints)
    requires Sane(t) && ConfigPrintable(cfg) && forall k :: k in eps ==> EpPrintable(t, eps[k])
    ensures Judged(p, t, AllEndpointLines(cfg, eps, SortedKeys(eps.Keys)), PodsAllowed(p, t, cfg, eps))
  {
    var keys := SortedKeys(eps.Keys);
    assert forall i :: 0 <= i < |keys| ==> keys[i] in eps.Keys;
    EndpointsExact(p, t, cfg, eps, keys);
    EpsAllowedAll(p, t, cfg, eps, keys);
    assert forall k :: k in eps ==> k in keys;
  }

  lemma ServicesJudged(p: Policy, t: Parser, ifaces: seq<string>, vm: map<string, string>, services: Services)
    requires Sane(t) && PlaceOk(t, ifaces, vm) && ServicesOk(services)
    requires forall k :: k in services ==> RulesPrintable(t, services[k])
    ensures Judged(p, t, ServiceLines(ifaces, vm, services, SortedKeys(services.Keys)),
                   ServicesAllowed(p, t, ifaces, vm, services))
  {
    var keys := SortedKeys(services.Keys);
    assert forall i :: 0 <= i < |keys| ==> keys[i] in services.Keys;
    ServicesExact(p, t, ifaces, vm, services, keys);
    KeysAllowedAll(p, t, ifaces, vm, services, keys);
    assert forall k :: k in services ==> k in keys;
  }

  lemma RenderJudged(p: Policy, t: Parser, cfg: PodNet.Config, eps: Endpoints, services: Services, vm: map<string, string>)
    requires Sane(t) && ConfigPrintable(cfg) && StatePrintable(t, eps, services) && ServicesOk(services) && IsVmMap(eps, vm)
    ensures Judged(p, t, RenderLines(cfg, eps, services, vm), StateAllowed(p, t, cfg, eps, services, vm))
  {
    var ifaces := SortedKeys(VmnetIfaces(cfg, eps));
    var pods, svcs := AllEndpointLines(cfg, eps, SortedKeys(eps.Keys)), ServiceLines(ifaces, vm, services, SortedKeys(services.Keys));
    HeaderJudged(p, t);
    VmnetPlace(t, cfg, eps, vm);
    PodsJudged(p, t, cfg, eps);
    ServicesJudged(p, t, ifaces, vm, services);
    JudgedThree(p, t, [Comment(HEADER)], true, pods, PodsAllowed(p, t, cfg, eps), svcs, ServicesAllowed(p, t, ifaces, vm, services));
  }

  lemma JudgedThree(p: Policy, t: Parser, a: seq<Line>, x: bool, b: seq<Line>, y: bool, c: seq<Line>, z: bool)
    requires Judged(p, t, a, x) && Judged(p, t, b, y) && Judged(p, t, c, z)
    ensures Judged(p, t, a + b + c, x && y && z)
  {
    JudgedAppend(p, t, a, x, b, y);
    JudgedAppend(p, t, a + b, x && y, c, z);
  }

  /** The helper accepts a rendered anchor if and only if it accepts what the router's maps hold. */
  lemma RenderAcceptedIff(p: Policy, t: Parser, cfg: PodNet.Config, eps: Endpoints, services: Services, vm: map<string, string>)
    requires Sane(t) && ConfigPrintable(cfg) && StatePrintable(t, eps, services) && ServicesOk(services) && IsVmMap(eps, vm)
    ensures LintAnchor(p, t, AnchorText(RenderLines(cfg, eps, services, vm))) <==>
            p.vmnet != "" && StateAllowed(p, t, cfg, eps, services, vm)
  {
    RenderJudged(p, t, cfg, eps, services, vm);
    AnchorExact(p, t, RenderLines(cfg, eps, services, vm));
  }

  /* ---- one config on both sides ---- */

  predicate ConfigFits(t: Parser, keys: N.Keys, c: N.Node) {
    c.net.enabled && Word(c.net.iface) && IfaceWord(c.mesh.iface) && N.PolicyOf(t, keys, c).Some?
  }

  /** An endpoint the node can have: on the configured interface or a bridge, at addresses of its own ranges. */
  predicate EpFits(p: Policy, t: Parser, c: N.Node, e: Endpoint) {
    && EpPrintable(t, e) && (e.iface == "" || e.iface == c.net.iface || IsBridge(e.iface))
    && InSet(t, e.vmIP, p.vmnetCIDRs) && InSet(t, e.podIP, p.podCIDRs)
  }

  /** A rule the controller lets through: every backend routable. */
  ghost predicate RuleFits(t: Parser, c: N.Node, r: ServiceRule) {
    RulePrintable(t, r) && forall i :: 0 <= i < |r.backends| ==> N.Routable(t, c, r.backends[i])
  }

  ghost predicate MapsFit(p: Policy, t: Parser, c: N.Node, eps: Endpoints, services: Services) {
    && (forall k :: k in eps ==> EpFits(p, t, c, eps[k]))
    && (forall k, i :: k in services && 0 <= i < |services[k]| ==> RuleFits(t, c, services[k][i]))
  }

  /** The helper knows the name the router calls the mesh, or the router does not use it. */
  predicate MeshAgrees(p: Policy, c: N.Node) {
    c.mesh.enabled || c.mesh.iface == "" || VmnetOk(p, c.mesh.iface)
  }

  lemma EpAllowedIff(t: Parser, keys: N.Keys, c: N.Node, e: Endpoint)
    requires ConfigFits(t, keys, c) && EpFits(N.PolicyOf(t, keys, c).value, t, c, e)
    ensures EpAllowed(N.PolicyOf(t, keys, c).value, t, N.RouterConfig(c), e) <==> MeshAgrees(N.PolicyOf(t, keys, c).value, c)
  {
    var p, cfg := N.PolicyOf(t, keys, c).value, N.RouterConfig(c);
    var own := if e.iface != "" then e.iface else cfg.iface;
    assert VmnetOk(p, own);
    assert cfg.mesh != "" ==> cfg.mesh in BinatIfaces(cfg, e);
    assert forall i :: i in BinatIfaces(cfg, e) ==> i == own || i == cfg.mesh;
  }

  lemma RuleAllowedAlways(t: Parser, keys: N.Keys, c: N.Node, eps: Endpoints, vm: map<string, string>, ifaces: seq<string>, r: ServiceRule)
    requires ConfigFits(t, keys, c) && RuleFits(t, c, r) && IsVmMap(eps, vm)
    requires forall k :: k in eps ==> EpFits(N.PolicyOf(t, keys, c).value, t, c, eps[k])
    requires forall i :: 0 <= i < |ifaces| ==> ifaces[i] in VmnetIfaces(N.RouterConfig(c), eps)
    ensures RuleAllowed(N.PolicyOf(t, keys, c).value, t, ifaces, vm, r)
  {
    var p := N.PolicyOf(t, keys, c).value;
    forall i | 0 <= i < |r.backends|
      ensures TargetOk(p, t, Target(vm, r.backends[i]))
    {
      N.FilterAgrees(t, keys, c, r.backends[i]);
    }
  }

  lemma ServicesAllowedAlways(t: Parser, keys: N.Keys, c: N.Node, eps: Endpoints, services: Services, vm: map<string, string>)
    requires ConfigFits(t, keys, c) && MapsFit(N.PolicyOf(t, keys, c).value, t, c, eps, services) && IsVmMap(eps, vm)
    ensures ServicesAllowed(N.PolicyOf(t, keys, c).value, t, SortedKeys(VmnetIfaces(N.RouterConfig(c), eps)), vm, services)
  {
    var p, ifaces := N.PolicyOf(t, keys, c).value, SortedKeys(VmnetIfaces(N.RouterConfig(c), eps));
    assert forall i :: 0 <= i < |ifaces| ==> ifaces[i] in VmnetIfaces(N.RouterConfig(c), eps);
    forall k | k in services
      ensures RulesAllowed(p, t, ifaces, vm, services[k])
    {
      RulesAllowedAll(p, t, ifaces, vm, services[k]);
      forall r | r in services[k]
        ensures RuleAllowed(p, t, ifaces, vm, r)
      {
        RuleAllowedAlways(t, keys, c, eps, vm, ifaces, r);
      }
    }
  }

  lemma FitsPrintable(p: Policy, t: Parser, c: N.Node, eps: Endpoints, services: Services)
    requires MapsFit(p, t, c, eps, services)
    ensures StatePrintable(t, eps, services) && ServicesOk(services)
  {
    forall k | k in services
      ensures RulesPrintable(t, services[k]) && PortsOk(services[k])
    {
      assert forall i :: 0 <= i < |services[k]| ==> RuleFits(t, c, services[k][i]);
    }
  }

  lemma PodsAllowedIff(t: Parser, keys: N.Keys, c: N.Node, eps: Endpoints)
    requires ConfigFits(t, keys, c) && forall k :: k in eps ==> EpFits(N.PolicyOf(t, keys, c).value, t, c, eps[k])
    ensures var p := N.PolicyOf(t, keys, c).value;
            PodsAllowed(p, t, N.RouterConfig(c), eps) <==> eps == map[] || MeshAgrees(p, c)
  {
    forall k | k in eps
      ensures EpAllowed(N.PolicyOf(t, keys, c).value, t, N.RouterConfig(c), eps[k]) <==> MeshAgrees(N.PolicyOf(t, keys, c).value, c)
    {
      EpAllowedIff(t, keys, c, eps[k]);
    }
    if eps != map[] {
      var k :| k in eps;
    }
  }

  /**
   * Every anchor the router renders is accepted by the policy of the same config if and only if nothing is attached
   * or the two sides agree on the mesh interface.
   */
  lemma AnchorAcceptedIff(t: Parser, keys: N.Keys, c: N.Node, eps: Endpoints, services: Services, vm: map<string, string>)
    requires Sane(t) && ConfigFits(t, keys, c) && IsVmMap(eps, vm) && ServicesOk(services)
    requires MapsFit(N.PolicyOf(t, keys, c).value, t, c, eps, services)
    ensures var p := N.PolicyOf(t, keys, c).value;
            LintAnchor(p, t, AnchorText(RenderLines(N.RouterConfig(c), eps, services, vm))) <==>
            eps == map[] || MeshAgrees(p, c)
  {
    var p, cfg := N.PolicyOf(t, keys, c).value, N.RouterConfig(c);
    FitsPrintable(p, t, c, eps, services);
    RenderAcceptedIff(p, t, cfg, eps, services, vm);
    ServicesAllowedAlways(t, keys, c, eps, services, vm);
    PodsAllowedIff(t, keys, c, eps);
    assert p.vmnet != "";
  }

  /* ---- over every run ---- */

  ghost predicate OpFits(p: Policy, t: Parser, c: N.Node, op: Op, env: Env) {
    match op
    case Attach(ep) => EpFits(p, t, c, Resolved(N.RouterConfig(c), ep, env))
    case AttachService(_, rules) => forall r :: r in rules && r.backends != [] && RuleValid(t, r) ==> RuleFits(t, c, r)
    case _ => true
  }

  lemma KeptFits(t: Parser, c: N.Node, rules: seq<ServiceRule>)
    requires AllValid(t, rules) && forall r :: r in rules && r.backends != [] && RuleValid(t, r) ==> RuleFits(t, c, r)
    ensures forall i :: 0 <= i < |Kept(rules)| ==> RuleFits(t, c, Kept(rules)[i])
  {
    KeptMembers(rules);
    forall i | 0 <= i < |Kept(rules)|
      ensures RuleFits(t, c, Kept(rules)[i])
    {
      assert Kept(rules)[i] in rules;
    }
  }

  lemma FitsKept(p: Policy, t: Parser, c: N.Node, s: State, op: Op, env: Env)
    requires MapsFit(p, t, c, s.endpoints, s.services) && ServicesOk(s.services) && OpFits(p, t, c, op, env)
    ensures var u := Apply(t, N.RouterConfig(c), s, op, env).0; MapsFit(p, t, c, u.endpoints, u.services)
  {
    if op.Attach? {
      AttachFits(p, t, c, s, op.ep, env);
    } else if op.AttachService? {
      ServiceFits(p, t, c, s, op.key, op.rules, env);
    }
  }

  lemma ServiceFits(p: Policy, t: Parser, c: N.Node, s: State, key: string, rules: seq<ServiceRule>, env: Env)
    requires MapsFit(p, t, c, s.endpoints, s.services) && ServicesOk(s.services) && OpFits(p, t, c, AttachService(key, rules), env)
    ensures var u := Apply(t, N.RouterConfig(c), s, AttachService(key, rules), env).0; MapsFit(p, t, c, u.endpoints, u.services)
  {
    if AllValid(t, rules) {
      KeptFits(t, c, rules);
    }
  }

  lemma AttachFits(p: Policy, t: Parser, c: N.Node, s: State, ep: Endpoint, env: Env)
    requires MapsFit(p, t, c, s.endpoints, s.services) && ServicesOk(s.services)
    requires EpFits(p, t, c, Resolved(N.RouterConfig(c), ep, env))
    ensures var u := AttachStep(t, N.RouterConfig(c), s, ep, env).0; MapsFit(p, t, c, u.endpoints, u.services)
  {
  }

  ghost predicate RunFits(p: Policy, t: Parser, c: N.Node, run: seq<(Op, Env)>) {
    forall i :: 0 <= i < |run| ==> OpFits(p, t, c, run[i].0, run[i].1)
  }

  lemma {:induction false} RunKeepsFit(p: Policy, t: Parser, c: N.Node, s: State, run: seq<(Op, Env)>)
    requires Legal(t, N.RouterConfig(c), s, run) && RunFits(p, t, c, run) && MapsFit(p, t, c, s.endpoints, s.services)
    ensures var u := After(t, N.RouterConfig(c), s, run); MapsFit(p, t, c, u.endpoints, u.services)
    decreases |run|
  {
    if run != [] {
      FitsKept(p, t, c, s, run[0].0, run[0].1);
      RunKeepsFit(p, t, c, Apply(t, N.RouterConfig(c), s, run[0].0, run[0].1).0, run[1..]);
    }
  }

  /** Whatever the router has been asked to do, the ruleset it would load next is one the helper accepts. */
  lemma EveryLoadAccepted(t: Parser, keys: N.Keys, c: N.Node, run: seq<(Op, Env)>, vm: map<string, string>)
    requires Sane(t) && ConfigFits(t, keys, c) && (c.mesh.enabled || c.mesh.iface == "")
    requires Legal(t, N.RouterConfig(c), FRESH, run) && RunFits(N.PolicyOf(t, keys, c).value, t, c, run)
    requires IsVmMap(After(t, N.RouterConfig(c), FRESH, run).endpoints, vm)
    ensures var u := After(t, N.RouterConfig(c), FRESH, run);
            && ServicesOk(u.services)
            && LintAnchor(N.PolicyOf(t, keys, c).value, t, AnchorText(RenderLines(N.RouterConfig(c), u.endpoints, u.services, vm)))
  {
    var u := After(t, N.RouterConfig(c), FRESH, run);
    RunKeepsFit(N.PolicyOf(t, keys, c).value, t, c, FRESH, run);
    FitsPrintable(N.PolicyOf(t, keys, c).value, t, c, u.endpoints, u.services);
    AnchorAcceptedIff(t, keys, c, u.endpoints, u.services, vm);
  }
}
