/** The anchor's first line. */
module Banner {
  const OWNER := "Managed by macvz "
  const ISSUE := "(issue #22). "
  const NOTICE := "Do not edit by hand."
  const TEXT := OWNER + ISSUE + NOTICE

  lemma OwnerPlain()
    ensures '\n' !in OWNER
  {
  }

  lemma IssuePlain()
    ensures '\n' !in ISSUE
  {
  }

  lemma NoticePlain()
    ensures '\n' !in NOTICE
  {
  }

  lemma OneLine()
    ensures '\n' !in TEXT
  {
    OwnerPlain();
    IssuePlain();
    NoticePlain();
  }
}

/** The Pod network router: endpoints and services in memory, one pf anchor on the host. */
module PodNet {
  import opened Common
  import opened Net
  import opened Text
  import opened Numbers
  import opened Helper
  import opened Anchor
  import Banner

  datatype Endpoint = Endpoint(key: string, podIP: string, vmIP: string, iface: string)

  datatype ServiceRule = ServiceRule(
    key: string, clusterIP: string, proto: string, port: int, targetPort: int, backends: seq<string>)

  datatype Config = Config(iface: string, mesh: string, anchor: string, forwarding: bool)

  type Endpoints = map<string, Endpoint>
  type Services = map<string, seq<ServiceRule>>

  predicate EndpointValid(t: Parser, e: Endpoint) {
    && e.key != "" && t.ip(e.podIP).Some? && t.ip(e.vmIP).Some?
    && (e.iface != "" ==> TrimSpace(e.iface) == e.iface)
  }

  predicate RuleValid(t: Parser, r: ServiceRule) {
    && r.key != "" && t.ip(r.clusterIP).Some? && (r.proto == "tcp" || r.proto == "udp")
    && 1 <= r.port <= 65535 && 1 <= r.targetPort <= 65535
    && forall i :: 0 <= i < |r.backends| ==> t.ip(r.backends[i]).Some?
  }

  /* ---- rendering ---- */

  const HEADER := Banner.TEXT

  /** The interfaces a Pod's binat rules go on: its own (or the default), and the mesh. */
  function BinatIfaces(cfg: Config, e: Endpoint): set<string> {
    {if e.iface != "" then e.iface else cfg.iface, cfg.mesh} - {""}
  }

  function VmnetIfaces(cfg: Config, eps: Endpoints): set<string> {
    ({cfg.iface} + set k | k in eps :: eps[k].iface) - {""}
  }

  function BinatLines(ifaces: seq<string>, e: Endpoint): (r: seq<Line>)
    ensures |r| == |ifaces|
  {
    seq(|ifaces|, i requires 0 <= i < |ifaces| => Binat(ifaces[i], e.vmIP, e.podIP))
  }

  ghost function EndpointLines(cfg: Config, e: Endpoint): seq<Line> {
    [Comment(e.key)] + BinatLines(SortedKeys(BinatIfaces(cfg, e)), e)
  }

  ghost function AllEndpointLines(cfg: Config, eps: Endpoints, keys: seq<string>): seq<Line>
    requires forall i :: 0 <= i < |keys| ==> keys[i] in eps
  {
    if keys == [] then []
    else AllEndpointLines(cfg, eps, keys[..|keys| - 1]) + EndpointLines(cfg, eps[keys[|keys| - 1]])
  }

  /** A local backend goes straight to its VM, a remote one keeps its Pod IP. */
  function Target(vm: map<string, string>, podIP: string): string {
    if podIP in vm then vm[podIP] else podIP
  }

  function Targets(vm: map<string, string>, backends: seq<string>): (r: seq<string>)
    ensures |r| == |backends|
  {
    seq(|backends|, i requires 0 <= i < |backends| => Target(vm, backends[i]))
  }

  function RdrLines(ifaces: seq<string>, r: ServiceRule, targets: seq<string>): (ls: seq<Line>)
    requires r.port >= 0 && r.targetPort >= 0
    ensures |ls| == |ifaces|
  {
    seq(|ifaces|, i requires 0 <= i < |ifaces| => Rdr(ifaces[i], r.proto, r.clusterIP, r.port, targets, r.targetPort))
  }

  function RuleLines(ifaces: seq<string>, vm: map<string, string>, r: ServiceRule): seq<Line>
    requires r.port >= 0 && r.targetPort >= 0
  {
    [Comment(r.key + " " + r.clusterIP + ":" + Itoa(r.port) + " -> :" + Itoa(r.targetPort))]
    + RdrLines(ifaces, r, SortStrings(Targets(vm, r.backends)))
  }

  predicate RuleLE(a: ServiceRule, b: ServiceRule) {
    if a.clusterIP != b.clusterIP then StrLE(a.clusterIP, b.clusterIP) else a.port <= b.port
  }

  function InsertRule(r: ServiceRule, s: seq<ServiceRule>): seq<ServiceRule> {
    if s == [] || RuleLE(r, s[0]) then [r] + s else [s[0]] + InsertRule(r, s[1..])
  }

  /** By ClusterIP and port; the protocol is not compared. */
  function SortRules(s: seq<ServiceRule>): seq<ServiceRule> {
    if s == [] then [] else InsertRule(s[0], SortRules(s[1..]))
  }

  lemma {:induction false} InsertRuleMembers(r: ServiceRule, s: seq<ServiceRule>)
    ensures multiset(InsertRule(r, s)) == multiset(s) + multiset{r}
  {
    if s != [] && !RuleLE(r, s[0]) {
      InsertRuleMembers(r, s[1..]);
      assert s == [s[0]] + s[1..];
    }
  }

  lemma {:induction false} SortRulesMembers(s: seq<ServiceRule>)
    ensures multiset(SortRules(s)) == multiset(s)
    ensures forall r :: r in SortRules(s) <==> r in s
  {
    if s != [] {
      SortRulesMembers(s[1..]);
      InsertRuleMembers(s[0], SortRules(s[1..]));
      assert s == [s[0]] + s[1..];
    }
    forall r
      ensures r in SortRules(s) <==> r in s
    {
      assert r in SortRules(s) <==> r in multiset(SortRules(s));
      assert r in s <==> r in multiset(s);
    }
  }

  lemma RuleLETrans(a: ServiceRule, b: ServiceRule, c: ServiceRule)
    requires RuleLE(a, b) && RuleLE(b, c)
    ensures RuleLE(a, c)
  {
    StrTotal(a.clusterIP, b.clusterIP);
    if a.clusterIP != b.clusterIP && b.clusterIP != c.clusterIP {
      StrTrans(a.clusterIP, b.clusterIP, c.clusterIP);
    }
  }

  ghost predicate RulesSorted(s: seq<ServiceRule>) { forall i, j :: 0 <= i < j < |s| ==> RuleLE(s[i], s[j]) }

  lemma {:induction false} InsertRuleSorted(r: ServiceRule, s: seq<ServiceRule>)
    requires RulesSorted(s)
    ensures RulesSorted(InsertRule(r, s))
  {
    if s == [] {
    } else if RuleLE(r, s[0]) {
      forall j | 0 < j < |s|
        ensures RuleLE(r, s[j])
      {
        RuleLETrans(r, s[0], s[j]);
      }
    } else {
      StrTotal(r.clusterIP, s[0].clusterIP);
      InsertRuleSorted(r, s[1..]);
      var t := InsertRule(r, s[1..]);
      InsertRuleMembers(r, s[1..]);
      forall j | 0 <= j < |t|
        ensures RuleLE(s[0], t[j])
      {
        assert t[j] in multiset(t);
        assert t[j] == r || t[j] in s[1..];
      }
    }
  }

  /** The rules come out by ClusterIP and port. */
  lemma {:induction false} SortRulesSorted(s: seq<ServiceRule>)
    ensures RulesSorted(SortRules(s))
  {
    if s != [] {
      SortRulesSorted(s[1..]);
      InsertRuleSorted(s[0], SortRules(s[1..]));
    }
  }

  predicate PortsOk(rs: seq<ServiceRule>) { forall i :: 0 <= i < |rs| ==> rs[i].port >= 0 && rs[i].targetPort >= 0 }

  function RulesLines(ifaces: seq<string>, vm: map<string, string>, rs: seq<ServiceRule>): seq<Line>
    requires PortsOk(rs)
  {
    if rs == [] then [] else RulesLines(ifaces, vm, rs[..|rs| - 1]) + RuleLines(ifaces, vm, rs[|rs| - 1])
  }

  lemma SortRulesPorts(rs: seq<ServiceRule>)
    requires PortsOk(rs)
    ensures PortsOk(SortRules(rs))
  {
    SortRulesMembers(rs);
    forall i | 0 <= i < |SortRules(rs)|
      ensures SortRules(rs)[i].port >= 0 && SortRules(rs)[i].targetPort >= 0
    {
      assert SortRules(rs)[i] in rs;
    }
  }

  ghost predicate ServicesOk(services: Services) { forall k :: k in services ==> PortsOk(services[k]) }

  ghost function ServiceLines(ifaces: seq<string>, vm: map<string, string>, services: Services, keys: seq<string>): seq<Line>
    requires ServicesOk(services) && forall i :: 0 <= i < |keys| ==> keys[i] in services
  {
    if keys == [] || ifaces == [] then []
    else
      SortRulesPorts(services[keys[|keys| - 1]]);
      ServiceLines(ifaces, vm, services, keys[..|keys| - 1]) + RulesLines(ifaces, vm, SortRules(services[keys[|keys| - 1]]))
  }

  /** The anchor body: the Pods' binat rules, then the Services' rdr rules. */
  ghost function RenderLines(cfg: Config, eps: Endpoints, services: Services, vm: map<string, string>): seq<Line>
    requires ServicesOk(services)
  {
    [Comment(HEADER)]
    + AllEndpointLines(cfg, eps, SortedKeys(eps.Keys))
    + ServiceLines(SortedKeys(VmnetIfaces(cfg, eps)), vm, services, SortedKeys(services.Keys))
  }

  /** A map from Pod IP to VM address that some order of walking the endpoints builds. */
  ghost predicate IsVmMap(eps: Endpoints, vm: map<string, string>) {
    && (forall k :: k in eps ==> eps[k].podIP in vm)
    && (forall p :: p in vm ==> exists k :: k in eps && eps[k].podIP == p && eps[k].vmIP == vm[p])
  }

  ghost predicate DistinctPodIPs(eps: Endpoints) {
    forall j, k :: j in eps && k in eps && eps[j].podIP == eps[k].podIP ==> eps[j].vmIP == eps[k].vmIP
  }

  lemma VmMapUnique(eps: Endpoints, a: map<string, string>, b: map<string, string>)
    requires DistinctPodIPs(eps) && IsVmMap(eps, a) && IsVmMap(eps, b)
    ensures a == b
  {
    assert a.Keys == b.Keys;
    forall p | p in a
      ensures a[p] == b[p]
    {
      var j :| j in eps && eps[j].podIP == p && eps[j].vmIP == a[p];
      var k :| k in eps && eps[k].podIP == p && eps[k].vmIP == b[p];
    }
  }

  ghost predicate IsRendering(cfg: Config, eps: Endpoints, services: Services, text: string) {
    ServicesOk(services) && exists vm :: IsVmMap(eps, vm) && text == AnchorText(RenderLines(cfg, eps, services, vm))
  }

  /** With distinct Pod IPs, one state has one rendering. */
  lemma RenderingUnique(cfg: Config, eps: Endpoints, services: Services, a: string, b: string)
    requires DistinctPodIPs(eps) && IsRendering(cfg, eps, services, a) && IsRendering(cfg, eps, services, b)
    ensures a == b
  {
    var va :| IsVmMap(eps, va) && a == AnchorText(RenderLines(cfg, eps, services, va));
    var vb :| IsVmMap(eps, vb) && b == AnchorText(RenderLines(cfg, eps, services, vb));
    VmMapUnique(eps, va, vb);
  }

  /* ---- the state machine ---- */

  /** What the router believes (the two maps) and what pf runs (`loaded`, rendered from `good`). */
  datatype State = State(
    started: bool, endpoints: Endpoints, services: Services,
    loaded: string, good: Option<(Endpoints, Services)>, dirty: bool)

  /** The host's answers to one operation, and the walk order its Pod-IP map came from. */
  datatype Env = Env(
    sysctlOk: bool, pfOk: bool, routeOk: bool, resolved: Option<string>, epRouteOk: bool, loadOk: bool, flushOk: bool,
    vm: map<string, string>)

  datatype Op =
    | Start
    | Attach(ep: Endpoint)
    | Detach(key: string)
    | AttachService(key: string, rules: seq<ServiceRule>)
    | DetachService(key: string)
    | Stop

  /** `loadAnchorLocked`. */
  ghost function Loaded(cfg: Config, s: State, env: Env): (r: (State, bool))
    requires ServicesOk(s.services)
  {
    if env.loadOk then
      (s.(loaded := AnchorText(RenderLines(cfg, s.endpoints, s.services, env.vm)),
          good := Some((s.endpoints, s.services)), dirty := false), true)
    else (s.(dirty := true), false)
  }

  function Resolved(cfg: Config, ep: Endpoint, env: Env): Endpoint {
    if ep.iface != "" then ep
    else if env.resolved.Some? && env.resolved.value != "" then ep.(iface := env.resolved.value)
    else ep.(iface := cfg.iface)
  }

  function Kept(rules: seq<ServiceRule>): seq<ServiceRule> {
    if rules == [] then []
    else
      var rest := Kept(rules[..|rules| - 1]);
      if rules[|rules| - 1].backends == [] then rest else rest + [rules[|rules| - 1]]
  }

  lemma {:induction false} KeptMembers(rules: seq<ServiceRule>)
    ensures forall r :: r in Kept(rules) <==> r in rules && r.backends != []
  {
    if rules != [] {
      KeptMembers(rules[..|rules| - 1]);
      assert rules == rules[..|rules| - 1] + [rules[|rules| - 1]];
    }
  }

  lemma KeptPorts(t: Parser, rules: seq<ServiceRule>)
    requires forall i :: 0 <= i < |rules| ==> RuleValid(t, rules[i])
    ensures PortsOk(Kept(rules)) && forall i :: 0 <= i < |Kept(rules)| ==> RuleValid(t, Kept(rules)[i]) && Kept(rules)[i].backends != []
  {
    KeptMembers(rules);
    forall i | 0 <= i < |Kept(rules)|
      ensures RuleValid(t, Kept(rules)[i]) && Kept(rules)[i].backends != []
    {
      assert Kept(rules)[i] in rules;
    }
  }

  predicate AllValid(t: Parser, rules: seq<ServiceRule>) { forall i :: 0 <= i < |rules| ==> RuleValid(t, rules[i]) }

  function WithService(services: Services, key: string, kept: seq<ServiceRule>): Services {
    if kept == [] then services - {key} else services[key := kept]
  }

  ghost function AttachStep(t: Parser, cfg: Config, s: State, ep: Endpoint, env: Env): (r: (State, bool))
    requires ServicesOk(s.services)
  {
    if !EndpointValid(t, ep) || !s.started || !env.routeOk || !env.epRouteOk then (s, false)
    else Loaded(cfg, s.(endpoints := s.endpoints[ep.key := Resolved(cfg, ep, env)]), env)
  }

  /** Detaching an unknown key is a no-op that reports success. */
  ghost function DetachStep(cfg: Config, s: State, key: string, env: Env): (r: (State, bool))
    requires ServicesOk(s.services)
  {
    if key !in s.endpoints then (s, true)
    else
      var u := s.(endpoints := s.endpoints - {key});
      if !s.started then (u, true) else Loaded(cfg, u, env)
  }

  /** Each operation: the new state, and whether it returned nil. */
  ghost function Apply(t: Parser, cfg: Config, s: State, op: Op, env: Env): (r: (State, bool))
    requires ServicesOk(s.services)
  {
    match op
    case Start =>
      if cfg.iface == "" || (cfg.forwarding && !env.sysctlOk) || !env.pfOk || !env.routeOk then (s, false)
      else Loaded(cfg, s.(started := true), env)
    case Attach(ep) => AttachStep(t, cfg, s, ep, env)
    case Detach(key) => DetachStep(cfg, s, key, env)
    case AttachService(key, rules) =>
      if key == "" || !AllValid(t, rules) || !s.started then (s, false)
      else
        KeptPorts(t, rules);
        Loaded(cfg, s.(services := WithService(s.services, key, Kept(rules))), env)
    case DetachService(key) =>
      if key !in s.services then (s, true)
      else
        var u := s.(services := s.services - {key});
        if !s.started then (u, true) else Loaded(cfg, u, env)
    case Stop =>
      var u := s.(endpoints := map[], services := map[]);
      if !s.started then (u, true)
      else (if env.flushOk then u.(started := false, loaded := "", good := None) else u.(started := false), true)
  }

  /** The walk order belongs to the endpoints the load renders. */
  ghost predicate EnvOk(t: Parser, cfg: Config, s: State, op: Op, env: Env)
    requires ServicesOk(s.services)
  {
    IsVmMap(Apply(t, cfg, s, op, env).0.endpoints, env.vm)
  }

  /** The loaded anchor renders the state of the latest successful load, which is the current one unless a load failed since. */
  ghost predicate Inv(cfg: Config, s: State) {
    && ServicesOk(s.services)
    && (s.good.Some? ==> IsRendering(cfg, s.good.value.0, s.good.value.1, s.loaded))
    && (s.started && !s.dirty ==> s.good == Some((s.endpoints, s.services)))
    && (forall k :: k in s.endpoints ==> s.endpoints[k].key == k)
  }

  lemma LoadedInv(cfg: Config, s: State, env: Env)
    requires ServicesOk(s.services) && (s.good.Some? ==> IsRendering(cfg, s.good.value.0, s.good.value.1, s.loaded))
    requires forall k :: k in s.endpoints ==> s.endpoints[k].key == k
    requires IsVmMap(s.endpoints, env.vm)
    ensures Inv(cfg, Loaded(cfg, s, env).0)
  {
  }

  lemma AttachInv(t: Parser, cfg: Config, s: State, ep: Endpoint, env: Env)
    requires Inv(cfg, s) && EnvOk(t, cfg, s, Attach(ep), env)
    ensures Inv(cfg, Apply(t, cfg, s, Attach(ep), env).0)
  {
    if EndpointValid(t, ep) && s.started && env.routeOk && env.epRouteOk {
      LoadedInv(cfg, s.(endpoints := s.endpoints[ep.key := Resolved(cfg, ep, env)]), env);
    }
  }

  lemma DetachInv(t: Parser, cfg: Config, s: State, key: string, env: Env)
    requires Inv(cfg, s) && EnvOk(t, cfg, s, Detach(key), env)
    ensures Inv(cfg, Apply(t, cfg, s, Detach(key), env).0)
  {
    if key in s.endpoints && s.started {
      LoadedInv(cfg, s.(endpoints := s.endpoints - {key}), env);
    }
  }

  lemma ServiceInv(t: Parser, cfg: Config, s: State, op: Op, env: Env)
    requires Inv(cfg, s) && EnvOk(t, cfg, s, op, env) && (op.AttachService? || op.DetachService?)
    ensures Inv(cfg, Apply(t, cfg, s, op, env).0)
  {
    if op.DetachService? {
      LoadedInv(cfg, s.(services := s.services - {op.key}), env);
    } else if AllValid(t, op.rules) {
      KeptPorts(t, op.rules);
      LoadedInv(cfg, s.(services := WithService(s.services, op.key, Kept(op.rules))), env);
    }
  }

  /** Every operation keeps the anchor a rendering of the latest successfully loaded state. */
  lemma ApplyInv(t: Parser, cfg: Config, s: State, op: Op, env: Env)
    requires Inv(cfg, s) && EnvOk(t, cfg, s, op, env)
    ensures Inv(cfg, Apply(t, cfg, s, op, env).0)
  {
    match op
    case Start => LoadedInv(cfg, s.(started := true), env);
    case Attach(ep) => AttachInv(t, cfg, s, ep, env);
    case Detach(key) => DetachInv(t, cfg, s, key, env);
    case AttachService(_, _) => ServiceInv(t, cfg, s, op, env);
    case DetachService(_) => ServiceInv(t, cfg, s, op, env);
    case Stop =>
  }

  /* ---- runs ---- */

  ghost predicate Legal(t: Parser, cfg: Config, s: State, run: seq<(Op, Env)>)
    decreases |run|
  {
    run == [] ||
    (ServicesOk(s.services) && EnvOk(t, cfg, s, run[0].0, run[0].1) && Legal(t, cfg, Apply(t, cfg, s, run[0].0, run[0].1).0, run[1..]))
  }

  ghost function After(t: Parser, cfg: Config, s: State, run: seq<(Op, Env)>): State
    requires Legal(t, cfg, s, run)
    decreases |run|
  {
    if run == [] then s else After(t, cfg, Apply(t, cfg, s, run[0].0, run[0].1).0, run[1..])
  }

  const FRESH := State(false, map[], map[], "", None, false)

  lemma {:induction false} RunInv(t: Parser, cfg: Config, s: State, run: seq<(Op, Env)>)
    requires Inv(cfg, s) && Legal(t, cfg, s, run)
    ensures Inv(cfg, After(t, cfg, s, run))
    decreases |run|
  {
    if run != [] {
      ApplyInv(t, cfg, s, run[0].0, run[0].1);
      RunInv(t, cfg, Apply(t, cfg, s, run[0].0, run[0].1).0, run[1..]);
    }
  }

  /**
   * In every run, what pf has loaded is the rendering of the router's maps as they stood at the latest successful
   * load; as long as the latest load succeeded, of the maps as they stand.
   */
  lemma AnchorTracksState(t: Parser, cfg: Config, run: seq<(Op, Env)>)
    requires Legal(t, cfg, FRESH, run)
    ensures var s := After(t, cfg, FRESH, run);
            && (s.good.Some? ==> IsRendering(cfg, s.good.value.0, s.good.value.1, s.loaded))
            && (s.started && !s.dirty ==> IsRendering(cfg, s.endpoints, s.services, s.loaded))
  {
    RunInv(t, cfg, FRESH, run);
  }

  lemma DetachRenders(cfg: Config, s: State, key: string, env: Env)
    requires ServicesOk(s.services) && s.started && key in s.endpoints && env.loadOk
    requires IsVmMap(s.endpoints - {key}, env.vm)
    ensures var u := DetachStep(cfg, s, key, env).0;
            && u == s.(endpoints := s.endpoints - {key}, loaded := u.loaded,
                       good := Some((s.endpoints - {key}, s.services)), dirty := false)
            && IsRendering(cfg, s.endpoints - {key}, s.services, u.loaded)
  {
  }

  lemma DetachRestores(cfg: Config, s: State, u: State, key: string, env: Env)
    requires ServicesOk(s.services) && IsRendering(cfg, s.endpoints, s.services, s.loaded) && DistinctPodIPs(s.endpoints)
    requires s.started && !s.dirty && s.good == Some((s.endpoints, s.services)) && env.loadOk && IsVmMap(s.endpoints, env.vm)
    requires key in u.endpoints && u.endpoints - {key} == s.endpoints
    requires u == s.(endpoints := u.endpoints, loaded := u.loaded, good := u.good)
    ensures DetachStep(cfg, u, key, env) == (s, true)
  {
    DetachRenders(cfg, u, key, env);
    RenderingUnique(cfg, s.endpoints, s.services, s.loaded, DetachStep(cfg, u, key, env).0.loaded);
  }

  /** Attaching a fresh key and detaching it again restores the previous state and ruleset exactly. */
  lemma AttachDetachRestores(t: Parser, cfg: Config, s: State, ep: Endpoint, e1: Env, e2: Env)
    requires Inv(cfg, s) && s.started && !s.dirty && DistinctPodIPs(s.endpoints) && ep.key !in s.endpoints
    requires EndpointValid(t, ep) && e1.routeOk && e1.epRouteOk && e1.loadOk && e2.loadOk && IsVmMap(s.endpoints, e2.vm)
    ensures DetachStep(cfg, AttachStep(t, cfg, s, ep, e1).0, ep.key, e2) == (s, true)
  {
    var u := AttachStep(t, cfg, s, ep, e1).0;
    UpdateRemove(s.endpoints, ep.key, Resolved(cfg, ep, e1));
    DetachRestores(cfg, s, u, ep.key, e2);
  }

  /**
   * Retrying a Detach whose load failed reports success without a load: the anchor is left as it was, rendering
   * maps that still hold the endpoint.
   */
  lemma DetachRetryLeavesAnchor(t: Parser, cfg: Config, s: State, key: string, e1: Env, e2: Env)
    requires Inv(cfg, s) && s.started && !s.dirty && key in s.endpoints && !e1.loadOk
    ensures var (u, ok1) := Apply(t, cfg, s, Detach(key), e1);
            var (v, ok2) := Apply(t, cfg, u, Detach(key), e2);
            && !ok1 && ok2 && v == u && v.loaded == s.loaded && v.dirty && key !in v.endpoints
            && v.good.Some? && key in v.good.value.0
  {
  }

  predicate Reloads(s: State, op: Op) {
    match op
    case Detach(k) => k in s.endpoints
    case DetachService(k) => k in s.services
    case _ => true
  }

  /**
   * A nil return leaves the anchor the rendering of the maps if and only if it was that before or this call loaded it.
   */
  lemma NilMeansSyncedIff(t: Parser, cfg: Config, s: State, op: Op, env: Env)
    requires Inv(cfg, s) && EnvOk(t, cfg, s, op, env) && s.started && !op.Stop? && Apply(t, cfg, s, op, env).1
    ensures var u := Apply(t, cfg, s, op, env).0;
            IsRendering(cfg, u.endpoints, u.services, u.loaded) <==>
            Reloads(s, op) || IsRendering(cfg, s.endpoints, s.services, s.loaded)
  {
    var u := Apply(t, cfg, s, op, env).0;
    ApplyInv(t, cfg, s, op, env);
    if Reloads(s, op) {
      NilLoaded(t, cfg, s, op, env);
    } else {
      assert u == s;
    }
  }

  lemma NilLoaded(t: Parser, cfg: Config, s: State, op: Op, env: Env)
    requires ServicesOk(s.services) && s.started && !op.Stop? && Apply(t, cfg, s, op, env).1 && Reloads(s, op)
    ensures var u := Apply(t, cfg, s, op, env).0; u.started && !u.dirty && u.good == Some((u.endpoints, u.services))
  {
  }
}
