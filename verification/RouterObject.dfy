/** The router as an object: the loops that render the anchor, and the operations that update it in place. */
module RouterObject {
  import opened Common
  import opened Text
  import opened Numbers
  import opened Helper
  import opened Anchor
  import opened PodNet

  lemma {:induction false} UnlinesAppend(a: seq<string>, b: seq<string>)
    ensures Unlines(a + b) == Unlines(a) + Unlines(b)
  {
    if a == [] {
      assert a + b == b;
    } else {
      assert (a + b)[1..] == a[1..] + b;
      UnlinesAppend(a[1..], b);
    }
  }

  lemma TextAppend(a: seq<Line>, b: seq<Line>)
    ensures AnchorText(a + b) == AnchorText(a) + AnchorText(b)
  {
    assert Texts(a + b) == Texts(a) + Texts(b);
    UnlinesAppend(Texts(a), Texts(b));
  }

  lemma TextOne(l: Line)
    ensures AnchorText([l]) == LineText(l) + "\n"
  {
    assert Texts([l]) == [LineText(l)];
    assert Unlines([LineText(l)]) == LineText(l) + "\n" + Unlines([]);
  }

  /** One line per element, written one after the other. */
  method WriteLines(lines: seq<Line>) returns (text: string)
    ensures text == AnchorText(lines)
  {
    text := "";
    for i := 0 to |lines|
      invariant text == AnchorText(lines[..i])
    {
      assert lines[..i + 1] == lines[..i] + [lines[i]];
      TextAppend(lines[..i], [lines[i]]);
      TextOne(lines[i]);
      text := text + LineText(lines[i]) + "\n";
    }
    assert lines[..|lines|] == lines;
  }

  /** `endpointBinatInterfaces`: the Pod's own interface or the default, and the mesh, without repeats or blanks. */
  method EndpointBinatInterfaces(cfg: Config, ep: Endpoint) returns (ifaces: seq<string>)
    ensures ifaces == SortedKeys(BinatIfaces(cfg, ep))
  {
    var seen: set<string> := {};
    if ep.iface != "" {
      seen := seen + {ep.iface};
    }
    if ep.iface == "" && cfg.iface != "" {
      seen := seen + {cfg.iface};
    }
    if cfg.mesh != "" {
      seen := seen + {cfg.mesh};
    }
    assert seen == BinatIfaces(cfg, ep);
    ifaces := CollectSorted(seen);
  }

  /** The comment of an endpoint and one binat rule per interface. */
  method WriteEndpoint(ifaces: seq<string>, ep: Endpoint) returns (text: string)
    ensures text == AnchorText([Comment(ep.key)] + BinatLines(ifaces, ep))
  {
    var head := [Comment(ep.key)];
    text := LineText(Comment(ep.key)) + "\n";
    TextOne(Comment(ep.key));
    assert head + BinatLines(ifaces, ep)[..0] == head;
    for i := 0 to |ifaces|
      invariant text == AnchorText(head + BinatLines(ifaces, ep)[..i])
    {
      var rule := Binat(ifaces[i], ep.vmIP, ep.podIP);
      assert head + BinatLines(ifaces, ep)[..i + 1] == head + BinatLines(ifaces, ep)[..i] + [rule];
      TextAppend(head + BinatLines(ifaces, ep)[..i], [rule]);
      TextOne(rule);
      text := text + LineText(rule) + "\n";
    }
    assert BinatLines(ifaces, ep)[..|ifaces|] == BinatLines(ifaces, ep);
  }

  lemma AnchorSnoc(head: seq<Line>, cfg: Config, eps: Endpoints, keys: seq<string>, i: nat)
    requires i < |keys| && forall j :: 0 <= j < |keys| ==> keys[j] in eps
    ensures AnchorText(head + AllEndpointLines(cfg, eps, keys[..i + 1])) ==
            AnchorText(head + AllEndpointLines(cfg, eps, keys[..i])) + AnchorText(EndpointLines(cfg, eps[keys[i]]))
  {
    var a, b := AllEndpointLines(cfg, eps, keys[..i]), EndpointLines(cfg, eps[keys[i]]);
    assert keys[..i + 1][..i] == keys[..i];
    assert head + (a + b) == head + a + b;
    TextAppend(head + a, b);
  }

  method RenderAnchor(cfg: Config, eps: Endpoints, keys: seq<string>) returns (text: string)
    requires forall i :: 0 <= i < |keys| ==> keys[i] in eps
    ensures text == AnchorText([Comment(HEADER)] + AllEndpointLines(cfg, eps, keys))
  {
    text := WriteLines([Comment(HEADER)]);
    assert [Comment(HEADER)] + AllEndpointLines(cfg, eps, keys[..0]) == [Comment(HEADER)];
    for i := 0 to |keys|
      invariant text == AnchorText([Comment(HEADER)] + AllEndpointLines(cfg, eps, keys[..i]))
    {
      var ep := eps[keys[i]];
      var ifaces := EndpointBinatInterfaces(cfg, ep);
      var own := WriteEndpoint(ifaces, ep);
      AnchorSnoc([Comment(HEADER)], cfg, eps, keys, i);
      text := text + own;
    }
    assert keys[..|keys|] == keys;
  }

  method RenderRules(ifaces: seq<string>, vm: map<string, string>, rs: seq<ServiceRule>) returns (text: string)
    requires PortsOk(rs)
    ensures text == AnchorText(RulesLines(ifaces, vm, rs))
  {
    text := "";
    for i := 0 to |rs|
      invariant text == AnchorText(RulesLines(ifaces, vm, rs[..i]))
    {
      var own := WriteLines(RuleLines(ifaces, vm, rs[i]));
      assert rs[..i + 1][..i] == rs[..i];
      TextAppend(RulesLines(ifaces, vm, rs[..i]), RuleLines(ifaces, vm, rs[i]));
      text := text + own;
    }
    assert rs[..|rs|] == rs;
  }

  lemma ServicesSnoc(ifaces: seq<string>, vm: map<string, string>, services: Services, keys: seq<string>, i: nat)
    requires ServicesOk(services) && i < |keys| && ifaces != [] && forall j :: 0 <= j < |keys| ==> keys[j] in services
    ensures PortsOk(SortRules(services[keys[i]]))
    ensures AnchorText(ServiceLines(ifaces, vm, services, keys[..i + 1])) ==
            AnchorText(ServiceLines(ifaces, vm, services, keys[..i])) + AnchorText(RulesLines(ifaces, vm, SortRules(services[keys[i]])))
  {
    SortRulesPorts(services[keys[i]]);
    var front, rules := keys[..i], RulesLines(ifaces, vm, SortRules(services[keys[i]]));
    assert keys[..i + 1][..i] == front;
    TextAppend(ServiceLines(ifaces, vm, services, front), rules);
  }

  method RenderServiceRules(ifaces: seq<string>, vm: map<string, string>, services: Services, keys: seq<string>)
    returns (text: string)
    requires ServicesOk(services) && forall i :: 0 <= i < |keys| ==> keys[i] in services
    ensures text == AnchorText(ServiceLines(ifaces, vm, services, keys))
  {
    text := "";
    if |ifaces| == 0 {
      return;
    }
    for i := 0 to |keys|
      invariant text == AnchorText(ServiceLines(ifaces, vm, services, keys[..i]))
    {
      SortRulesPorts(services[keys[i]]);
      var own := RenderRules(ifaces, vm, SortRules(services[keys[i]]));
      ServicesSnoc(ifaces, vm, services, keys, i);
      text := text + own;
    }
    assert keys[..|keys|] == keys;
  }

  /** Walk the endpoints in any order; a later one overwrites an earlier one with the same Pod IP. */
  method VmByPodIP(eps: Endpoints) returns (vm: map<string, string>)
    ensures IsVmMap(eps, vm)
  {
    vm := map[];
    var rest := eps.Keys;
    while rest != {}
      invariant rest <= eps.Keys
      invariant forall k :: k in eps && k !in rest ==> eps[k].podIP in vm
      invariant forall p :: p in vm ==> exists k :: k in eps && eps[k].podIP == p && eps[k].vmIP == vm[p]
      decreases rest
    {
      var k :| k in rest;
      vm := vm[eps[k].podIP := eps[k].vmIP];
      rest := rest - {k};
    }
  }

  /** Some walk order explains the transition. */
  ghost predicate Does(t: Parser, cfg: Config, s: State, op: Op, env: Env, u: State, ok: bool) {
    && ServicesOk(s.services)
    && exists vm :: EnvOk(t, cfg, s, op, env.(vm := vm)) && Apply(t, cfg, s, op, env.(vm := vm)) == (u, ok)
  }

  /** Some walk order explains a load. */
  ghost predicate Loads(cfg: Config, s: State, env: Env, u: State, ok: bool) {
    && ServicesOk(s.services)
    && exists vm :: IsVmMap(s.endpoints, vm) && Loaded(cfg, s, env.(vm := vm)) == (u, ok)
  }

  class Router {
    const parser: Parser
    const cfg: Config
    var started: bool
    var endpoints: Endpoints
    var services: Services
    var loaded: string
    ghost var good: Option<(Endpoints, Services)>
    ghost var dirty: bool

    ghost function Abstract(): State
      reads this
    {
      State(started, endpoints, services, loaded, good, dirty)
    }

    ghost predicate Valid()
      reads this
    {
      Inv(cfg, Abstract())
    }

    constructor (parser: Parser, cfg: Config)
      ensures Valid() && Abstract() == FRESH && this.parser == parser && this.cfg == cfg
    {
      this.parser := parser;
      this.cfg := cfg;
      started, endpoints, services, loaded := false, map[], map[], "";
      good, dirty := None, false;
    }

    /** `loadAnchorLocked`: render both halves and hand them to pf, which takes them or leaves them. */
    method Load(env: Env) returns (ok: bool)
      requires ServicesOk(services)
      modifies this
      ensures Loads(cfg, old(Abstract()), env, Abstract(), ok)
    {
      var keys := CollectSorted(endpoints.Keys);
      var text := RenderAnchor(cfg, endpoints, keys);
      var ifaces := CollectSorted(VmnetIfaces(cfg, endpoints));
      var vm := VmByPodIP(endpoints);
      var names := CollectSorted(services.Keys);
      var rules := RenderServiceRules(ifaces, vm, services, names);
      TextAppend([Comment(HEADER)] + AllEndpointLines(cfg, endpoints, keys), ServiceLines(ifaces, vm, services, names));
      if env.loadOk {
        loaded := text + rules;
        good, dirty := Some((endpoints, services)), false;
      } else {
        dirty := true;
      }
      ok := env.loadOk;
      assert Loaded(cfg, old(Abstract()), env.(vm := vm)) == (Abstract(), ok);
    }

    method Start(env: Env) returns (ok: bool)
      requires Valid()
      modifies this
      ensures Does(parser, cfg, old(Abstract()), Op.Start, env, Abstract(), ok)
    {
      if cfg.iface == "" || (cfg.forwarding && !env.sysctlOk) || !env.pfOk || !env.routeOk {
        Quiet(parser, cfg, Abstract(), Op.Start, env, Abstract(), false);
        return false;
      }
      started := true;
      ok := Load(env);
      Loud(parser, cfg, old(Abstract()), Op.Start, old(Abstract()).(started := true), env, Abstract(), ok);
    }

    method Attach(ep: Endpoint, env: Env) returns (ok: bool)
      requires Valid()
      modifies this
      ensures Does(parser, cfg, old(Abstract()), Op.Attach(ep), env, Abstract(), ok)
    {
      var valid := ValidateEndpoint(ep);
      if !valid || !started || !env.routeOk || !env.epRouteOk {
        Quiet(parser, cfg, Abstract(), Op.Attach(ep), env, Abstract(), false);
        return false;
      }
      var bound := ep;
      if bound.iface == "" && env.resolved.Some? && env.resolved.value != "" {
        bound := bound.(iface := env.resolved.value);
      }
      if bound.iface == "" {
        bound := bound.(iface := cfg.iface);
      }
      assert bound == Resolved(cfg, ep, env);
      endpoints := endpoints[ep.key := bound];
      ok := Load(env);
      AttachLoud(parser, cfg, old(Abstract()), ep, env, Abstract(), ok);
    }

    method Detach(key: string, env: Env) returns (ok: bool)
      requires Valid()
      modifies this
      ensures Does(parser, cfg, old(Abstract()), Op.Detach(key), env, Abstract(), ok)
    {
      if key !in endpoints {
        DetachQuiet(parser, cfg, Abstract(), key, env);
        return true;
      }
      endpoints := endpoints - {key};
      if !started {
        DetachQuiet(parser, cfg, old(Abstract()), key, env);
        return true;
      }
      ok := Load(env);
      DetachLoud(parser, cfg, old(Abstract()), key, env, Abstract(), ok);
    }

    method AttachService(key: string, rules: seq<ServiceRule>, env: Env) returns (ok: bool)
      requires Valid()
      modifies this
      ensures Does(parser, cfg, old(Abstract()), Op.AttachService(key, rules), env, Abstract(), ok)
    {
      if key == "" {
        Quiet(parser, cfg, Abstract(), Op.AttachService(key, rules), env, Abstract(), false);
        return false;
      }
      var valid, kept := KeepRules(rules);
      if !valid || !started {
        Quiet(parser, cfg, Abstract(), Op.AttachService(key, rules), env, Abstract(), false);
        return false;
      }
      KeptPorts(parser, rules);
      if |kept| == 0 {
        services := services - {key};
      } else {
        services := services[key := kept];
      }
      ok := Load(env);
      AttachServiceLoud(parser, cfg, old(Abstract()), key, rules, env, Abstract(), ok);
    }

    /** Validate every rule and keep the ones with backends. */
    method ValidateRule(r: ServiceRule) returns (ok: bool)
      ensures ok == RuleValid(parser, r)
    {
      if r.key == "" || parser.ip(r.clusterIP).None? || (r.proto != "tcp" && r.proto != "udp") {
        return false;
      }
      if r.port < 1 || r.port > 65535 || r.targetPort < 1 || r.targetPort > 65535 {
        return false;
      }
      for i := 0 to |r.backends|
        invariant forall j :: 0 <= j < i ==> parser.ip(r.backends[j]).Some?
      {
        if parser.ip(r.backends[i]).None? {
          return false;
        }
      }
      return true;
    }

    method ValidateEndpoint(e: Endpoint) returns (ok: bool)
      ensures ok == EndpointValid(parser, e)
    {
      if e.key == "" || parser.ip(e.podIP).None? || parser.ip(e.vmIP).None? {
        return false;
      }
      return e.iface == "" || TrimSpace(e.iface) == e.iface;
    }

    method KeepRules(rules: seq<ServiceRule>) returns (valid: bool, kept: seq<ServiceRule>)
      ensures valid == AllValid(parser, rules)
      ensures valid ==> kept == Kept(rules)
    {
      kept := [];
      for i := 0 to |rules|
        invariant AllValid(parser, rules[..i]) && kept == Kept(rules[..i])
      {
        assert rules[..i + 1][..i] == rules[..i];
        var ok := ValidateRule(rules[i]);
        if !ok {
          return false, [];
        }
        if |rules[i].backends| != 0 {
          kept := kept + [rules[i]];
        }
      }
      assert rules[..|rules|] == rules;
      valid := true;
    }

    method DetachService(key: string, env: Env) returns (ok: bool)
      requires Valid()
      modifies this
      ensures Does(parser, cfg, old(Abstract()), Op.DetachService(key), env, Abstract(), ok)
    {
      if key !in services {
        DetachServiceQuiet(parser, cfg, Abstract(), key, env);
        return true;
      }
      services := services - {key};
      if !started {
        DetachServiceQuiet(parser, cfg, old(Abstract()), key, env);
        return true;
      }
      ok := Load(env);
      DetachServiceLoud(parser, cfg, old(Abstract()), key, env, Abstract(), ok);
    }

    method Stop(env: Env)
      requires Valid()
      modifies this
      ensures Does(parser, cfg, old(Abstract()), Op.Stop, env, Abstract(), true)
    {
      endpoints, services := map[], map[];
      if started {
        if env.flushOk {
          loaded := "";
          good := None;
        }
        started := false;
      }
      Quiet(parser, cfg, old(Abstract()), Op.Stop, env, Abstract(), true);
    }
  }

  ghost function SomeVmMap(eps: Endpoints): (vm: map<string, string>)
    ensures IsVmMap(eps, vm)
  {
    var pods := set k | k in eps :: eps[k].podIP;
    map p | p in pods :: eps[OwnerOf(eps, p)].vmIP
  }

  ghost function OwnerOf(eps: Endpoints, p: string): (k: string)
    requires exists k :: k in eps && eps[k].podIP == p
    ensures k in eps && eps[k].podIP == p
  {
    var k :| k in eps && eps[k].podIP == p;
    k
  }

  /** An operation that does not load is explained by any walk. */
  lemma Quiet(t: Parser, cfg: Config, s: State, op: Op, env: Env, u: State, ok: bool)
    requires ServicesOk(s.services)
    requires forall vm :: Apply(t, cfg, s, op, env.(vm := vm)) == (u, ok)
    ensures Does(t, cfg, s, op, env, u, ok)
  {
    var vm := SomeVmMap(u.endpoints);
    assert Apply(t, cfg, s, op, env.(vm := vm)) == (u, ok);
  }

  /** An operation that comes down to loading the state `mid` is explained by the walk that explains the load. */
  lemma Loud(t: Parser, cfg: Config, s: State, op: Op, mid: State, env: Env, u: State, ok: bool)
    requires ServicesOk(s.services) && Loads(cfg, mid, env, u, ok)
    requires forall vm :: Apply(t, cfg, s, op, env.(vm := vm)) == Loaded(cfg, mid, env.(vm := vm))
    ensures Does(t, cfg, s, op, env, u, ok)
  {
    var vm :| IsVmMap(mid.endpoints, vm) && Loaded(cfg, mid, env.(vm := vm)) == (u, ok);
    assert Apply(t, cfg, s, op, env.(vm := vm)) == (u, ok);
    assert u.endpoints == mid.endpoints;
  }

  lemma AttachLoud(t: Parser, cfg: Config, s: State, ep: Endpoint, env: Env, u: State, ok: bool)
    requires ServicesOk(s.services) && EndpointValid(t, ep) && s.started && env.routeOk && env.epRouteOk
    requires Loads(cfg, s.(endpoints := s.endpoints[ep.key := Resolved(cfg, ep, env)]), env, u, ok)
    ensures Does(t, cfg, s, Op.Attach(ep), env, u, ok)
  {
    Loud(t, cfg, s, Op.Attach(ep), s.(endpoints := s.endpoints[ep.key := Resolved(cfg, ep, env)]), env, u, ok);
  }

  lemma DetachLoud(t: Parser, cfg: Config, s: State, key: string, env: Env, u: State, ok: bool)
    requires ServicesOk(s.services) && key in s.endpoints && s.started
    requires Loads(cfg, s.(endpoints := s.endpoints - {key}), env, u, ok)
    ensures Does(t, cfg, s, Op.Detach(key), env, u, ok)
  {
    Loud(t, cfg, s, Op.Detach(key), s.(endpoints := s.endpoints - {key}), env, u, ok);
  }

  lemma DetachQuiet(t: Parser, cfg: Config, s: State, key: string, env: Env)
    requires ServicesOk(s.services) && (key !in s.endpoints || !s.started)
    ensures Does(t, cfg, s, Op.Detach(key), env,
                 if key in s.endpoints then s.(endpoints := s.endpoints - {key}) else s, true)
  {
    Quiet(t, cfg, s, Op.Detach(key), env, if key in s.endpoints then s.(endpoints := s.endpoints - {key}) else s, true);
  }

  lemma DetachServiceLoud(t: Parser, cfg: Config, s: State, key: string, env: Env, u: State, ok: bool)
    requires ServicesOk(s.services) && key in s.services && s.started
    requires Loads(cfg, s.(services := s.services - {key}), env, u, ok)
    ensures Does(t, cfg, s, Op.DetachService(key), env, u, ok)
  {
    Loud(t, cfg, s, Op.DetachService(key), s.(services := s.services - {key}), env, u, ok);
  }

  lemma DetachServiceQuiet(t: Parser, cfg: Config, s: State, key: string, env: Env)
    requires ServicesOk(s.services) && (key !in s.services || !s.started)
    ensures Does(t, cfg, s, Op.DetachService(key), env,
                 if key in s.services then s.(services := s.services - {key}) else s, true)
  {
    Quiet(t, cfg, s, Op.DetachService(key), env,
          if key in s.services then s.(services := s.services - {key}) else s, true);
  }

  lemma AttachServiceLoud(t: Parser, cfg: Config, s: State, key: string, rules: seq<ServiceRule>, env: Env, u: State, ok: bool)
    requires ServicesOk(s.services) && key != "" && AllValid(t, rules) && s.started
    requires Loads(cfg, s.(services := WithService(s.services, key, Kept(rules))), env, u, ok)
    ensures Does(t, cfg, s, Op.AttachService(key, rules), env, u, ok)
  {
    Loud(t, cfg, s, Op.AttachService(key, rules),
         s.(services := WithService(s.services, key, Kept(rules))), env, u, ok);
  }
}
