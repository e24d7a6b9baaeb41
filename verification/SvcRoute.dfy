/** From a Service and its EndpointSlices to DNAT rules. */
module SvcRoute {
  import opened Common
  import opened Text
  import opened PodNet

  datatype SvcPort = SvcPort(name: string, proto: string, port: int)

  datatype Service = Service(ns: string, name: string, external: bool, clusterIP: string, ports: seq<SvcPort>)

  datatype SlicePort = SlicePort(name: Option<string>, port: Option<int>)

  datatype SliceEndpoint = SliceEndpoint(ready: Option<bool>, terminating: Option<bool>, addresses: seq<string>)

  datatype Slice = Slice(owner: string, ipv4: bool, endpoints: seq<SliceEndpoint>, ports: seq<SlicePort>)

  /* ---- keys ---- */

  function ServiceKey(ns: string, name: string): string { ns + "/" + name }

  function SplitKey(key: string): (string, string) {
    if '/' !in key then ("", key)
    else if key[0] == '/' then ("", key[1..])
    else
      var (ns, name) := SplitKey(key[1..]);
      ([key[0]] + ns, name)
  }

  lemma {:induction false} SplitJoin(ns: string, name: string)
    requires '/' !in ns
    ensures SplitKey(ServiceKey(ns, name)) == (ns, name)
  {
    var key := ServiceKey(ns, name);
    assert key[|ns|] == '/';
    if ns == "" {
      assert key[0] == '/' && key[1..] == name;
    } else {
      assert key[1..] == ServiceKey(ns[1..], name);
      SplitJoin(ns[1..], name);
      assert [ns[0]] + ns[1..] == ns;
    }
  }

  /** A key with a namespace is the join of its two halves. */
  lemma {:induction false} JoinSplit(key: string)
    requires '/' in key
    ensures var (ns, name) := SplitKey(key); ServiceKey(ns, name) == key && '/' !in ns
  {
    if key[0] == '/' {
      assert key == ServiceKey("", key[1..]);
    } else {
      assert key == [key[0]] + key[1..];
      JoinSplit(key[1..]);
    }
  }

  /* ---- backends ---- */

  /** A missing `Ready` means ready; a terminating endpoint is never a target. */
  predicate Serving(e: SliceEndpoint) { e.ready != Some(false) && e.terminating != Some(true) }

  ghost predicate Backs(slices: seq<Slice>, ip: string) {
    exists i, j :: 0 <= i < |slices| && slices[i].ipv4 && 0 <= j < |slices[i].endpoints|
                   && Serving(slices[i].endpoints[j]) && ip in slices[i].endpoints[j].addresses
  }

  function EndpointIPs(es: seq<SliceEndpoint>): set<string> {
    set j, a | 0 <= j < |es| && Serving(es[j]) && a in es[j].addresses :: a
  }

  function SliceIPs(slices: seq<Slice>): set<string> {
    if slices == [] then {}
    else SliceIPs(slices[..|slices| - 1]) + if slices[|slices| - 1].ipv4 then EndpointIPs(slices[|slices| - 1].endpoints) else {}
  }

  /** The addresses listed are exactly those of serving endpoints in IPv4 slices. */
  lemma {:induction false} SliceIPsExact(slices: seq<Slice>, ip: string)
    ensures ip in SliceIPs(slices) <==> Backs(slices, ip)
  {
    if slices != [] {
      var n := |slices| - 1;
      SliceIPsExact(slices[..n], ip);
      if Backs(slices, ip) {
        var i, j :| 0 <= i < |slices| && slices[i].ipv4 && 0 <= j < |slices[i].endpoints|
                    && Serving(slices[i].endpoints[j]) && ip in slices[i].endpoints[j].addresses;
        assert i < n ==> slices[..n][i] == slices[i];
      }
      if Backs(slices[..n], ip) {
        var i, j :| 0 <= i < n && slices[..n][i].ipv4 && 0 <= j < |slices[..n][i].endpoints|
                    && Serving(slices[..n][i].endpoints[j]) && ip in slices[..n][i].endpoints[j].addresses;
        assert slices[..n][i] == slices[i];
      }
    }
  }

  /** The loop over one slice's endpoints. */
  method CollectIPs(es: seq<SliceEndpoint>, seen: set<string>) returns (out: set<string>)
    ensures out == seen + EndpointIPs(es)
  {
    out := seen;
    for j := 0 to |es|
      invariant out == seen + set k, a | 0 <= k < j && Serving(es[k]) && a in es[k].addresses :: a
    {
      if es[j].ready == Some(false) {
        continue;
      }
      if es[j].terminating == Some(true) {
        continue;
      }
      out := out + set a | a in es[j].addresses;
    }
  }

  /** `readyEndpointIPs`: de-duplicated and sorted. */
  method ReadyEndpointIPs(slices: seq<Slice>) returns (out: seq<string>)
    ensures out == SortedKeys(SliceIPs(slices))
    ensures forall ip :: ip in out <==> Backs(slices, ip)
  {
    var seen: set<string> := {};
    for i := 0 to |slices|
      invariant seen == SliceIPs(slices[..i])
    {
      assert slices[..i + 1][..i] == slices[..i];
      if !slices[i].ipv4 {
        continue;
      }
      seen := CollectIPs(slices[i].endpoints, seen);
    }
    assert slices[..|slices|] == slices;
    out := CollectSorted(seen);
    forall ip
      ensures ip in out <==> Backs(slices, ip)
    {
      SliceIPsExact(slices, ip);
    }
  }

  /* ---- ports ---- */

  function PortName(p: SlicePort): string { if p.name.Some? then p.name.value else "" }

  function AllPorts(slices: seq<Slice>): seq<SlicePort> {
    if slices == [] then [] else AllPorts(slices[..|slices| - 1]) + slices[|slices| - 1].ports
  }

  /** The first numbered port of that name. */
  function FirstPort(ports: seq<SlicePort>, name: string): Option<int> {
    if ports == [] then None
    else
      match FirstPort(ports[..|ports| - 1], name)
      case Some(n) => Some(n)
      case None =>
        var p := ports[|ports| - 1];
        if p.port.Some? && PortName(p) == name then p.port else None
  }

  /** First write wins. */
  method TargetPorts(slices: seq<Slice>) returns (targets: map<string, int>)
    ensures forall name :: Lookup(targets, name) == FirstPort(AllPorts(slices), name)
  {
    targets := map[];
    for i := 0 to |slices|
      invariant forall name :: Lookup(targets, name) == FirstPort(AllPorts(slices[..i]), name)
    {
      ghost var before := AllPorts(slices[..i]);
      var ports := slices[i].ports;
      assert slices[..i + 1][..i] == slices[..i] && before + ports[..0] == before;
      for j := 0 to |ports|
        invariant forall name :: Lookup(targets, name) == FirstPort(before + ports[..j], name)
      {
        var all := before + ports[..j + 1];
        assert all[..|all| - 1] == before + ports[..j];
        if ports[j].port.None? {
          continue;
        }
        var name := PortName(ports[j]);
        if name !in targets {
          targets := targets[name := ports[j].port.value];
        }
      }
      assert ports[..|ports|] == ports;
    }
    assert slices[..|slices|] == slices;
  }

  /* ---- rules ---- */

  function LowerChar(c: char): char { if 'A' <= c <= 'Z' then (c as int + 32) as char else c }

  function Lower(s: string): (r: string)
    ensures |r| == |s|
  {
    seq(|s|, i requires 0 <= i < |s| => LowerChar(s[i]))
  }

  predicate Programmable(svc: Service) { !svc.external && svc.clusterIP != "" && svc.clusterIP != "None" }

  function PortRules(svc: Service, ports: seq<SvcPort>, slicePorts: seq<SlicePort>, ips: seq<string>): seq<ServiceRule> {
    if ports == [] then []
    else
      var rest, sp := PortRules(svc, ports[..|ports| - 1], slicePorts, ips), ports[|ports| - 1];
      if Lower(sp.proto) !in {"tcp", "udp"} then rest
      else
        match FirstPort(slicePorts, sp.name)
        case None => rest
        case Some(target) =>
          rest + [ServiceRule(ServiceKey(svc.ns, svc.name), svc.clusterIP, Lower(sp.proto), sp.port, target, ips)]
  }

  /** `BuildServiceRules` for a Service that exists. */
  ghost function Build(svc: Service, slices: seq<Slice>): seq<ServiceRule> {
    if !Programmable(svc) || SliceIPs(slices) == {} then []
    else PortRules(svc, svc.ports, AllPorts(slices), SortedKeys(SliceIPs(slices)))
  }

  method BuildServiceRules(svc: Service, slices: seq<Slice>) returns (rules: seq<ServiceRule>)
    ensures rules == Build(svc, slices)
  {
    if svc.external || svc.clusterIP == "" || svc.clusterIP == "None" {
      return [];
    }
    var ips := ReadyEndpointIPs(slices);
    if |ips| == 0 {
      assert SliceIPs(slices) == {} by { assert forall ip :: ip in SliceIPs(slices) ==> ip in ips; }
      return [];
    }
    assert ips[0] in SliceIPs(slices);
    var targets := TargetPorts(slices);
    ghost var slicePorts := AllPorts(slices);
    rules := [];
    for i := 0 to |svc.ports|
      invariant rules == PortRules(svc, svc.ports[..i], slicePorts, ips)
    {
      var sp := svc.ports[i];
      assert svc.ports[..i + 1][..i] == svc.ports[..i];
      assert Lookup(targets, sp.name) == FirstPort(slicePorts, sp.name);
      var proto := Lower(sp.proto);
      if proto != "tcp" && proto != "udp" {
        continue;
      }
      if sp.name !in targets {
        continue;
      }
      rules := rules + [ServiceRule(ServiceKey(svc.ns, svc.name), svc.clusterIP, proto, sp.port, targets[sp.name], ips)];
    }
    assert svc.ports[..|svc.ports|] == svc.ports;
  }

  /** What one Service port becomes: a rule if its protocol is known and some slice numbers it. */
  ghost predicate RuleOf(svc: Service, slices: seq<Slice>, sp: SvcPort, r: ServiceRule) {
    && Lower(sp.proto) in {"tcp", "udp"} && FirstPort(AllPorts(slices), sp.name) == Some(r.targetPort)
    && r.key == ServiceKey(svc.ns, svc.name) && r.clusterIP == svc.clusterIP && r.proto == Lower(sp.proto) && r.port == sp.port
    && r.backends == SortedKeys(SliceIPs(slices))
  }

  lemma {:induction false} PortRulesExact(svc: Service, slices: seq<Slice>, ports: seq<SvcPort>, r: ServiceRule)
    ensures r in PortRules(svc, ports, AllPorts(slices), SortedKeys(SliceIPs(slices))) <==>
            exists sp :: sp in ports && RuleOf(svc, slices, sp, r)
  {
    if ports != [] {
      var front, last := ports[..|ports| - 1], ports[|ports| - 1];
      PortRulesExact(svc, slices, front, r);
      assert ports == front + [last];
      assert (exists sp :: sp in ports && RuleOf(svc, slices, sp, r)) <==>
             (exists sp :: sp in front && RuleOf(svc, slices, sp, r)) || RuleOf(svc, slices, last, r);
    }
  }

  /** The rules built are one per known and numbered port of a programmable Service that has a serving backend. */
  lemma BuildExact(svc: Service, slices: seq<Slice>, r: ServiceRule)
    ensures r in Build(svc, slices) <==>
            && !svc.external && svc.clusterIP != "" && svc.clusterIP != "None"
            && (exists ip :: Backs(slices, ip)) && exists sp :: sp in svc.ports && RuleOf(svc, slices, sp, r)
  {
    PortRulesExact(svc, slices, svc.ports, r);
    forall ip
      ensures ip in SliceIPs(slices) <==> Backs(slices, ip)
    {
      SliceIPsExact(slices, ip);
    }
  }

  /* ---- the routable filter ---- */

  function KeepIPs(routable: string -> bool, ips: seq<string>): seq<string> {
    if ips == [] then []
    else KeepIPs(routable, ips[..|ips| - 1]) + if routable(ips[|ips| - 1]) then [ips[|ips| - 1]] else []
  }

  lemma {:induction false} KeepIPsExact(routable: string -> bool, ips: seq<string>, ip: string)
    ensures ip in KeepIPs(routable, ips) <==> ip in ips && routable(ip)
  {
    if ips != [] {
      KeepIPsExact(routable, ips[..|ips| - 1], ip);
      assert ips == ips[..|ips| - 1] + [ips[|ips| - 1]];
    }
  }

  function Filter(filter: Option<string -> bool>, rules: seq<ServiceRule>): seq<ServiceRule> {
    if filter.None? || rules == [] then rules
    else
      var r := rules[|rules| - 1];
      var kept := KeepIPs(filter.value, r.backends);
      Filter(filter, rules[..|rules| - 1]) + if kept == [] then [] else [r.(backends := kept)]
  }

  /** `filterRoutable`. */
  method FilterRoutable(filter: Option<string -> bool>, rules: seq<ServiceRule>) returns (out: seq<ServiceRule>)
    ensures out == Filter(filter, rules)
  {
    if filter.None? || |rules| == 0 {
      return rules;
    }
    out := [];
    for i := 0 to |rules|
      invariant out == Filter(filter, rules[..i])
    {
      assert rules[..i + 1][..i] == rules[..i];
      var r := rules[i];
      var kept := [];
      for j := 0 to |r.backends|
        invariant kept == KeepIPs(filter.value, r.backends[..j])
      {
        assert r.backends[..j + 1][..j] == r.backends[..j];
        if filter.value(r.backends[j]) {
          kept := kept + [r.backends[j]];
        }
      }
      assert r.backends[..|r.backends|] == r.backends;
      if |kept| == 0 {
        continue;
      }
      out := out + [r.(backends := kept)];
    }
    assert rules[..|rules|] == rules;
  }

  /** No rule comes out without a backend, and none with a backend that is not routable. */
  lemma {:induction false} FilterSound(filter: Option<string -> bool>, rules: seq<ServiceRule>, i: nat)
    requires i < |Filter(filter, rules)| && (filter.None? ==> forall j :: 0 <= j < |rules| ==> rules[j].backends != [])
    ensures Filter(filter, rules)[i].backends != []
    ensures filter.Some? ==> forall ip :: ip in Filter(filter, rules)[i].backends ==> filter.value(ip)
    ensures filter.Some? ==> exists r :: r in rules && Filter(filter, rules)[i] == r.(backends := KeepIPs(filter.value, r.backends))
  {
    if filter.Some? && rules != [] {
      var n := |rules| - 1;
      var front := Filter(filter, rules[..n]);
      if i < |front| {
        FilterSound(filter, rules[..n], i);
      } else {
        var r := rules[n];
        assert r in rules && Filter(filter, rules)[i] == r.(backends := KeepIPs(filter.value, r.backends));
        forall ip | ip in KeepIPs(filter.value, r.backends)
          ensures filter.value(ip)
        {
          KeepIPsExact(filter.value, r.backends, ip);
        }
      }
    }
  }

  /** And a rule with a routable backend is not lost. */
  lemma {:induction false} FilterComplete(routable: string -> bool, rules: seq<ServiceRule>, r: ServiceRule, ip: string)
    requires r in rules && ip in r.backends && routable(ip)
    ensures r.(backends := KeepIPs(routable, r.backends)) in Filter(Some(routable), rules)
  {
    KeepIPsExact(routable, r.backends, ip);
    var n := |rules| - 1;
    assert rules == rules[..n] + [rules[n]];
    if r in rules[..n] {
      FilterComplete(routable, rules[..n], r, ip);
    }
  }

  /** So every rule the controller pushes has backends, and the router keeps all of them. */
  lemma PushedHaveBackends(filter: Option<string -> bool>, svc: Service, slices: seq<Slice>)
    ensures var rules := Filter(filter, Build(svc, slices)); forall i :: 0 <= i < |rules| ==> rules[i].backends != []
  {
    var built := Build(svc, slices);
    forall j | 0 <= j < |built|
      ensures built[j].backends != []
    {
      BuildExact(svc, slices, built[j]);
      assert built[j] in built;
      var ip :| Backs(slices, ip);
      SliceIPsExact(slices, ip);
      assert ip in SortedKeys(SliceIPs(slices));
    }
    forall i | 0 <= i < |Filter(filter, built)|
      ensures Filter(filter, built)[i].backends != []
    {
      FilterSound(filter, built, i);
    }
  }

  lemma {:induction false} KeptWhole(rules: seq<ServiceRule>)
    requires forall i :: 0 <= i < |rules| ==> rules[i].backends != []
    ensures Kept(rules) == rules
  {
    if rules != [] {
      KeptWhole(rules[..|rules| - 1]);
      assert rules == rules[..|rules| - 1] + [rules[|rules| - 1]];
    }
  }

  /** Protocols are known in either case, and only these. */
  lemma ProtocolNames()
    ensures Lower("TCP") == "tcp" && Lower("UDP") == "udp" && Lower("tcp") == "tcp" && Lower("udp") == "udp"
    ensures Lower("SCTP") !in {"tcp", "udp"} && Lower("") !in {"tcp", "udp"}
  {
    assert |Lower("SCTP")| == 4 && |Lower("")| == 0;
  }

  /** Only the letters from A to Z change, each to its own small letter. */
  lemma LettersLowered()
    ensures LowerChar('A') == 'a' && LowerChar('Z') == 'z' && LowerChar('@') == '@' && LowerChar('[') == '['
    ensures forall c, d :: 'A' <= c <= 'Z' && 'A' <= d <= 'Z' && LowerChar(c) == LowerChar(d) ==> c == d
  {
  }

  /** A slice port without a name serves the Service port without one. */
  lemma UnnamedPort(n: int, name: string)
    ensures FirstPort([SlicePort(None, Some(n))], name) == if name == "" then Some(n) else None
  {
    assert [SlicePort(None, Some(n))][..0] == [];
  }

  /** The key of a Service is its namespace and name around one slash. */
  lemma KeySpells()
    ensures ServiceKey("default", "web") == "default/web"
  {
  }
}
