/** The commands the router and the mesh run, judged by the helper's policy for the same config. */
module Commands {
  import opened Common
  import opened Net
  import opened Text
  import opened Numbers
  import opened Helper
  import opened WireGuard
  import opened Mesh
  import opened Agreement
  import opened PodNet
  import SvcRoute
  import N = NodeConfig
  import Q = Requests

  /* ---- the router's commands ---- */

  function DropDefault(iface: string): Request {
    Request("route", ["-q", "-n", "delete", "-inet", "default", "-ifscope", iface], "")
  }

  function Resolve(vmIP: string): Request { Request("route", ["-n", "get", vmIP], "") }

  function Load(anchor: string, ruleset: string): Request { Request("pfctl", ["-a", anchor, "-f", "-"], ruleset) }

  function Flush(anchor: string): Request { Request("pfctl", ["-a", anchor, "-F", "all"], "") }

  const FORWARD := Request("sysctl", ["-w", "net.inet.ip.forwarding=1"], "")
  const ENABLE := Request("pfctl", ["-e"], "")

  /** What the router asks of the host: forwarding, pf, its anchor loaded or flushed, a route looked up or dropped. */
  lemma RouterAsks(p: Policy, ruleset: string, vmIP: string, iface: string)
    ensures Load(p.anchor, ruleset) == Q.Ask(p, Q.LoadAnchor(ruleset)) && Flush(p.anchor) == Q.Ask(p, Q.FlushAnchor)
    ensures Resolve(vmIP) == Q.Ask(p, Q.LookUpRoute(vmIP)) && DropDefault(iface) == Q.Ask(p, Q.DropDefault(iface))
    ensures FORWARD == Q.Ask(p, Q.Forwarding(true)) && ENABLE == Q.Ask(p, Q.EnablePf)
  {
  }

  /** The helper lets the router prepare the host and flush, and judges a load by its ruleset alone. */
  lemma RouterCommands(t: Parser, keys: N.Keys, c: N.Node, ruleset: string)
    requires ConfigFits(t, keys, c)
    ensures var p, cfg := N.PolicyOf(t, keys, c).value, N.RouterConfig(c);
            && Helper.Validate(p, t, FORWARD) && Helper.Validate(p, t, ENABLE) && Helper.Validate(p, t, DropDefault(cfg.iface))
            && Helper.Validate(p, t, Flush(cfg.anchor))
            && (Helper.Validate(p, t, Load(cfg.anchor, ruleset)) <==> LintAnchor(p, t, ruleset))
  {
  }

  /** And its commands for one endpoint. */
  lemma EndpointCommands(t: Parser, keys: N.Keys, c: N.Node, e: Endpoint)
    requires ConfigFits(t, keys, c) && EpFits(N.PolicyOf(t, keys, c).value, t, c, e) && e.iface != ""
    ensures var p := N.PolicyOf(t, keys, c).value;
            Helper.Validate(p, t, Resolve(e.vmIP)) && Helper.Validate(p, t, DropDefault(e.iface))
  {
  }

  /* ---- the controller's rules ---- */

  /** `WithRoutableCIDRs`: no filter at all when no CIDR parses. */
  function FilterOf(t: Parser, cidrs: seq<string>): Option<string -> bool> {
    var nets := NormalizeSet(t, cidrs);
    if nets == {} then None else Some(ip => InSet(t, ip, nets))
  }

  /** The controller's filter leaves only backends the helper accepts as targets, if any configured CIDR parses at all. */
  lemma PushedBackendsRoutable(t: Parser, c: N.Node, cidrs: seq<string>, svc: SvcRoute.Service, slices: seq<SvcRoute.Slice>, i: nat)
    requires (set s | s in cidrs) == N.PodCIDRs(c) + (set s | s in N.VmnetCIDRs(c))
    requires i < |SvcRoute.Filter(FilterOf(t, cidrs), SvcRoute.Build(svc, slices))|
    ensures var r := SvcRoute.Filter(FilterOf(t, cidrs), SvcRoute.Build(svc, slices))[i];
            && r.backends != []
            && ((forall j :: 0 <= j < |r.backends| ==> N.Routable(t, c, r.backends[j])) <==> NormalizeSet(t, cidrs) != {})
  {
    var rules := SvcRoute.Filter(FilterOf(t, cidrs), SvcRoute.Build(svc, slices));
    SvcRoute.PushedHaveBackends(FilterOf(t, cidrs), svc, slices);
    N.SameBlocks(t, cidrs, N.PodCIDRs(c) + set s | s in N.VmnetCIDRs(c));
    if NormalizeSet(t, cidrs) != {} {
      SvcRoute.FilterSound(FilterOf(t, cidrs), SvcRoute.Build(svc, slices), i);
      forall j | 0 <= j < |rules[i].backends|
        ensures N.Routable(t, c, rules[i].backends[j])
      {
        assert rules[i].backends[j] in rules[i].backends;
      }
    } else {
      assert !N.Routable(t, c, rules[i].backends[0]);
    }
  }

  /** So a pushed rule that the router stores is one it can render for the helper. */
  lemma PushedRulesFit(t: Parser, c: N.Node, cidrs: seq<string>, svc: SvcRoute.Service, slices: seq<SvcRoute.Slice>, i: nat)
    requires (set s | s in cidrs) == N.PodCIDRs(c) + (set s | s in N.VmnetCIDRs(c))
    requires i < |SvcRoute.Filter(FilterOf(t, cidrs), SvcRoute.Build(svc, slices))|
    ensures var r := SvcRoute.Filter(FilterOf(t, cidrs), SvcRoute.Build(svc, slices))[i];
            RuleFits(t, c, r) <==> NormalizeSet(t, cidrs) != {} && RuleValid(t, r) && '\n' !in r.key
  {
    PushedBackendsRoutable(t, c, cidrs, svc, slices, i);
  }

  /* ---- the mesh's commands ---- */

  /** What cannot break a config line: canonical keys are words, names and endpoints stay on theirs. */
  predicate MeshPrintable(keys: N.Keys, m: N.MeshStanza) {
    && keys.own.Some? && Word(keys.own.value) && m.mtu < 0x8000_0000_0000_0000
    && (forall i :: 0 <= i < |m.peers| ==>
          && keys.canonical(m.peers[i].publicKey).Some? && Word(keys.canonical(m.peers[i].publicKey).value)
          && '\n' !in m.peers[i].name && '\n' !in m.peers[i].endpoint)
  }

  lemma ConfiguredTargets(t: Parser, keys: N.Keys, c: N.Node, target: string)
    requires c.mesh.enabled && keys.own.Some? && N.KeysParse(keys, c.mesh.peers) && t.cidr(target).Some?
    requires target in TargetSet(N.PeersOf(keys, c.mesh.peers))
    ensures RouteOk(N.PolicyOf(t, keys, c).value, t, target)
  {
  }

  /** The helper accepts any config that prints these peers, whoever holds the private key. */
  lemma PeersAccepted(t: Parser, keys: N.Keys, c: N.Node, ifc: Interface)
    requires Sane(t) && c.mesh.enabled && MeshPrintable(keys, c.mesh) && N.KeysParse(keys, c.mesh.peers)
    requires ifc.peers == N.PeersOf(keys, c.mesh.peers) && Word(ifc.privateKey) && ifc.listenPort >= 0
    requires Parses(t, TargetSet(ifc.peers))
    ensures LintWg(N.PolicyOf(t, keys, c).value, t, ConfigText(ifc))
  {
    var p := N.PolicyOf(t, keys, c).value;
    forall i | 0 <= i < |ifc.peers|
      ensures PeerPrintable(t, ifc.peers[i]) && PeerAllowed(p, t, ifc.peers[i])
    {
      PeerAccepted(t, keys, c, ifc.peers, i);
    }
    ConfigExact(p, t, ifc);
  }

  lemma PeerAccepted(t: Parser, keys: N.Keys, c: N.Node, peers: seq<Peer>, i: nat)
    requires c.mesh.enabled && MeshPrintable(keys, c.mesh) && N.KeysParse(keys, c.mesh.peers)
    requires peers == N.PeersOf(keys, c.mesh.peers) && i < |peers| && Parses(t, TargetSet(peers))
    ensures PeerPrintable(t, peers[i]) && PeerAllowed(N.PolicyOf(t, keys, c).value, t, peers[i])
  {
    forall j | 0 <= j < |peers[i].allowed|
      ensures t.cidr(peers[i].allowed[j]).Some? && RouteOk(N.PolicyOf(t, keys, c).value, t, peers[i].allowed[j])
    {
      assert peers[i].allowed[j] in TargetSet(peers);
      ConfiguredTargets(t, keys, c, peers[i].allowed[j]);
    }
  }

  /** A CIDR is not the word "default". */
  lemma CidrNotDefault(t: Parser, s: string)
    requires Sane(t) && t.cidr(s).Some?
    ensures s != "default"
  {
    assert CidrText(s) && "default"[4] == 'u';
  }

  /** A mesh route command passes exactly when its block is configured. */
  lemma RouteExact(t: Parser, keys: N.Keys, c: N.Node, op: string, target: string)
    requires Sane(t) && c.mesh.enabled && c.mesh.iface != "" && N.PolicyOf(t, keys, c).Some?
    requires t.cidr(target).Some? && (op == "add" || op == "delete")
    ensures var p := N.PolicyOf(t, keys, c).value;
            Helper.Validate(p, t, RouteRequest(t, c.mesh.iface, op, target)) <==> Block(t, target) in p.routeCIDRs
  {
    CidrNotDefault(t, target);
    var args := RouteRequest(t, c.mesh.iface, op, target).args;
    assert args[2] == op && args[4] == target && args[5] == "-interface" && args[6] == c.mesh.iface;
  }

  ghost predicate Permits(p: Policy, t: Parser, rs: seq<Request>) { forall i :: 0 <= i < |rs| ==> Helper.Validate(p, t, rs[i]) }

  lemma PermitsAppend(p: Policy, t: Parser, a: seq<Request>, b: seq<Request>)
    requires Permits(p, t, a) && Permits(p, t, b)
    ensures Permits(p, t, a + b)
  {
  }

  lemma AddressPart(p: Policy, t: Parser, ifc: Interface)
    requires Sane(t) && t.cidr(ifc.address).Some? && ifc.listenPort >= 0 && p.meshAddress == AddressIP(t, ifc.address)
    requires p.mesh == ifc.name && ifc.name != "" && LintWg(p, t, ConfigText(ifc))
    ensures Permits(p, t, AddressRequests(t, ifc))
  {
    LinkPermitted(p, t, ifc.name, ConfigText(ifc));
    AddressPermitted(p, t, ifc);
  }

  lemma MtuPart(p: Policy, t: Parser, ifc: Interface)
    requires 0 <= ifc.mtu < 0x8000_0000_0000_0000 && p.mtu == ifc.mtu && p.mesh == ifc.name && ifc.name != ""
    ensures Permits(p, t, MtuRequests(ifc)) && Permits(p, t, [Request("ifconfig", [ifc.name, "up"], "")])
  {
    LinkPermitted(p, t, ifc.name, "");
    if ifc.mtu > 0 {
      MtuPermitted(p, t, ifc);
    }
  }

  /** Every command Up runs before the routes is permitted. */
  lemma UpPermitted(t: Parser, hostPort: string -> bool, keys: N.Keys, c: N.Node)
    requires Sane(t) && c.mesh.enabled && MeshPrintable(keys, c.mesh) && N.InterfaceOf(keys, c.mesh).Some?
    requires IfaceValid(t, hostPort, N.InterfaceOf(keys, c.mesh).value)
    ensures Permits(N.PolicyOf(t, keys, c).value, t, UpRequests(t, N.InterfaceOf(keys, c.mesh).value))
  {
    var p, ifc := N.PolicyOf(t, keys, c).value, N.InterfaceOf(keys, c.mesh).value;
    TargetsParse(t, hostPort, ifc);
    PeersAccepted(t, keys, c, ifc);
    AddressPart(p, t, ifc);
    MtuPart(p, t, ifc);
    PermitsAppend(p, t, AddressRequests(t, ifc), MtuRequests(ifc));
    PermitsAppend(p, t, AddressRequests(t, ifc) + MtuRequests(ifc), [Request("ifconfig", [ifc.name, "up"], "")]);
  }

  lemma LinkPermitted(p: Policy, t: Parser, name: string, conf: string)
    requires p.mesh == name && name != ""
    ensures Helper.Validate(p, t, Request("wireguard-go", [name], "")) && Helper.Validate(p, t, Request("ifconfig", [name, "up"], ""))
    ensures Helper.Validate(p, t, Request("wg", ["setconf", name, "/dev/stdin"], conf)) <==> LintWg(p, t, conf)
    ensures Helper.Validate(p, t, Request("wg", ["syncconf", name, "/dev/stdin"], conf)) <==> LintWg(p, t, conf)
  {
    assert [name, "up"][1..] == ["up"];
  }

  lemma AddressPermitted(p: Policy, t: Parser, ifc: Interface)
    requires Sane(t) && t.cidr(ifc.address).Some? && p.meshAddress == AddressIP(t, ifc.address) && p.mesh == ifc.name && ifc.name != ""
    ensures var ip := AddressIP(t, ifc.address);
            Helper.Validate(p, t, Request("ifconfig", [ifc.name, "inet", ip, ip, "alias"], ""))
  {
    var ip := AddressIP(t, ifc.address);
    var rest := [ifc.name, "inet", ip, ip, "alias"][1..];
    assert rest == ["inet", ip, ip, "alias"];
    var (a, block) := t.cidr(ifc.address).value;
    assert t.cidr(ifc.address) == Some((a, block));
  }

  lemma MtuPermitted(p: Policy, t: Parser, ifc: Interface)
    requires 0 < ifc.mtu < 0x8000_0000_0000_0000 && p.mtu == ifc.mtu && p.mesh == ifc.name && ifc.name != ""
    ensures Helper.Validate(p, t, Request("ifconfig", [ifc.name, "mtu", Itoa(ifc.mtu)], ""))
  {
    assert [ifc.name, "mtu", Itoa(ifc.mtu)][1..] == ["mtu", Itoa(ifc.mtu)];
    AtoiItoa(ifc.mtu);
  }

  /** So are its routes, and everything a teardown runs. */
  lemma RoutesPermitted(t: Parser, hostPort: string -> bool, keys: N.Keys, c: N.Node, op: string, target: string)
    requires Sane(t) && c.mesh.enabled && N.InterfaceOf(keys, c.mesh).Some?
    requires IfaceValid(t, hostPort, N.InterfaceOf(keys, c.mesh).value)
    requires target in TargetSet(N.InterfaceOf(keys, c.mesh).value.peers) && (op == "add" || op == "delete")
    ensures Helper.Validate(N.PolicyOf(t, keys, c).value, t, RouteRequest(t, c.mesh.iface, op, target))
  {
    TargetsParse(t, hostPort, N.InterfaceOf(keys, c.mesh).value);
    RouteExact(t, keys, c, op, target);
    ConfiguredTargets(t, keys, c, target);
  }

  /**
   * Everything Up runs: each command of `log` is permitted, and of its route commands exactly the deletes whose block is
   * not configured are refused. A mesh that tracks nothing runs none of those.
   */
  lemma UpRefusals(t: Parser, hostPort: string -> bool, keys: N.Keys, c: N.Node, routes: set<string>, log: seq<Request>, cmds: seq<Cmd>)
    requires Sane(t) && c.mesh.enabled && MeshPrintable(keys, c.mesh) && N.InterfaceOf(keys, c.mesh).Some?
    requires IfaceValid(t, hostPort, N.InterfaceOf(keys, c.mesh).value) && Parses(t, routes)
    requires log <= UpRequests(t, N.InterfaceOf(keys, c.mesh).value) && Needed(cmds, routes, TargetSet(N.InterfaceOf(keys, c.mesh).value.peers))
    ensures Parses(t, TargetSet(N.InterfaceOf(keys, c.mesh).value.peers))
    ensures Permits(N.PolicyOf(t, keys, c).value, t, log)
    ensures forall i :: 0 <= i < |cmds| ==> t.cidr(cmds[i].target).Some?
    ensures forall i :: 0 <= i < |cmds| ==>
              (Helper.Validate(N.PolicyOf(t, keys, c).value, t, CmdRequest(t, c.mesh.iface, cmds[i])) <==>
               cmds[i].Add? || Block(t, cmds[i].target) in Blocks(t, TargetSet(N.InterfaceOf(keys, c.mesh).value.peers)))
    ensures routes == {} ==> forall i :: 0 <= i < |cmds| ==> cmds[i].Add?
  {
    var ifc := N.InterfaceOf(keys, c.mesh).value;
    TargetsParse(t, hostPort, ifc);
    UpPermitted(t, hostPort, keys, c);
    assert forall i :: 0 <= i < |cmds| ==> cmds[i] in cmds;
    forall i | 0 <= i < |cmds|
      ensures t.cidr(cmds[i].target).Some?
      ensures Helper.Validate(N.PolicyOf(t, keys, c).value, t, CmdRequest(t, c.mesh.iface, cmds[i])) <==>
              cmds[i].Add? || Block(t, cmds[i].target) in Blocks(t, TargetSet(ifc.peers))
    {
      CmdExact(t, keys, c, ifc.peers, cmds[i], routes);
    }
  }

  lemma CmdExact(t: Parser, keys: N.Keys, c: N.Node, peers: seq<Peer>, cmd: Cmd, routes: set<string>)
    requires Sane(t) && c.mesh.enabled && c.mesh.iface != "" && keys.own.Some? && N.KeysParse(keys, c.mesh.peers)
    requires peers == N.PeersOf(keys, c.mesh.peers) && Parses(t, TargetSet(peers)) && Parses(t, routes)
    requires cmd.target in (if cmd.Del? then routes - TargetSet(peers) else TargetSet(peers) - routes)
    ensures t.cidr(cmd.target).Some?
    ensures Helper.Validate(N.PolicyOf(t, keys, c).value, t, CmdRequest(t, c.mesh.iface, cmd)) <==>
            cmd.Add? || Block(t, cmd.target) in Blocks(t, TargetSet(peers))
  {
    RouteExact(t, keys, c, if cmd.Del? then "delete" else "add", cmd.target);
    SameRouteBlocks(t, TargetSet(peers));
  }

  lemma DownPermitted(t: Parser, keys: N.Keys, c: N.Node)
    requires c.mesh.enabled && c.mesh.iface != "" && N.InterfaceOf(keys, c.mesh).Some?
    ensures forall r :: r in DownRequests(N.InterfaceOf(keys, c.mesh).value) ==> Helper.Validate(N.PolicyOf(t, keys, c).value, t, r)
  {
    var name := c.mesh.iface;
    assert [name, "down"][1..] == ["down"] && [name, "destroy"][1..] == ["destroy"];
  }

  /* ---- Sync under a reloaded policy ---- */

  /**
   * After a reload that keeps the interface, the new wg config and every added route pass; a deleted one is refused
   * exactly when its masked block is no longer configured.
   */
  lemma SyncRefusals(t: Parser, hostPort: string -> bool, keys: N.Keys, c: N.Node, running: Interface, target: string)
    requires Sane(t) && c.mesh.enabled && MeshPrintable(keys, c.mesh) && N.KeysParse(keys, c.mesh.peers)
    requires running.name == c.mesh.iface && Word(running.privateKey) && t.cidr(target).Some?
    requires IfaceValid(t, hostPort, running.(peers := N.PeersOf(keys, c.mesh.peers)))
    ensures var p, next := N.PolicyOf(t, keys, c).value, running.(peers := N.PeersOf(keys, c.mesh.peers));
            && Helper.Validate(p, t, SyncRequest(next))
            && (target in TargetSet(next.peers) ==> Helper.Validate(p, t, CmdRequest(t, next.name, Add(target))))
            && Parses(t, TargetSet(next.peers))
            && (Helper.Validate(p, t, CmdRequest(t, next.name, Del(target))) <==> Block(t, target) in Blocks(t, TargetSet(next.peers)))
  {
    var p, next := N.PolicyOf(t, keys, c).value, running.(peers := N.PeersOf(keys, c.mesh.peers));
    TargetsParse(t, hostPort, next);
    PeersAccepted(t, keys, c, next);
    LinkPermitted(p, t, next.name, ConfigText(next));
    RouteExact(t, keys, c, "delete", target);
    RouteExact(t, keys, c, "add", target);
    SameRouteBlocks(t, TargetSet(next.peers));
    if target in TargetSet(next.peers) {
      ConfiguredTargets(t, keys, c, target);
    }
  }

  lemma SameRouteBlocks(t: Parser, targets: set<string>)
    requires Parses(t, targets)
    ensures N.BlocksOf(t, targets) == Blocks(t, targets)
  {
  }

  /** What a Sync to the peers of `c` does to the route table when every command the helper refuses fails. */
  ghost predicate SyncsThrough(t: Parser, keys: N.Keys, c: N.Node, iface: string, a: Table, gone: set<string>, new_: set<string>, b: Table)
    requires N.KeysParse(keys, c.mesh.peers) && N.PolicyOf(t, keys, c).Some?
  {
    var want := TargetSet(N.PeersOf(keys, c.mesh.peers));
    && Parses(t, a.routes) && Parses(t, want) && Progress(t, a.routes, a.host, want, gone, new_, b.routes, b.host)
    && forall s :: s in gone ==> Helper.Validate(N.PolicyOf(t, keys, c).value, t, CmdRequest(t, iface, Del(s)))
  }

  /**
   * Hence a peer whose block leaves the config cannot be synced away through the helper: its route stays tracked and
   * no new route is added.
   */
  lemma RefusedDeleteBlocksSync(t: Parser, hostPort: string -> bool, keys: N.Keys, c: N.Node, running: Interface,
                                a: Table, gone: set<string>, new_: set<string>, b: Table, stale: string)
    requires Sane(t) && c.mesh.enabled && MeshPrintable(keys, c.mesh) && N.KeysParse(keys, c.mesh.peers)
    requires running.name == c.mesh.iface && Word(running.privateKey)
    requires IfaceValid(t, hostPort, running.(peers := N.PeersOf(keys, c.mesh.peers)))
    requires SyncsThrough(t, keys, c, running.name, a, gone, new_, b)
    requires var want := TargetSet(N.PeersOf(keys, c.mesh.peers)); stale in a.routes - want && Block(t, stale) !in Blocks(t, want)
    ensures stale in b.routes && new_ == {}
  {
    SyncRefusals(t, hostPort, keys, c, running, stale);
  }

  /** However often Sync runs. */
  lemma {:induction false} RefusedForEver(t: Parser, hostPort: string -> bool, keys: N.Keys, c: N.Node, running: Interface,
                                          tables: seq<Table>, gones: seq<set<string>>, news: seq<set<string>>, stale: string)
    requires Sane(t) && c.mesh.enabled && MeshPrintable(keys, c.mesh) && N.KeysParse(keys, c.mesh.peers)
    requires running.name == c.mesh.iface && Word(running.privateKey)
    requires IfaceValid(t, hostPort, running.(peers := N.PeersOf(keys, c.mesh.peers)))
    requires |tables| == |gones| + 1 && |news| == |gones|
    requires forall i :: 0 <= i < |gones| ==> SyncsThrough(t, keys, c, running.name, tables[i], gones[i], news[i], tables[i + 1])
    requires t.cidr(stale).Some? && Parses(t, TargetSet(N.PeersOf(keys, c.mesh.peers)))
    requires var want := TargetSet(N.PeersOf(keys, c.mesh.peers)); stale in tables[0].routes - want && Block(t, stale) !in Blocks(t, want)
    ensures forall i :: 0 <= i < |tables| ==> stale in tables[i].routes
    ensures forall i :: 0 <= i < |news| ==> news[i] == {}
  {
    for n := 0 to |gones|
      invariant forall i :: 0 <= i <= n ==> stale in tables[i].routes
      invariant forall i :: 0 <= i < n ==> news[i] == {}
    {
      RefusedDeleteBlocksSync(t, hostPort, keys, c, running, tables[n], gones[n], news[n], tables[n + 1], stale);
    }
  }
}
