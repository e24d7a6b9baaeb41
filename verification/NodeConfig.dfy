/** One node config, read by three parties: the router, the mesh and the privileged helper. */
module NodeConfig {
  import opened Common
  import opened Net
  import opened Text
  import opened Helper
  import opened WireGuard
  import PodNet

  datatype MeshPeer = MeshPeer(
    name: string, publicKey: string, endpoint: string, podCIDR: string, address: string, keepalive: int)

  datatype MeshStanza = MeshStanza(
    enabled: bool, iface: string, address: string, listenPort: int, mtu: int, peers: seq<MeshPeer>)

  datatype NetStanza = NetStanza(
    enabled: bool, iface: string, anchor: string, forwarding: Option<bool>, vmnetCIDRs: seq<string>)

  datatype Node = Node(podCIDR: string, mesh: MeshStanza, net: NetStanza)

  /** The key store: this node's private key, and the canonical text of a public key when it parses. */
  datatype Keys = Keys(own: Option<string>, canonical: string -> Option<string>)

  const DEFAULT_VMNET := "192.168.64.0/22"
  const DEFAULT_ANCHOR := "macvz/pods"
  const DEFAULT_PORT := 51820

  /* ---- the mesh ---- */

  function Allowed(p: MeshPeer): seq<string> {
    if p.address != "" then [p.podCIDR, p.address] else [p.podCIDR]
  }

  function PeerOf(keys: Keys, p: MeshPeer): Peer
    requires keys.canonical(p.publicKey).Some?
  {
    Peer(p.name, keys.canonical(p.publicKey).value, p.endpoint, Allowed(p), p.keepalive)
  }

  predicate KeysParse(keys: Keys, peers: seq<MeshPeer>) {
    forall i :: 0 <= i < |peers| ==> keys.canonical(peers[i].publicKey).Some?
  }

  function PeersOf(keys: Keys, peers: seq<MeshPeer>): (r: seq<Peer>)
    requires KeysParse(keys, peers)
    ensures |r| == |peers|
  {
    seq(|peers|, i requires 0 <= i < |peers| => PeerOf(keys, peers[i]))
  }

  /** `resolvePeers`: every key parses, or nothing comes back. */
  method ResolvePeers(keys: Keys, m: MeshStanza) returns (out: Option<seq<Peer>>)
    ensures out == if KeysParse(keys, m.peers) then Some(PeersOf(keys, m.peers)) else None
  {
    var peers: seq<Peer> := [];
    for i := 0 to |m.peers|
      invariant KeysParse(keys, m.peers[..i]) && peers == PeersOf(keys, m.peers[..i])
    {
      var p := m.peers[i];
      var key := keys.canonical(p.publicKey);
      if key.None? {
        return None;
      }
      var allowed := [p.podCIDR];
      if p.address != "" {
        allowed := allowed + [p.address];
      }
      assert m.peers[..i + 1] == m.peers[..i] + [p] && allowed == Allowed(p);
      peers := peers + [Peer(p.name, key.value, p.endpoint, allowed, p.keepalive)];
    }
    assert m.peers[..|m.peers|] == m.peers;
    return Some(peers);
  }

  /** `MeshInterfaceConfig`. */
  function InterfaceOf(keys: Keys, m: MeshStanza): Option<Interface> {
    if keys.own.None? || !KeysParse(keys, m.peers) then None
    else
      Some(Interface(m.iface, keys.own.value, m.address, if m.listenPort == 0 then DEFAULT_PORT else m.listenPort,
                     m.mtu, PeersOf(keys, m.peers)))
  }

  /* ---- the router and the service filter ---- */

  function RouterConfig(c: Node): PodNet.Config {
    PodNet.Config(c.net.iface, c.mesh.iface, if c.net.anchor == "" then DEFAULT_ANCHOR else c.net.anchor,
                  c.net.forwarding.None? || c.net.forwarding.value)
  }

  function VmnetCIDRs(c: Node): seq<string> {
    if c.net.enabled && c.net.vmnetCIDRs == [] then [DEFAULT_VMNET] else c.net.vmnetCIDRs
  }

  /** The Pod CIDRs of the node and, with the mesh on, of its peers. */
  function PodCIDRs(c: Node): set<string> {
    ({c.podCIDR} + if c.mesh.enabled then set i | 0 <= i < |c.mesh.peers| :: c.mesh.peers[i].podCIDR else {}) - {""}
  }

  /** `RoutableServiceCIDRs`. */
  method RoutableServiceCIDRs(c: Node) returns (cidrs: seq<string>)
    ensures (set s | s in cidrs) == PodCIDRs(c) + set s | s in VmnetCIDRs(c)
  {
    cidrs := if c.podCIDR != "" then [c.podCIDR] else [];
    cidrs := cidrs + VmnetCIDRs(c);
    if c.mesh.enabled {
      ghost var before := cidrs;
      for i := 0 to |c.mesh.peers|
        invariant forall s :: s in cidrs <==> s in before || s in (set j | 0 <= j < i :: c.mesh.peers[j].podCIDR) - {""}
      {
        if c.mesh.peers[i].podCIDR != "" {
          cidrs := cidrs + [c.mesh.peers[i].podCIDR];
        }
      }
    }
  }

  /* ---- the helper's policy ---- */

  function PolicyOf(t: Parser, keys: Keys, c: Node): Option<Policy> {
    var base := Policy("", c.net.iface, RouterConfig(c).anchor, "", 0, {}, BlocksOf(t, PodCIDRs(c)),
                       if c.net.enabled then NormalizeSet(t, VmnetCIDRs(c)) else {}, {});
    if !c.mesh.enabled then Some(base)
    else
      match InterfaceOf(keys, c.mesh)
      case None => None
      case Some(ifc) =>
        Some(base.(mesh := ifc.name, mtu := ifc.mtu,
                   meshAddress := if t.cidr(ifc.address).Some? then t.show(t.cidr(ifc.address).value.0) else "",
                   routeCIDRs := BlocksOf(t, TargetSet(ifc.peers)),
                   peerKeys := set i | 0 <= i < |ifc.peers| :: ifc.peers[i].key))
  }

  /** The blocks of the texts that parse. */
  function BlocksOf(t: Parser, cidrs: set<string>): set<Cidr> {
    set s | s in cidrs && Normalize(t, s).Some? :: Normalize(t, s).value
  }

  method PrivilegedHelperPolicy(t: Parser, keys: Keys, c: Node) returns (policy: Option<Policy>)
    ensures policy == PolicyOf(t, keys, c)
  {
    var p := Policy("", c.net.iface, DEFAULT_ANCHOR, "", 0, {}, {}, {}, {});
    if c.net.anchor != "" {
      p := p.(anchor := c.net.anchor);
    }
    if c.podCIDR != "" {
      var pods := NormalizeCIDRSet(t, [c.podCIDR]);
      p := p.(podCIDRs := pods);
    }
    assert p.podCIDRs == BlocksOf(t, {c.podCIDR} - {""});
    if c.net.enabled {
      var vmnet := c.net.vmnetCIDRs;
      if |vmnet| == 0 {
        vmnet := [DEFAULT_VMNET];
      }
      var blocks := NormalizeCIDRSet(t, vmnet);
      p := p.(vmnetCIDRs := blocks);
    }
    if !c.mesh.enabled {
      assert PodCIDRs(c) == {c.podCIDR} - {""};
      return Some(p);
    }
    var ifc := InterfaceOf(keys, c.mesh);
    if ifc.None? {
      return None;
    }
    p := p.(mesh := ifc.value.name, mtu := ifc.value.mtu);
    if t.cidr(ifc.value.address).Some? {
      p := p.(meshAddress := t.show(t.cidr(ifc.value.address).value.0));
    }
    var targets := RouteTargets(ifc.value.peers);
    var blocks := NormalizeCIDRSet(t, targets);
    assert blocks == BlocksOf(t, TargetSet(ifc.value.peers)) by { SameBlocks(t, targets, TargetSet(ifc.value.peers)); }
    p := p.(routeCIDRs := blocks);
    var pods := PeerPodCIDRs(t, c, p.podCIDRs);
    var known := PeerKeys(ifc.value.peers);
    p := p.(podCIDRs := pods, peerKeys := known);
    return Some(p);
  }

  lemma SameBlocks(t: Parser, a: seq<string>, b: set<string>)
    requires forall s :: s in a <==> s in b
    ensures NormalizeSet(t, a) == BlocksOf(t, b)
  {
  }

  /** The loop over the peers' Pod CIDRs. */
  method PeerPodCIDRs(t: Parser, c: Node, own: set<Cidr>) returns (blocks: set<Cidr>)
    requires c.mesh.enabled && own == BlocksOf(t, {c.podCIDR} - {""})
    ensures blocks == BlocksOf(t, PodCIDRs(c))
  {
    blocks := own;
    ghost var seen: set<string> := {c.podCIDR};
    for i := 0 to |c.mesh.peers|
      invariant seen == {c.podCIDR} + set j | 0 <= j < i :: c.mesh.peers[j].podCIDR
      invariant blocks == BlocksOf(t, seen - {""})
    {
      var cidr := c.mesh.peers[i].podCIDR;
      if cidr != "" {
        var norm := NormalizeCIDRSet(t, [cidr]);
        AddBlocks(t, seen - {""}, cidr, norm);
        assert seen - {""} + {cidr} == seen + {cidr} - {""};
        blocks := blocks + norm;
      } else {
        assert seen + {cidr} - {""} == seen - {""};
      }
      seen := seen + {cidr};
    }
    assert PodCIDRs(c) == seen - {""};
  }

  lemma AddBlocks(t: Parser, seen: set<string>, cidr: string, norm: set<Cidr>)
    requires norm == NormalizeSet(t, [cidr])
    ensures BlocksOf(t, seen + {cidr}) == BlocksOf(t, seen) + norm
  {
  }

  method PeerKeys(peers: seq<Peer>) returns (known: set<string>)
    ensures known == set i | 0 <= i < |peers| :: peers[i].key
  {
    known := {};
    for i := 0 to |peers|
      invariant known == set j | 0 <= j < i :: peers[j].key
    {
      known := known + {peers[i].key};
    }
  }

  /* ---- agreement of the parts ---- */

  /** `net.ParseIP` and membership in one of the configured ranges, as the controller's filter has it. */
  ghost predicate Routable(t: Parser, c: Node, ip: string) {
    InSet(t, ip, BlocksOf(t, PodCIDRs(c) + set s | s in VmnetCIDRs(c)))
  }

  /** With the Pod network on, the controller keeps exactly the backends the helper accepts as targets. */
  lemma FilterAgrees(t: Parser, keys: Keys, c: Node, ip: string)
    requires c.net.enabled && PolicyOf(t, keys, c).Some?
    ensures var p := PolicyOf(t, keys, c).value;
            Routable(t, c, ip) <==> InSet(t, ip, p.podCIDRs) || InSet(t, ip, p.vmnetCIDRs)
  {
    var vmnet := set s | s in VmnetCIDRs(c);
    SameBlocks(t, VmnetCIDRs(c), vmnet);
    assert BlocksOf(t, PodCIDRs(c) + vmnet) == BlocksOf(t, PodCIDRs(c)) + BlocksOf(t, vmnet);
  }

  /** What an unset field means: port 51820, the `macvz/pods` anchor, forwarding on, and vmnet's own block. */
  lemma UnsetFields(keys: Keys, c: Node)
    ensures InterfaceOf(keys, c.mesh).Some? ==>
              InterfaceOf(keys, c.mesh).value.listenPort == if c.mesh.listenPort == 0 then 51820 else c.mesh.listenPort
    ensures RouterConfig(c).anchor == if c.net.anchor == "" then "macvz/pods" else c.net.anchor
    ensures RouterConfig(c).forwarding <==> c.net.forwarding != Some(false)
    ensures c.net.enabled && c.net.vmnetCIDRs == [] ==> VmnetCIDRs(c) == ["192.168.64.0/22"]
    ensures c.net.vmnetCIDRs != [] ==> VmnetCIDRs(c) == c.net.vmnetCIDRs
  {
  }

  /** The interface and the router take every other field from the stanza of its own. */
  lemma SetFields(keys: Keys, c: Node)
    ensures InterfaceOf(keys, c.mesh).Some? <==> keys.own.Some? && forall i :: 0 <= i < |c.mesh.peers| ==> keys.canonical(c.mesh.peers[i].publicKey).Some?
    ensures InterfaceOf(keys, c.mesh).Some? ==>
              var ifc := InterfaceOf(keys, c.mesh).value;
              && ifc.name == c.mesh.iface && Some(ifc.privateKey) == keys.own && ifc.address == c.mesh.address && ifc.mtu == c.mesh.mtu
              && |ifc.peers| == |c.mesh.peers|
              && forall i :: 0 <= i < |ifc.peers| ==>
                   var p, q := c.mesh.peers[i], ifc.peers[i];
                   && q.name == p.name && Some(q.key) == keys.canonical(p.publicKey) && q.endpoint == p.endpoint
                   && q.keepalive == p.keepalive && (forall s :: s in q.allowed <==> s == p.podCIDR || (s == p.address && s != ""))
    ensures RouterConfig(c).iface == c.net.iface && RouterConfig(c).mesh == c.mesh.iface
  {
  }
}
