/** What the mesh's commands do to a host: an interface that may exist, with its config, addresses and routes. */
module MeshHost {
  import opened Common
  import opened Net
  import opened Text
  import opened Numbers
  import opened Helper
  import opened WireGuard
  import opened Mesh

  /** One interface as the tools leave it; routes are per address family. */
  datatype Host = Host(
    live: bool, config: Option<string>, addresses: set<(string, string)>, mtu: Option<string>, linkUp: bool,
    v4: set<string>, v6: set<string>)

  function Gone(h: Host): Host { h.(live := false, config := None, addresses := {}, mtu := None, linkUp := false) }

  function Ifconfig(h: Host, args: seq<string>): Host {
    if !h.live then h
    else if |args| == 4 && args[0] == "inet" && args[3] == "alias" then h.(addresses := h.addresses + {(args[1], args[2])})
    else if |args| == 2 && args[0] == "mtu" then h.(mtu := Some(args[1]))
    else if args == ["up"] then h.(linkUp := true)
    else if args == ["down"] then h.(linkUp := false)
    else if args == ["destroy"] then Gone(h)
    else h
  }

  function Route(h: Host, op: string, family: string, target: string): Host {
    var change := (table: set<string>) =>
      if op == "add" then table + {target} else if op == "delete" then table - {target} else table;
    if family == "-inet" then h.(v4 := change(h.v4)) else if family == "-inet6" then h.(v6 := change(h.v6)) else h
  }

  /** The tools, as far as they concern the interface. */
  function Exec(iface: string, h: Host, r: Request): Host {
    if r.name == "wireguard-go" && r.args == [iface] then if h.live then h else Gone(h).(live := true)
    else if r.name == "wg" && |r.args| == 3 && (r.args[0] == "setconf" || r.args[0] == "syncconf") && r.args[1] == iface
    then if h.live && r.args[2] == "/dev/stdin" then h.(config := Some(r.stdin)) else h
    else if r.name == "ifconfig" && r.args != [] && r.args[0] == iface then Ifconfig(h, r.args[1..])
    else if r.name == "pkill" && r.args == ["-f", "wireguard-go " + iface] then Gone(h)
    else if r.name == "route" && |r.args| == 7 && r.args[5] == "-interface" && r.args[6] == iface
    then Route(h, r.args[2], r.args[3], r.args[4])
    else h
  }

  function ExecAll(iface: string, h: Host, rs: seq<Request>): Host
    decreases |rs|
  {
    if rs == [] then h else ExecAll(iface, Exec(iface, h, rs[0]), rs[1..])
  }

  lemma {:induction false} ExecAppend(iface: string, h: Host, a: seq<Request>, b: seq<Request>)
    ensures ExecAll(iface, h, a + b) == ExecAll(iface, ExecAll(iface, h, a), b)
    decreases |a|
  {
    if a == [] {
      assert a + b == b;
    } else {
      assert (a + b)[1..] == a[1..] + b;
      ExecAppend(iface, Exec(iface, h, a[0]), a[1..], b);
    }
  }

  lemma ExecOne(iface: string, h: Host, r: Request)
    ensures ExecAll(iface, h, [r]) == Exec(iface, h, r)
  {
    assert [r][1..] == [];
  }

  /* ---- single commands ---- */

  lemma Creates(iface: string, h: Host)
    ensures Exec(iface, h, Request("wireguard-go", [iface], "")) == if h.live then h else Gone(h).(live := true)
  {
  }

  lemma Configures(iface: string, h: Host, verb: string, config: string)
    requires h.live && (verb == "setconf" || verb == "syncconf")
    ensures Exec(iface, h, Request("wg", [verb, iface, "/dev/stdin"], config)) == h.(config := Some(config))
  {
  }

  lemma RunsIfconfig(iface: string, h: Host, rest: seq<string>)
    ensures Exec(iface, h, Request("ifconfig", [iface] + rest, "")) == Ifconfig(h, rest)
  {
    assert ([iface] + rest)[1..] == rest;
  }

  lemma Aliases(iface: string, h: Host, ip: string)
    requires h.live
    ensures Exec(iface, h, Request("ifconfig", [iface, "inet", ip, ip, "alias"], "")) == h.(addresses := h.addresses + {(ip, ip)})
  {
    assert [iface, "inet", ip, ip, "alias"] == [iface] + ["inet", ip, ip, "alias"];
    RunsIfconfig(iface, h, ["inet", ip, ip, "alias"]);
  }

  lemma Sizes(iface: string, h: Host, n: string)
    requires h.live
    ensures Exec(iface, h, Request("ifconfig", [iface, "mtu", n], "")) == h.(mtu := Some(n))
  {
    assert [iface, "mtu", n] == [iface] + ["mtu", n];
    RunsIfconfig(iface, h, ["mtu", n]);
  }

  lemma Raises(iface: string, h: Host)
    requires h.live
    ensures Exec(iface, h, Request("ifconfig", [iface, "up"], "")) == h.(linkUp := true)
  {
    assert [iface, "up"] == [iface] + ["up"];
    RunsIfconfig(iface, h, ["up"]);
  }

  lemma Destroys(iface: string, h: Host)
    ensures !Exec(iface, h, Request("ifconfig", [iface, "destroy"], "")).live
  {
    assert [iface, "destroy"] == [iface] + ["destroy"];
    RunsIfconfig(iface, h, ["destroy"]);
  }

  /* ---- Up, Sync and the teardown ---- */

  lemma AddressMeans(t: Parser, c: Interface, h: Host)
    requires c.listenPort >= 0 && t.cidr(c.address).Some?
    ensures var g := ExecAll(c.name, h, AddressRequests(t, c));
            var ip := AddressIP(t, c.address);
            var base := if h.live then h else Gone(h).(live := true);
            g == base.(config := Some(ConfigText(c)), addresses := base.addresses + {(ip, ip)})
  {
    var rs, ip := AddressRequests(t, c), AddressIP(t, c.address);
    assert rs == [rs[0]] + [rs[1]] + [rs[2]];
    ExecAppend(c.name, h, [rs[0]] + [rs[1]], [rs[2]]);
    ExecAppend(c.name, h, [rs[0]], [rs[1]]);
    Creates(c.name, h);
    var a := Exec(c.name, h, rs[0]);
    ExecOne(c.name, h, rs[0]);
    Configures(c.name, a, "setconf", ConfigText(c));
    var b := Exec(c.name, a, rs[1]);
    ExecOne(c.name, a, rs[1]);
    Aliases(c.name, b, ip);
    ExecOne(c.name, b, rs[2]);
  }

  /**
   * On any host, the commands of Up leave the interface existing with the rendered config, the node's address on both
   * ends, the MTU where one is configured, and the link up; they touch no route.
   */
  lemma UpMeans(t: Parser, c: Interface, h: Host)
    requires c.listenPort >= 0 && c.mtu >= 0 && t.cidr(c.address).Some?
    ensures var g := ExecAll(c.name, h, UpRequests(t, c));
            var ip := t.show(t.cidr(c.address).value.0);
            && g.live && g.config == Some(ConfigText(c)) && (ip, ip) in g.addresses && g.linkUp
            && (c.mtu > 0 ==> g.mtu == Some(Itoa(c.mtu))) && g.v4 == h.v4 && g.v6 == h.v6
  {
    var up := Request("ifconfig", [c.name, "up"], "");
    AddressMeans(t, c, h);
    var a := ExecAll(c.name, h, AddressRequests(t, c));
    ExecAppend(c.name, h, AddressRequests(t, c) + MtuRequests(c), [up]);
    ExecAppend(c.name, h, AddressRequests(t, c), MtuRequests(c));
    if c.mtu > 0 {
      ExecOne(c.name, a, MtuRequests(c)[0]);
      Sizes(c.name, a, Itoa(c.mtu));
    }
    var b := ExecAll(c.name, a, MtuRequests(c));
    ExecOne(c.name, b, up);
    Raises(c.name, b);
  }

  /** Sync replaces the config of a live interface and nothing else. */
  lemma SyncMeans(c: Interface, h: Host)
    requires c.listenPort >= 0 && h.live
    ensures Exec(c.name, h, SyncRequest(c)) == h.(config := Some(ConfigText(c)))
  {
    Configures(c.name, h, "syncconf", ConfigText(c));
  }

  /** After the teardown the interface is gone. */
  lemma DownMeans(c: Interface, h: Host)
    ensures !ExecAll(c.name, h, DownRequests(c)).live
  {
    var rs := DownRequests(c);
    assert rs == [rs[0], rs[1]] + [rs[2]];
    ExecAppend(c.name, h, [rs[0], rs[1]], [rs[2]]);
    var b := ExecAll(c.name, h, [rs[0], rs[1]]);
    ExecOne(c.name, b, rs[2]);
    Destroys(c.name, b);
  }

  /** A route command works on the table of its target's family: four-byte addresses on one, longer ones on the other. */
  lemma RouteMeans(t: Parser, iface: string, cmd: Cmd, h: Host)
    requires t.cidr(cmd.target).Some?
    ensures var g := Exec(iface, h, CmdRequest(t, iface, cmd));
            var v4 := |t.cidr(cmd.target).value.0| == 4;
            && g == h.(v4 := g.v4, v6 := g.v6)
            && g.v4 == (if !v4 then h.v4 else if cmd.Add? then h.v4 + {cmd.target} else h.v4 - {cmd.target})
            && g.v6 == (if v4 then h.v6 else if cmd.Add? then h.v6 + {cmd.target} else h.v6 - {cmd.target})
  {
  }
}
