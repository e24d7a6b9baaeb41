/**
 * Every request the helper may receive: it is run if and only if it spells one of the commands below, with arguments the
 * policy permits. Everything else is refused.
 */
module Requests {
  import opened Common
  import opened Net
  import opened Text
  import opened Numbers
  import opened Helper
  import S = AnchorSound

  datatype Command =
    | KernelType
    | Forwarding(on: bool)
    | EnablePf
    | FlushAnchor
    | LoadAnchor(ruleset: string)
    | LookUpRoute(ip: string)
    | MeshRoute(add: bool, v6: bool, block: string)
    | DropDefault(iface: string)
    | SetAddress(local: string, peer: string)
    | SetMtu(size: string)
    | SetLink(verb: string)
    | ApplyConfig(sync: bool, config: string)
    | StartWireGuard
    | KillWireGuard

  /** The request that asks for a command; the mesh interface and the anchor are always the configured ones. */
  function Ask(p: Policy, cmd: Command): Request {
    match cmd
    case KernelType => Request("sysctl", ["-n", "kern.ostype"], "")
    case Forwarding(on) => Request("sysctl", ["-w", if on then "net.inet.ip.forwarding=1" else "net.inet.ip.forwarding=0"], "")
    case EnablePf => Request("pfctl", ["-e"], "")
    case FlushAnchor => Request("pfctl", ["-a", p.anchor, "-F", "all"], "")
    case LoadAnchor(ruleset) => Request("pfctl", ["-a", p.anchor, "-f", "-"], ruleset)
    case LookUpRoute(ip) => Request("route", ["-n", "get", ip], "")
    case MeshRoute(add, v6, block) =>
      Request("route", ["-q", "-n", if add then "add" else "delete", if v6 then "-inet6" else "-inet", block, "-interface", p.mesh], "")
    case DropDefault(iface) => Request("route", ["-q", "-n", "delete", "-inet", "default", "-ifscope", iface], "")
    case SetAddress(local, peer) => Request("ifconfig", [p.mesh, "inet", local, peer, "alias"], "")
    case SetMtu(size) => Request("ifconfig", [p.mesh, "mtu", size], "")
    case SetLink(verb) => Request("ifconfig", [p.mesh, verb], "")
    case ApplyConfig(sync, config) => Request("wg", [if sync then "syncconf" else "setconf", p.mesh, "/dev/stdin"], config)
    case StartWireGuard => Request("wireguard-go", [p.mesh], "")
    case KillWireGuard => Request("pkill", ["-f", "wireguard-go " + p.mesh], "")
  }

  /** The text is a block, and its masked form is one of the configured routes. */
  ghost predicate Configured(p: Policy, t: Parser, text: string) {
    exists ip, c :: t.cidr(text) == Some((ip, c)) && c in p.routeCIDRs
  }

  lemma ConfiguredIs(p: Policy, t: Parser, text: string)
    ensures RouteOk(p, t, text) <==> Configured(p, t, text)
  {
    if t.cidr(text).Some? {
      var (ip, c) := t.cidr(text).value;
      assert t.cidr(text) == Some((ip, c));
    }
  }

  ghost predicate Permitted(p: Policy, t: Parser, cmd: Command) {
    match cmd
    case KernelType => true
    case Forwarding(_) => p.vmnet != ""
    case EnablePf => true
    case FlushAnchor => p.anchor != ""
    case LoadAnchor(ruleset) => p.anchor != "" && LintAnchor(p, t, ruleset)
    case LookUpRoute(ip) => S.Lies(t, ip, p.vmnetCIDRs)
    case MeshRoute(_, _, block) => p.mesh != "" && Configured(p, t, block)
    case DropDefault(iface) => S.OnVmnet(p, iface)
    case SetAddress(local, peer) => p.mesh != "" && t.ip(p.meshAddress).Some? && t.ip(local) == t.ip(peer) == t.ip(p.meshAddress)
    case SetMtu(size) => p.mesh != "" && Atoi(size).Some? && Atoi(size).value > 0 && (p.mtu > 0 ==> Atoi(size).value == p.mtu)
    case SetLink(verb) => p.mesh != "" && verb in {"up", "down", "destroy"}
    case ApplyConfig(_, config) => p.mesh != "" && LintWg(p, t, config)
    case StartWireGuard => p.mesh != ""
    case KillWireGuard => p.mesh != ""
  }

  /* ---- commands pass ---- */

  lemma DefaultIsNoBlock(p: Policy, t: Parser)
    requires Sane(t)
    ensures !RouteOk(p, t, "default")
  {
    assert !IpChar("default"[4]) && "default"[4] != '/';
  }

  lemma HostPasses(p: Policy, t: Parser, cmd: Command)
    requires Permitted(p, t, cmd) && (cmd.KernelType? || cmd.Forwarding? || cmd.EnablePf? || cmd.FlushAnchor? || cmd.LoadAnchor?)
    ensures Validate(p, t, Ask(p, cmd))
  {
  }

  lemma RoutePasses(p: Policy, t: Parser, cmd: Command)
    requires Sane(t) && Permitted(p, t, cmd) && (cmd.LookUpRoute? || cmd.MeshRoute? || cmd.DropDefault?)
    ensures Validate(p, t, Ask(p, cmd))
  {
    DefaultIsNoBlock(p, t);
    match cmd
    case LookUpRoute(ip) => S.LiesIs(t, ip, p.vmnetCIDRs);
    case MeshRoute(_, _, block) => ConfiguredIs(p, t, block);
    case DropDefault(iface) => S.IfaceIs(p, iface);
  }

  lemma LinkPasses(p: Policy, t: Parser, cmd: Command)
    requires Permitted(p, t, cmd) && (cmd.SetAddress? || cmd.SetMtu? || cmd.SetLink?)
    ensures Validate(p, t, Ask(p, cmd))
  {
    var r := Ask(p, cmd);
    match cmd
    case SetAddress(local, peer) => assert r.args[1..] == ["inet", local, peer, "alias"];
    case SetMtu(size) => assert r.args[1..] == ["mtu", size];
    case SetLink(verb) => assert r.args[1..] == [verb];
  }

  lemma MeshPasses(p: Policy, t: Parser, cmd: Command)
    requires Permitted(p, t, cmd) && (cmd.ApplyConfig? || cmd.StartWireGuard? || cmd.KillWireGuard?)
    ensures Validate(p, t, Ask(p, cmd))
  {
  }

  lemma CommandPasses(p: Policy, t: Parser, cmd: Command)
    requires Sane(t) && Permitted(p, t, cmd)
    ensures Validate(p, t, Ask(p, cmd))
  {
    if cmd.LookUpRoute? || cmd.MeshRoute? || cmd.DropDefault? {
      RoutePasses(p, t, cmd);
    } else if cmd.SetAddress? || cmd.SetMtu? || cmd.SetLink? {
      LinkPasses(p, t, cmd);
    } else if cmd.ApplyConfig? || cmd.StartWireGuard? || cmd.KillWireGuard? {
      MeshPasses(p, t, cmd);
    } else {
      HostPasses(p, t, cmd);
    }
  }

  /* ---- nothing else does ---- */

  lemma SysctlAsked(p: Policy, t: Parser, r: Request) returns (cmd: Command)
    requires r.name == "sysctl" && ValidateSysctl(p, r)
    ensures r == Ask(p, cmd) && Permitted(p, t, cmd)
  {
    cmd := if r.args == ["-n", "kern.ostype"] then KernelType else Forwarding(r.args == ["-w", "net.inet.ip.forwarding=1"]);
  }

  lemma PfctlAsked(p: Policy, t: Parser, r: Request) returns (cmd: Command)
    requires r.name == "pfctl" && ValidatePfctl(p, t, r)
    ensures r == Ask(p, cmd) && Permitted(p, t, cmd)
  {
    if r.args == ["-e"] && r.stdin == "" {
      cmd := EnablePf;
    } else if r.args[2] == "-F" {
      cmd := FlushAnchor;
      assert r.args == ["-a", p.anchor, "-F", "all"];
    } else {
      cmd := LoadAnchor(r.stdin);
      assert r.args == ["-a", p.anchor, "-f", "-"];
    }
  }

  lemma RouteAsked(p: Policy, t: Parser, r: Request) returns (cmd: Command)
    requires r.name == "route" && ValidateRoute(p, t, r)
    ensures r == Ask(p, cmd) && Permitted(p, t, cmd)
  {
    var a := r.args;
    if |a| == 3 {
      cmd := LookUpRoute(a[2]);
      S.LiesIs(t, a[2], p.vmnetCIDRs);
      assert a == ["-n", "get", a[2]];
    } else if a[2] == "delete" && a[3] == "-inet" && a[4] == "default" {
      cmd := DropDefault(a[6]);
      S.IfaceIs(p, a[6]);
      assert a == ["-q", "-n", "delete", "-inet", "default", "-ifscope", a[6]];
    } else {
      cmd := MeshRoute(a[2] == "add", a[3] == "-inet6", a[4]);
      ConfiguredIs(p, t, a[4]);
      assert a == ["-q", "-n", a[2], a[3], a[4], "-interface", p.mesh];
    }
  }

  lemma IfconfigAsked(p: Policy, t: Parser, r: Request) returns (cmd: Command)
    requires r.name == "ifconfig" && ValidateIfconfig(p, t, r)
    ensures r == Ask(p, cmd) && Permitted(p, t, cmd)
  {
    var rest := r.args[1..];
    assert r.args == [p.mesh] + rest;
    if |rest| == 4 {
      cmd := SetAddress(rest[1], rest[2]);
      assert rest == ["inet", rest[1], rest[2], "alias"];
    } else if |rest| == 2 {
      cmd := SetMtu(rest[1]);
      assert rest == ["mtu", rest[1]];
    } else {
      cmd := SetLink(rest[0]);
      assert rest == [rest[0]];
    }
  }

  lemma WgAsked(p: Policy, t: Parser, r: Request) returns (cmd: Command)
    requires r.name == "wg" && ValidateWG(p, t, r)
    ensures r == Ask(p, cmd) && Permitted(p, t, cmd)
  {
    cmd := ApplyConfig(r.args[0] == "syncconf", r.stdin);
    assert r.args == [r.args[0], p.mesh, "/dev/stdin"];
  }

  lemma ProcessAsked(p: Policy, t: Parser, r: Request) returns (cmd: Command)
    requires (r.name == "wireguard-go" || r.name == "pkill") && Validate(p, t, r)
    ensures r == Ask(p, cmd) && Permitted(p, t, cmd)
  {
    if r.name == "pkill" {
      cmd := KillWireGuard;
      assert r.args == ["-f", "wireguard-go " + p.mesh];
    } else {
      cmd := StartWireGuard;
      assert r.args == [p.mesh];
    }
  }

  lemma Tools(p: Policy, t: Parser, r: Request)
    requires Validate(p, t, r)
    ensures || (r.name == "sysctl" && ValidateSysctl(p, r)) || (r.name == "pfctl" && ValidatePfctl(p, t, r))
            || (r.name == "route" && ValidateRoute(p, t, r)) || (r.name == "ifconfig" && ValidateIfconfig(p, t, r))
            || (r.name == "wg" && ValidateWG(p, t, r)) || r.name == "wireguard-go" || r.name == "pkill"
  {
  }

  lemma Asked(p: Policy, t: Parser, r: Request) returns (cmd: Command)
    requires Validate(p, t, r)
    ensures r == Ask(p, cmd) && Permitted(p, t, cmd)
  {
    Tools(p, t, r);
    if r.name == "sysctl" {
      cmd := SysctlAsked(p, t, r);
    } else if r.name == "pfctl" {
      cmd := PfctlAsked(p, t, r);
    } else if r.name == "route" {
      cmd := RouteAsked(p, t, r);
    } else if r.name == "ifconfig" {
      cmd := IfconfigAsked(p, t, r);
    } else if r.name == "wg" {
      cmd := WgAsked(p, t, r);
    } else {
      cmd := ProcessAsked(p, t, r);
    }
  }

  /** A request is run if and only if it asks for a command the policy permits. */
  lemma RequestPassIff(p: Policy, t: Parser, r: Request)
    requires Sane(t)
    ensures Validate(p, t, r) <==> exists cmd :: r == Ask(p, cmd) && Permitted(p, t, cmd)
  {
    if Validate(p, t, r) {
      var cmd := Asked(p, t, r);
    }
    if cmd :| r == Ask(p, cmd) && Permitted(p, t, cmd) {
      CommandPasses(p, t, cmd);
    }
  }

  /* ---- WireGuard configs, line by line ---- */

  /** Cutting at the first equals sign. */
  lemma {:induction false} CutExact(s: string)
    ensures Cut(s).None? <==> '=' !in s
    ensures Cut(s).Some? ==> s == Cut(s).value.0 + "=" + Cut(s).value.1 && '=' !in Cut(s).value.0
  {
    if s != "" && s[0] != '=' {
      CutExact(s[1..]);
      assert s == [s[0]] + s[1..];
    }
  }

  /** `line` sets `key` to `value`. */
  ghost predicate Sets(line: string, key: string, value: string) {
    exists k, v :: line == k + "=" + v && '=' !in k && TrimSpace(k) == key && TrimSpace(v) == value
  }

  /** The setting names a configured peer or configured blocks, or is neither a key nor a route list. */
  ghost predicate SettingOk(p: Policy, t: Parser, key: string, value: string) {
    && (key == "PublicKey" ==> value in p.peerKeys)
    && (key == "AllowedIPs" ==> forall part :: part in Split(value, ',') ==> Configured(p, t, TrimSpace(part)))
  }

  lemma {:induction false} CutUnique(k: string, v: string)
    requires '=' !in k
    ensures Cut(k + "=" + v) == Some((k, v))
  {
    var s := k + "=" + v;
    if k != "" {
      CutUnique(k[1..], v);
      assert s[1..] == k[1..] + "=" + v && [k[0]] + k[1..] == k;
    }
  }

  /** A line of a config passes if and only if it is blank, a comment, a section, or an acceptable setting. */
  lemma WgLineIff(p: Policy, t: Parser, raw: string)
    ensures var line := TrimSpace(raw);
            LintWgLine(p, t, raw) <==>
            || S.Blank(raw) || S.CommentLine(raw) || (line != "" && line[0] == '[')
            || exists key, value :: Sets(line, key, value) && SettingOk(p, t, key, value)
  {
    var line := TrimSpace(raw);
    forall text: string
      ensures RouteOk(p, t, text) <==> Configured(p, t, text)
    {
      ConfiguredIs(p, t, text);
    }
    S.TrimFields(raw);
    CutExact(line);
    if Cut(line).Some? {
      var (k, v) := Cut(line).value;
      assert Sets(line, TrimSpace(k), TrimSpace(v));
    }
    if key, value :| Sets(line, key, value) && SettingOk(p, t, key, value) {
      var k, v :| line == k + "=" + v && '=' !in k && TrimSpace(k) == key && TrimSpace(v) == value;
      CutUnique(k, v);
    }
  }
}
