/** The privileged helper's policy: which commands it accepts, and what rulesets and configs they may carry. */
module Helper {
  import opened Common
  import opened Net
  import opened Text
  import opened Numbers

  /* ---- addresses as text ---- */

  predicate IpChar(c: char) {
    '0' <= c <= '9' || 'a' <= c <= 'f' || 'A' <= c <= 'F' || c == ':' || c == '.'
  }

  predicate IpText(s: string) { s != "" && forall i :: 0 <= i < |s| ==> IpChar(s[i]) }

  predicate CidrText(s: string) { s != "" && forall i :: 0 <= i < |s| ==> IpChar(s[i]) || s[i] == '/' }

  /** Go's `net.ParseIP`, `net.IP.String` and `net.ParseCIDR` (the address and its block). */
  datatype Parser = Parser(ip: string -> Option<IP>, show: IP -> string, cidr: string -> Option<(IP, Cidr)>)

  /** What is used of them: only address characters parse, and a printed address reads back. */
  ghost predicate Sane(t: Parser) {
    && (forall s :: t.ip(s).Some? ==> IpText(s))
    && (forall s :: t.cidr(s).Some? ==> CidrText(s))
    && (forall s: string, a: IP :: t.ip(s) == Some(a) ==> t.ip(t.show(a)) == Some(a))
    && (forall s: string, a: IP, c: Cidr :: t.cidr(s) == Some((a, c)) ==> t.ip(t.show(a)) == Some(a) && c.Valid())
  }

  /* ---- the policy ---- */

  datatype Policy = Policy(
    mesh: string, vmnet: string, anchor: string, meshAddress: string, mtu: int,
    routeCIDRs: set<Cidr>, podCIDRs: set<Cidr>, vmnetCIDRs: set<Cidr>, peerKeys: set<string>)

  datatype Request = Request(name: string, args: seq<string>, stdin: string)

  function Normalize(t: Parser, s: string): Option<Cidr> {
    match t.cidr(s)
    case None => None
    case Some((_, block)) => Some(block)
  }

  /** The blocks of the texts that parse. */
  function NormalizeSet(t: Parser, cidrs: seq<string>): set<Cidr> {
    set s | s in cidrs && Normalize(t, s).Some? :: Normalize(t, s).value
  }

  method NormalizeCIDRSet(t: Parser, cidrs: seq<string>) returns (blocks: set<Cidr>)
    ensures blocks == NormalizeSet(t, cidrs)
  {
    blocks := {};
    for i := 0 to |cidrs|
      invariant blocks == NormalizeSet(t, cidrs[..i])
    {
      assert cidrs[..i + 1] == cidrs[..i] + [cidrs[i]];
      var norm := Normalize(t, cidrs[i]);
      if norm.Some? {
        blocks := blocks + {norm.value};
      }
    }
    assert cidrs[..|cidrs|] == cidrs;
  }

  predicate InSet(t: Parser, raw: string, blocks: set<Cidr>) {
    t.ip(raw).Some? && exists c :: c in blocks && c.Contains(t.ip(raw).value)
  }

  /* ---- interfaces ---- */

  predicate IsBridge(iface: string) {
    && |iface| > 6 && iface[..6] == "bridge"
    && forall i :: 6 <= i < |iface| ==> IsDigit(iface[i])
  }

  predicate VmnetOk(p: Policy, iface: string) {
    p.vmnet != "" && (iface == p.vmnet || IsBridge(iface))
  }

  predicate MeshOk(p: Policy, iface: string) { p.mesh != "" && iface == p.mesh }

  predicate NatOk(p: Policy, iface: string) { VmnetOk(p, iface) || MeshOk(p, iface) }

  /* ---- pf rulesets ---- */

  predicate LintBinat(p: Policy, t: Parser, f: seq<string>)
    requires |f| >= 3
  {
    var i := if |f| > 3 && f[3] == "inet" then 4 else 3;
    && |f| == i + 6 && f[i] == "from" && f[i + 2] == "to" && f[i + 3] == "any" && f[i + 4] == "->"
    && InSet(t, f[i + 1], p.vmnetCIDRs) && InSet(t, f[i + 5], p.podCIDRs)
  }

  /** The first "port" at or after `i`; the length when there is none. */
  function FindPort(f: seq<string>, i: nat): (r: nat)
    requires i <= |f|
    ensures i <= r <= |f| && (r < |f| ==> f[r] == "port") && forall k :: i <= k < r ==> f[k] != "port"
    decreases |f| - i
  {
    if i == |f| || f[i] == "port" then i else FindPort(f, i + 1)
  }

  function TrimComma(s: string): string {
    if s != "" && s[|s| - 1] == ',' then s[..|s| - 1] else s
  }

  function PoolTargets(t: Parser, f: seq<string>): Option<seq<string>> {
    if f == [] then Some([])
    else if t.ip(TrimComma(f[|f| - 1])).None? then None
    else
      match PoolTargets(t, f[..|f| - 1])
      case None => None
      case Some(rest) => Some(rest + [TrimComma(f[|f| - 1])])
  }

  function RdrTargets(t: Parser, f: seq<string>): Option<seq<string>> {
    if f == [] then None
    else if f[0] != "{" then if |f| == 1 && t.ip(f[0]).Some? then Some([f[0]]) else None
    else if |f| < 3 || f[|f| - 1] != "}" then None
    else PoolTargets(t, f[1..|f| - 1])
  }

  method ParseRDRTargets(t: Parser, f: seq<string>) returns (targets: Option<seq<string>>)
    requires Sane(t)
    ensures targets == RdrTargets(t, f)
  {
    if |f| == 0 {
      return None;
    }
    if f[0] != "{" {
      return if |f| == 1 && t.ip(f[0]).Some? then Some([f[0]]) else None;
    }
    if |f| < 3 || f[|f| - 1] != "}" {
      return None;
    }
    var inner, out := f[1..|f| - 1], [];
    for i := 0 to |inner|
      invariant PoolTargets(t, inner[..i]) == Some(out)
    {
      assert inner[..i + 1][..i] == inner[..i];
      var ip := TrimComma(inner[i]);
      if ip == "" || t.ip(ip).None? {
        PoolFails(t, inner, i + 1);
        return None;
      }
      out := out + [ip];
    }
    assert inner[..|inner|] == inner;
    return Some(out);
  }

  /** One token that is not an address spoils the pool. */
  lemma {:induction false} PoolFails(t: Parser, f: seq<string>, n: nat)
    requires n <= |f| && PoolTargets(t, f[..n]).None?
    ensures PoolTargets(t, f).None?
    decreases |f|
  {
    if n == |f| {
      assert f[..n] == f;
    } else {
      assert f[..|f| - 1][..n] == f[..n];
      PoolFails(t, f[..|f| - 1], n);
    }
  }

  predicate LintRdr(p: Policy, t: Parser, f: seq<string>) {
    && |f| >= 16
    && f[3] == "inet" && f[4] == "proto" && (f[5] == "tcp" || f[5] == "udp") && f[6] == "from" && f[7] == "any"
    && f[8] == "to" && f[10] == "port" && f[12] == "->"
    && t.ip(f[9]).Some? && Atoi(f[11]).Some?
    && var port := FindPort(f, 13);
    && port + 1 < |f| && Atoi(f[port + 1]).Some?
    && (|f| == port + 2 || (|f| == port + 3 && f[port + 2] == "round-robin"))
    && RdrTargets(t, f[13..port]).Some?
    && forall x :: x in RdrTargets(t, f[13..port]).value ==> InSet(t, x, p.podCIDRs) || InSet(t, x, p.vmnetCIDRs)
  }

  predicate LintFields(p: Policy, t: Parser, f: seq<string>) {
    && |f| >= 3 && f[1] == "on"
    && (if f[0] == "binat" then NatOk(p, f[2]) && LintBinat(p, t, f)
        else if f[0] == "rdr" then VmnetOk(p, f[2]) && LintRdr(p, t, f)
        else false)
  }

  predicate LintLine(p: Policy, t: Parser, raw: string) {
    var line := TrimSpace(raw);
    line == "" || line[0] == '#' || LintFields(p, t, Fields(line))
  }

  predicate LintAnchor(p: Policy, t: Parser, ruleset: string) {
    p.vmnet != "" && forall line :: line in Split(ruleset, '\n') ==> LintLine(p, t, line)
  }

  /** `lintAnchorRuleset`: the first line that fails refuses the whole ruleset. */
  method LintAnchorRuleset(p: Policy, t: Parser, ruleset: string) returns (ok: bool)
    ensures ok == LintAnchor(p, t, ruleset)
  {
    if p.vmnet == "" {
      return false;
    }
    var lines := Split(ruleset, '\n');
    for i := 0 to |lines|
      invariant forall j :: 0 <= j < i ==> LintLine(p, t, lines[j])
    {
      if !LintLine(p, t, lines[i]) {
        assert lines[i] in lines;
        return false;
      }
    }
    return true;
  }

  /* ---- WireGuard configs ---- */

  /** `strings.Cut(s, "=")`. */
  function Cut(s: string): Option<(string, string)> {
    if s == "" then None
    else if s[0] == '=' then Some(("", s[1..]))
    else
      match Cut(s[1..])
      case None => None
      case Some((k, v)) => Some(([s[0]] + k, v))
  }

  predicate RouteOk(p: Policy, t: Parser, cidr: string) {
    Normalize(t, cidr).Some? && Normalize(t, cidr).value in p.routeCIDRs
  }

  predicate LintWgLine(p: Policy, t: Parser, raw: string) {
    var line := TrimSpace(raw);
    || line == "" || line[0] == '#' || line[0] == '['
    || match Cut(line)
       case None => false
       case Some((k, v)) =>
         var key, val := TrimSpace(k), TrimSpace(v);
         if key == "PublicKey" then val in p.peerKeys
         else if key == "AllowedIPs" then
           forall part :: part in Split(val, ',') ==> RouteOk(p, t, TrimSpace(part))
         else true
  }

  predicate LintWg(p: Policy, t: Parser, cfg: string) {
    forall line :: line in Split(cfg, '\n') ==> LintWgLine(p, t, line)
  }

  /* ---- commands ---- */

  predicate IpEqual(t: Parser, a: string, b: string) {
    t.ip(a).Some? && t.ip(a) == t.ip(b)
  }

  predicate ValidateSysctl(p: Policy, r: Request) {
    && r.stdin == ""
    && (|| r.args == ["-n", "kern.ostype"]
        || (p.vmnet != "" && r.args in {["-w", "net.inet.ip.forwarding=1"], ["-w", "net.inet.ip.forwarding=0"]}))
  }

  predicate AnchorOk(p: Policy, anchor: string) { p.anchor != "" && anchor == p.anchor }

  predicate ValidatePfctl(p: Policy, t: Parser, r: Request) {
    || (r.args == ["-e"] && r.stdin == "")
    || (|r.args| == 4 && r.args[0] == "-a" && AnchorOk(p, r.args[1]) &&
        (|| (r.args[2] == "-F" && r.args[3] == "all" && r.stdin == "")
         || (r.args[2] == "-f" && r.args[3] == "-" && LintAnchor(p, t, r.stdin))))
  }

  predicate ValidateRoute(p: Policy, t: Parser, r: Request) {
    && r.stdin == ""
    && (if |r.args| == 3 && r.args[0] == "-n" && r.args[1] == "get" then InSet(t, r.args[2], p.vmnetCIDRs)
        else
          && |r.args| == 7 && r.args[0] == "-q" && r.args[1] == "-n"
          && (r.args[2] == "add" || r.args[2] == "delete") && (r.args[3] == "-inet" || r.args[3] == "-inet6")
          && (if r.args[2] == "delete" && r.args[3] == "-inet" && r.args[4] == "default"
              then r.args[5] == "-ifscope" && VmnetOk(p, r.args[6])
              else r.args[5] == "-interface" && MeshOk(p, r.args[6]) && RouteOk(p, t, r.args[4])))
  }

  predicate ValidateIfconfig(p: Policy, t: Parser, r: Request) {
    && r.stdin == "" && r.args != [] && MeshOk(p, r.args[0])
    && var rest := r.args[1..];
       if |rest| == 4 && rest[0] == "inet" && rest[3] == "alias" then
         IpEqual(t, rest[1], p.meshAddress) && IpEqual(t, rest[2], p.meshAddress)
       else if |rest| == 2 && rest[0] == "mtu" then
         var n := Atoi(rest[1]);
         n.Some? && n.value > 0 && (p.mtu > 0 ==> n.value == p.mtu)
       else |rest| == 1 && rest[0] in {"up", "down", "destroy"}
  }

  predicate ValidateWG(p: Policy, t: Parser, r: Request) {
    && |r.args| == 3 && (r.args[0] == "setconf" || r.args[0] == "syncconf") && r.args[2] == "/dev/stdin"
    && MeshOk(p, r.args[1]) && LintWg(p, t, r.stdin)
  }

  predicate Validate(p: Policy, t: Parser, r: Request) {
    if r.name == "sysctl" then ValidateSysctl(p, r)
    else if r.name == "pfctl" then ValidatePfctl(p, t, r)
    else if r.name == "route" then ValidateRoute(p, t, r)
    else if r.name == "ifconfig" then ValidateIfconfig(p, t, r)
    else if r.name == "wg" then ValidateWG(p, t, r)
    else if r.name == "wireguard-go" then r.stdin == "" && |r.args| == 1 && MeshOk(p, r.args[0])
    else if r.name == "pkill" then
      r.stdin == "" && |r.args| == 2 && r.args[0] == "-f" && r.args[1] == "wireguard-go " + p.mesh && p.mesh != ""
    else false
  }
}
