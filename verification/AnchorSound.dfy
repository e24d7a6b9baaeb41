/**
 * Every text the helper may be asked to load, not only those the router prints: a ruleset passes if and only if each of
 * its lines is blank, a comment, or spells out one of two kinds of rule with permitted addresses and interfaces.
 */
module AnchorSound {
  import opened Common
  import opened Net
  import opened Text
  import opened Numbers
  import opened Helper
  import A = Anchor

  /* ---- lines as words with space around them ---- */

  predicate Blank(s: string) { forall i :: 0 <= i < |s| ==> IsSpace(s[i]) }

  /** `s` consists of the words `ws` in order, set apart by white space. */
  predicate Spells(s: string, ws: seq<string>)
    decreases |ws|
  {
    if ws == [] then Blank(s)
    else exists i, j :: 0 <= i < j <= |s| && SpellsFirst(s, ws, i, j)
  }

  predicate SpellsFirst(s: string, ws: seq<string>, i: int, j: int)
    requires ws != [] && 0 <= i < j <= |s|
    decreases |ws|, 0
  {
    Blank(s[..i]) && s[i..j] == ws[0] && Word(ws[0]) && (j < |s| ==> IsSpace(s[j])) && Spells(s[j..], ws[1..])
  }

  /** The first character that is not a space is a hash. */
  predicate CommentLine(s: string) { exists i :: 0 <= i < |s| && s[i] == '#' && Blank(s[..i]) }

  lemma {:induction false} BlankFields(s: string)
    ensures Blank(s) <==> Fields(s) == []
  {
    if s != [] {
      if IsSpace(s[0]) {
        BlankFields(s[1..]);
        assert Blank(s[1..]) ==> Blank(s) by { assert forall i :: 0 < i < |s| ==> s[i] == s[1..][i - 1]; }
      } else {
        TakeWordPrefix(s);
      }
    }
  }

  lemma {:induction false} SkipBlank(a: string, s: string)
    requires Blank(a)
    ensures Fields(a + s) == Fields(s)
  {
    if a == [] {
      assert a + s == s;
    } else {
      assert (a + s)[1..] == a[1..] + s;
      SkipBlank(a[1..], s);
    }
  }

  lemma FieldsWord(s: string, w: string, rest: string)
    requires Word(w) && s == w + rest && (rest == [] || IsSpace(rest[0]))
    ensures Fields(s) == [w] + Fields(rest)
  {
    TakeWordOf(w, rest);
    assert s[0] == w[0] && s[|w|..] == rest;
  }

  lemma {:induction false} SpellsFields(s: string, ws: seq<string>)
    requires Spells(s, ws)
    ensures Fields(s) == ws
    decreases |ws|
  {
    if ws == [] {
      BlankFields(s);
    } else {
      var i, j :| 0 <= i < j <= |s| && SpellsFirst(s, ws, i, j);
      assert s == s[..i] + s[i..] && s[i..] == ws[0] + s[j..];
      SkipBlank(s[..i], s[i..]);
      FieldsWord(s[i..], ws[0], s[j..]);
      SpellsFields(s[j..], ws[1..]);
      assert ws == [ws[0]] + ws[1..];
    }
  }

  lemma {:induction false} TakeWordSplits(s: string)
    ensures var w := TakeWord(s);
            && |w| <= |s| && s[..|w|] == w && (forall i :: 0 <= i < |w| ==> !IsSpace(w[i])) && (|w| < |s| ==> IsSpace(s[|w|]))
  {
    if s != [] && !IsSpace(s[0]) {
      TakeWordSplits(s[1..]);
      var v := TakeWord(s[1..]);
      assert s[..|v| + 1] == [s[0]] + s[1..][..|v|];
    }
  }

  lemma {:induction false} FieldsSpell(s: string)
    ensures Spells(s, Fields(s))
    decreases |s|
  {
    if s == [] {
    } else if IsSpace(s[0]) {
      FieldsSpell(s[1..]);
      SpellsAfterSpace(s, Fields(s[1..]));
    } else {
      TakeWordSplits(s);
      TakeWordPrefix(s);
      var w := TakeWord(s);
      FieldsSpell(s[|w|..]);
      assert Fields(s)[1..] == Fields(s[|w|..]) && s[..0] == "" && s[0..|w|] == w;
      assert SpellsFirst(s, Fields(s), 0, |w|);
    }
  }

  lemma SpellsAfterSpace(s: string, ws: seq<string>)
    requires s != [] && IsSpace(s[0]) && Spells(s[1..], ws)
    ensures Spells(s, ws)
  {
    var r := s[1..];
    if ws == [] {
      assert forall i :: 0 < i < |s| ==> s[i] == r[i - 1];
    } else {
      var i, j :| 0 <= i < j <= |r| && SpellsFirst(r, ws, i, j);
      assert s[..i + 1] == [s[0]] + r[..i] && s[i + 1..j + 1] == r[i..j] && s[j + 1..] == r[j..];
      assert SpellsFirst(s, ws, i + 1, j + 1);
    }
  }

  /** The fields of a line are the one list of words it spells. */
  lemma FieldsExact(s: string, ws: seq<string>)
    ensures Fields(s) == ws <==> Spells(s, ws)
  {
    FieldsSpell(s);
    if Spells(s, ws) {
      SpellsFields(s, ws);
    }
  }

  /* ---- trimming ---- */

  lemma {:induction false} TrimLeftSplits(s: string)
    ensures var r := TrimLeft(s);
            |r| <= |s| && s[|s| - |r|..] == r && Blank(s[..|s| - |r|]) && (r != "" ==> !IsSpace(r[0]))
  {
    if s != [] && IsSpace(s[0]) {
      TrimLeftSplits(s[1..]);
      var n := |s| - |TrimLeft(s)|;
      assert s[..n] == [s[0]] + s[1..][..n - 1];
    }
  }

  lemma {:induction false} TrimRightFields(s: string)
    ensures Fields(TrimRight(s)) == Fields(s)
  {
    if s != [] && IsSpace(s[|s| - 1]) {
      TrimRightFields(s[..|s| - 1]);
      FieldsDropSpace(s[..|s| - 1], s[|s| - 1]);
      assert s == s[..|s| - 1] + [s[|s| - 1]];
    }
  }

  lemma {:induction false} FieldsDropSpace(s: string, c: char)
    requires IsSpace(c)
    ensures Fields(s + [c]) == Fields(s)
    decreases |s|
  {
    if s == [] {
      assert s + [c] == [c] && [c][1..] == [];
    } else if IsSpace(s[0]) {
      assert (s + [c])[1..] == s[1..] + [c];
      FieldsDropSpace(s[1..], c);
    } else {
      TakeWordSplits(s);
      TakeWordPrefix(s);
      var w := TakeWord(s);
      assert s == w + s[|w|..] && s + [c] == w + (s[|w|..] + [c]);
      FieldsWord(s + [c], w, s[|w|..] + [c]);
      FieldsWord(s, w, s[|w|..]);
      FieldsDropSpace(s[|w|..], c);
    }
  }

  lemma TrimFields(s: string)
    ensures Fields(TrimSpace(s)) == Fields(s)
    ensures TrimSpace(s) == "" <==> Blank(s)
    ensures TrimSpace(s) != "" && TrimSpace(s)[0] == '#' <==> CommentLine(s)
  {
    TrimLeftSplits(s);
    var r := TrimLeft(s);
    var n := |s| - |r|;
    assert s == s[..n] + r;
    SkipBlank(s[..n], r);
    TrimRightFields(r);
    BlankFields(s);
    if r != "" {
      TrimRightHead(r);
      assert s[n] == r[0];
      if CommentLine(s) {
        var i :| 0 <= i < |s| && s[i] == '#' && Blank(s[..i]);
        assert !IsSpace('#');
        assert forall m :: 0 <= m < i ==> s[m] == s[..i][m];
        assert forall m :: 0 <= m < n ==> s[m] == s[..n][m];
      }
    } else {
      assert Blank(s) by { assert s == s[..n]; }
    }
  }

  /* ---- the two kinds of rule ---- */

  /** A rule as pf reads it; the ports are whatever numbers the text holds. */
  datatype Rule =
    | BinatRule(iface: string, vm: string, pod: string)
    | RdrRule(iface: string, proto: string, dst: string, port: int, targets: seq<string>, targetPort: int)

  /** `b` lists the targets, each with or without a comma after it. */
  predicate Lists(b: seq<string>, targets: seq<string>) {
    |b| == |targets| && forall i :: 0 <= i < |b| ==> b[i] == targets[i] || b[i] == targets[i] + ","
  }

  /** One address, or a pool of them in braces. */
  predicate NamesTargets(ts: seq<string>, targets: seq<string>) {
    || (|targets| == 1 && ts == targets)
    || (targets != [] && |ts| >= 2 && ts[0] == "{" && ts[|ts| - 1] == "}" && Lists(ts[1..|ts| - 1], targets))
  }

  function BinatWords(r: Rule, inet: bool): seq<string>
    requires r.BinatRule?
  {
    ["binat", "on", r.iface] + (if inet then ["inet"] else []) + ["from", r.vm, "to", "any", "->", r.pod]
  }

  function RdrHead(iface: string, proto: string, dst: string, port: string): (f: seq<string>)
    ensures |f| == 13
  {
    ["rdr", "on", iface, "inet", "proto", proto, "from", "any", "to", dst, "port", port, "->"]
  }

  function RdrTail(targetPort: string, pooled: bool): (f: seq<string>)
    ensures |f| == (if pooled then 3 else 2) && f[0] == "port" && f[1] == targetPort && (pooled ==> f[2] == "round-robin")
  {
    ["port", targetPort] + if pooled then ["round-robin"] else []
  }

  function RdrWords(r: Rule, port: string, ts: seq<string>, targetPort: string, pooled: bool): seq<string>
    requires r.RdrRule?
  {
    RdrHead(r.iface, r.proto, r.dst, port) + ts + RdrTail(targetPort, pooled)
  }

  /** The words `f` say the rule `r`. */
  ghost predicate Says(f: seq<string>, r: Rule) {
    match r
    case BinatRule(_, _, _) => f == BinatWords(r, false) || f == BinatWords(r, true)
    case RdrRule(_, _, _, port, targets, targetPort) =>
      exists p, q, ts, pooled :: f == RdrWords(r, p, ts, q, pooled) && Atoi(p) == Some(port) && Atoi(q) == Some(targetPort)
                                 && NamesTargets(ts, targets)
  }

  predicate Decimal(n: string) { n != "" && forall i :: 0 <= i < |n| ==> '0' <= n[i] <= '9' }

  /** `bridge` and a number, as macOS names the interfaces of VM networks. */
  ghost predicate Bridge(iface: string) { exists n :: Decimal(n) && iface == "bridge" + n }

  /** An interface that VMs may sit on: the configured one or a bridge, where VM networking is configured at all. */
  ghost predicate OnVmnet(p: Policy, iface: string) { p.vmnet != "" && (iface == p.vmnet || Bridge(iface)) }

  predicate OnMesh(p: Policy, iface: string) { p.mesh != "" && iface == p.mesh }

  /** The text is an address, and it lies in one of the blocks. */
  ghost predicate Lies(t: Parser, text: string, blocks: set<Cidr>) {
    exists c, ip :: c in blocks && t.ip(text) == Some(ip) && c.Contains(ip)
  }

  /** What the policy permits; it does not look at ports. */
  ghost predicate Permitted(p: Policy, t: Parser, r: Rule) {
    match r
    case BinatRule(iface, vm, pod) =>
      (OnVmnet(p, iface) || OnMesh(p, iface)) && Lies(t, vm, p.vmnetCIDRs) && Lies(t, pod, p.podCIDRs)
    case RdrRule(iface, proto, dst, _, targets, _) =>
      && OnVmnet(p, iface) && (proto == "tcp" || proto == "udp") && t.ip(dst).Some?
      && forall i :: 0 <= i < |targets| ==> Lies(t, targets[i], p.podCIDRs) || Lies(t, targets[i], p.vmnetCIDRs)
  }

  lemma LiesIs(t: Parser, text: string, blocks: set<Cidr>)
    ensures InSet(t, text, blocks) <==> Lies(t, text, blocks)
  {
    if InSet(t, text, blocks) {
      var c :| c in blocks && c.Contains(t.ip(text).value);
      assert t.ip(text) == Some(t.ip(text).value);
    }
  }

  lemma BridgeIs(iface: string)
    ensures IsBridge(iface) <==> Bridge(iface)
  {
    if IsBridge(iface) {
      var n := iface[6..];
      assert forall i :: 0 <= i < |n| ==> n[i] == iface[i + 6];
      assert Decimal(n) && iface == "bridge" + n;
    }
    if Bridge(iface) {
      var n :| Decimal(n) && iface == "bridge" + n;
      assert iface[..6] == "bridge" && forall i :: 6 <= i < |iface| ==> iface[i] == n[i - 6];
    }
  }

  lemma IfaceIs(p: Policy, iface: string)
    ensures VmnetOk(p, iface) <==> OnVmnet(p, iface)
    ensures MeshOk(p, iface) <==> OnMesh(p, iface)
  {
    BridgeIs(iface);
  }

  /** The rule passes the checks on its parts if and only if it is permitted. */
  lemma PermittedIs(p: Policy, t: Parser, r: Rule)
    ensures Permitted(p, t, r) <==> A.Allowed(p, t, match r
                                                     case BinatRule(iface, vm, pod) => A.Binat(iface, vm, pod)
                                                     case RdrRule(iface, proto, dst, _, targets, _) => A.Rdr(iface, proto, dst, 0, targets, 0))
  {
    IfaceIs(p, r.iface);
    match r
    case BinatRule(_, vm, pod) =>
      LiesIs(t, vm, p.vmnetCIDRs);
      LiesIs(t, pod, p.podCIDRs);
    case RdrRule(_, _, _, _, targets, _) =>
      forall i | 0 <= i < |targets|
        ensures InSet(t, targets[i], p.podCIDRs) <==> Lies(t, targets[i], p.podCIDRs)
        ensures InSet(t, targets[i], p.vmnetCIDRs) <==> Lies(t, targets[i], p.vmnetCIDRs)
      {
        LiesIs(t, targets[i], p.podCIDRs);
        LiesIs(t, targets[i], p.vmnetCIDRs);
      }
  }

  /* ---- binat ---- */

  lemma BinatSays(p: Policy, t: Parser, f: seq<string>, r: Rule)
    requires r.BinatRule? && Says(f, r) && Permitted(p, t, r)
    ensures LintFields(p, t, f)
  {
    PermittedIs(p, t, r);
  }

  lemma BinatSound(p: Policy, t: Parser, f: seq<string>) returns (r: Rule)
    requires LintFields(p, t, f) && f[0] == "binat"
    ensures Says(f, r) && Permitted(p, t, r)
  {
    var i := if f[3] == "inet" then 4 else 3;
    r := BinatRule(f[2], f[i + 1], f[i + 5]);
    assert f == BinatWords(r, f[3] == "inet");
    PermittedIs(p, t, r);
  }

  /* ---- rdr ---- */

  lemma {:induction false} PoolNames(t: Parser, b: seq<string>)
    requires PoolTargets(t, b).Some?
    ensures Lists(b, PoolTargets(t, b).value)
    ensures forall i :: 0 <= i < |b| ==> t.ip(PoolTargets(t, b).value[i]).Some?
  {
    if b != [] {
      var n := |b| - 1;
      PoolNames(t, b[..n]);
      var x := b[n];
      assert x == TrimComma(x) || x == TrimComma(x) + ",";
    }
  }

  lemma TargetsNamed(t: Parser, ts: seq<string>)
    requires Sane(t) && RdrTargets(t, ts).Some?
    ensures NamesTargets(ts, RdrTargets(t, ts).value)
    ensures forall i :: 0 <= i < |RdrTargets(t, ts).value| ==> t.ip(RdrTargets(t, ts).value[i]).Some?
  {
    if ts[0] == "{" {
      PoolNames(t, ts[1..|ts| - 1]);
    }
  }

  /** The fixed words of an rdr rule are where they belong. */
  predicate HeadOk(f: seq<string>)
    requires |f| >= 13
  {
    && f[0] == "rdr" && f[1] == "on" && f[3] == "inet" && f[4] == "proto" && f[6] == "from" && f[7] == "any"
    && f[8] == "to" && f[10] == "port" && f[12] == "->"
  }

  lemma HeadIs(f: seq<string>)
    requires |f| >= 13 && HeadOk(f)
    ensures f[..13] == RdrHead(f[2], f[5], f[9], f[11])
  {
  }

  lemma HeadHas(f: seq<string>, iface: string, proto: string, dst: string, port: string)
    requires |f| >= 13 && f[..13] == RdrHead(iface, proto, dst, port)
    ensures HeadOk(f) && f[2] == iface && f[5] == proto && f[9] == dst && f[11] == port
  {
    assert forall i :: 0 <= i < 13 ==> f[i] == f[..13][i];
  }

  lemma IsRdr(p: Policy, t: Parser, f: seq<string>)
    requires LintFields(p, t, f) && f[0] == "rdr"
    ensures VmnetOk(p, f[2]) && LintRdr(p, t, f) && f[1] == "on"
  {
  }

  lemma TailIs(f: seq<string>, port: nat)
    requires port < |f| && f[port] == "port" && (|f| == port + 2 || (|f| == port + 3 && f[port + 2] == "round-robin"))
    ensures f[port..] == RdrTail(f[port + 1], |f| == port + 3)
  {
  }

  /** Where the parts of the rule stand. */
  lemma RdrCut(p: Policy, t: Parser, f: seq<string>)
    requires LintRdr(p, t, f) && f[0] == "rdr" && f[1] == "on"
    ensures var port := FindPort(f, 13);
            && HeadOk(f) && 13 <= port && (|f| == port + 2 || |f| == port + 3)
            && f[port..] == RdrTail(f[port + 1], |f| == port + 3)
  {
    TailIs(f, FindPort(f, 13));
  }

  lemma RdrNumbers(p: Policy, t: Parser, f: seq<string>, port: nat)
    requires LintRdr(p, t, f) && port == FindPort(f, 13) && port + 1 < |f|
    ensures Atoi(f[11]).Some? && Atoi(f[port + 1]).Some? && t.ip(f[9]).Some?
  {
  }

  lemma RdrProto(p: Policy, t: Parser, f: seq<string>)
    requires LintRdr(p, t, f)
    ensures f[5] == "tcp" || f[5] == "udp"
  {
  }

  lemma RdrPlaces(p: Policy, t: Parser, f: seq<string>, port: nat)
    requires LintRdr(p, t, f) && port == FindPort(f, 13) && port + 1 < |f|
    ensures RdrTargets(t, f[13..port]).Some?
    ensures forall x :: x in RdrTargets(t, f[13..port]).value ==> InSet(t, x, p.podCIDRs) || InSet(t, x, p.vmnetCIDRs)
  {
  }

  lemma RdrAllowed(p: Policy, t: Parser, iface: string, proto: string, dst: string, targets: seq<string>)
    requires VmnetOk(p, iface) && (proto == "tcp" || proto == "udp") && t.ip(dst).Some?
    requires forall x :: x in targets ==> InSet(t, x, p.podCIDRs) || InSet(t, x, p.vmnetCIDRs)
    ensures A.Allowed(p, t, A.Rdr(iface, proto, dst, 0, targets, 0))
  {
  }

  /** Put together again, they say the rule. */
  lemma PartsSay(f: seq<string>, port: nat, pooled: bool, r: Rule)
    requires r.RdrRule? && 13 <= port && port + 1 < |f|
    requires f[..13] == RdrHead(r.iface, r.proto, r.dst, f[11]) && f[port..] == RdrTail(f[port + 1], pooled)
    requires Atoi(f[11]) == Some(r.port) && Atoi(f[port + 1]) == Some(r.targetPort) && NamesTargets(f[13..port], r.targets)
    ensures Says(f, r)
  {
    assert f == f[..13] + f[13..port] + f[port..];
    assert f == RdrWords(r, f[11], f[13..port], f[port + 1], pooled);
  }

  lemma RdrSound(p: Policy, t: Parser, f: seq<string>) returns (r: Rule)
    requires Sane(t) && LintRdr(p, t, f) && VmnetOk(p, f[2]) && f[0] == "rdr" && f[1] == "on"
    ensures Says(f, r) && Permitted(p, t, r)
  {
    RdrCut(p, t, f);
    var port := FindPort(f, 13);
    RdrNumbers(p, t, f, port);
    RdrProto(p, t, f);
    RdrPlaces(p, t, f, port);
    RdrAllowed(p, t, f[2], f[5], f[9], RdrTargets(t, f[13..port]).value);
    TargetsNamed(t, f[13..port]);
    HeadIs(f);
    r := RdrRule(f[2], f[5], f[9], Atoi(f[11]).value, RdrTargets(t, f[13..port]).value, Atoi(f[port + 1]).value);
    PartsSay(f, port, |f| == port + 3, r);
    PermittedIs(p, t, r);
  }

  lemma TargetWord(t: Parser, x: string)
    requires Sane(t) && t.ip(x).Some?
    ensures x != "{" && x != "port" && x + "," != "port" && TrimComma(x + ",") == x && TrimComma(x) == x
  {
    A.IpWord(t, x);
  }

  lemma OneTarget(t: Parser, x: string)
    requires Sane(t) && t.ip(x).Some?
    ensures RdrTargets(t, [x]) == Some([x]) && x != "port"
  {
    TargetWord(t, x);
  }

  /** Reading back the targets that are named. */
  lemma NamedTargets(t: Parser, ts: seq<string>, targets: seq<string>)
    requires Sane(t) && NamesTargets(ts, targets) && forall i :: 0 <= i < |targets| ==> t.ip(targets[i]).Some?
    ensures RdrTargets(t, ts) == Some(targets) && ts != [] && forall i :: 0 <= i < |ts| ==> ts[i] != "port"
  {
    if |targets| == 1 && ts == targets {
      assert ts == [targets[0]];
      OneTarget(t, targets[0]);
    } else {
      NamedPool(t, ts, targets);
    }
  }

  lemma NamedPool(t: Parser, ts: seq<string>, targets: seq<string>)
    requires Sane(t) && NamesTargets(ts, targets) && !(|targets| == 1 && ts == targets) && forall i :: 0 <= i < |targets| ==> t.ip(targets[i]).Some?
    ensures RdrTargets(t, ts) == Some(targets) && ts != [] && forall i :: 0 <= i < |ts| ==> ts[i] != "port"
  {
    forall i | 0 <= i < |targets|
      ensures targets[i] != "{" && targets[i] != "port" && targets[i] + "," != "port"
      ensures TrimComma(targets[i] + ",") == targets[i] && TrimComma(targets[i]) == targets[i]
    {
      TargetWord(t, targets[i]);
    }
    A.PoolReads(t, ts[1..|ts| - 1], targets);
    assert forall i :: 1 <= i < |ts| - 1 ==> ts[i] == ts[1..|ts| - 1][i - 1];
  }

  lemma RdrLayout(f: seq<string>, r: Rule, port: string, ts: seq<string>, q: string, pooled: bool)
    requires r.RdrRule? && f == RdrWords(r, port, ts, q, pooled) && ts != [] && forall i :: 0 <= i < |ts| ==> ts[i] != "port"
    ensures var n := |ts|;
            && |f| == 15 + n + (if pooled then 1 else 0) && f[13..13 + n] == ts && FindPort(f, 13) == 13 + n
            && f[13 + n] == "port" && f[14 + n] == q && (pooled ==> f[15 + n] == "round-robin")
            && f[..13] == RdrHead(r.iface, r.proto, r.dst, port)
  {
    var n, head, tail := |ts|, RdrHead(r.iface, r.proto, r.dst, port), RdrTail(q, pooled);
    assert f == head + ts + tail;
    assert f[..13] == head && f[13..13 + n] == ts && f[13 + n..] == tail;
    assert forall k :: 13 <= k < 13 + n ==> f[k] == ts[k - 13];
    assert f[13 + n] == tail[0] && f[14 + n] == tail[1];
    A.FindPortAt(f, 13, 13 + n);
  }

  lemma RdrSays(p: Policy, t: Parser, f: seq<string>, r: Rule)
    requires Sane(t) && r.RdrRule? && Says(f, r) && Permitted(p, t, r)
    ensures LintFields(p, t, f)
  {
    var port, q, ts, pooled :| f == RdrWords(r, port, ts, q, pooled) && Atoi(port) == Some(r.port) && Atoi(q) == Some(r.targetPort)
                               && NamesTargets(ts, r.targets);
    RdrSaysWith(p, t, f, r, port, q, ts, pooled);
  }

  lemma TargetsIps(p: Policy, t: Parser, r: Rule)
    requires r.RdrRule? && Permitted(p, t, r)
    ensures forall i :: 0 <= i < |r.targets| ==> t.ip(r.targets[i]).Some?
    ensures forall x :: x in r.targets ==> InSet(t, x, p.podCIDRs) || InSet(t, x, p.vmnetCIDRs)
    ensures VmnetOk(p, r.iface)
  {
    PermittedIs(p, t, r);
  }

  lemma RdrSaysWith(p: Policy, t: Parser, f: seq<string>, r: Rule, port: string, q: string, ts: seq<string>, pooled: bool)
    requires Sane(t) && r.RdrRule? && Permitted(p, t, r) && f == RdrWords(r, port, ts, q, pooled)
    requires Atoi(port) == Some(r.port) && Atoi(q) == Some(r.targetPort) && NamesTargets(ts, r.targets)
    ensures LintFields(p, t, f)
  {
    TargetsIps(p, t, r);
    NamedTargets(t, ts, r.targets);
    RdrLayout(f, r, port, ts, q, pooled);
    HeadHas(f, r.iface, r.proto, r.dst, port);
    A.RdrParts(p, t, f, |ts|, r.targets);
  }

  /* ---- the theorem ---- */

  /** The words of a line pass if and only if they say a permitted rule. */
  lemma FieldsPassIff(p: Policy, t: Parser, f: seq<string>)
    requires Sane(t)
    ensures LintFields(p, t, f) <==> exists r :: Says(f, r) && Permitted(p, t, r)
  {
    if LintFields(p, t, f) {
      if f[0] == "binat" {
        var r := BinatSound(p, t, f);
      } else {
        IsRdr(p, t, f);
        var r := RdrSound(p, t, f);
      }
    }
    if r :| Says(f, r) && Permitted(p, t, r) {
      if r.BinatRule? {
        BinatSays(p, t, f, r);
      } else {
        RdrSays(p, t, f, r);
      }
    }
  }

  /** The line spells out a permitted rule. */
  ghost predicate StatesRule(p: Policy, t: Parser, line: string) {
    exists f, r :: Spells(line, f) && Says(f, r) && Permitted(p, t, r)
  }

  lemma LinePassIff(p: Policy, t: Parser, line: string)
    requires Sane(t)
    ensures LintLine(p, t, line) <==> Blank(line) || CommentLine(line) || StatesRule(p, t, line)
  {
    TrimFields(line);
    FieldsSpell(line);
    FieldsPassIff(p, t, Fields(line));
    if StatesRule(p, t, line) {
      var f, r :| Spells(line, f) && Says(f, r) && Permitted(p, t, r);
      SpellsFields(line, f);
    }
  }

  /**
   * Whatever the text: the helper accepts a ruleset if and only if a vmnet interface is configured and each line is
   * blank, a comment, or spells out a permitted binat or rdr rule. A pass, nat or block rule is always refused.
   */
  lemma AnchorPassIff(p: Policy, t: Parser, ruleset: string)
    requires Sane(t)
    ensures LintAnchor(p, t, ruleset) <==>
            && p.vmnet != ""
            && forall line :: line in Split(ruleset, '\n') ==> Blank(line) || CommentLine(line) || StatesRule(p, t, line)
  {
    forall line | line in Split(ruleset, '\n')
      ensures LintLine(p, t, line) <==> Blank(line) || CommentLine(line) || StatesRule(p, t, line)
    {
      LinePassIff(p, t, line);
    }
  }

  lemma CommentIff(s: string, i: nat)
    requires i < |s| && Blank(s[..i]) && !IsSpace(s[i])
    ensures CommentLine(s) <==> s[i] == '#'
  {
    if CommentLine(s) {
      var m :| 0 <= m < |s| && s[m] == '#' && Blank(s[..m]);
      assert !IsSpace('#');
      assert forall n :: 0 <= n < i ==> s[n] == s[..i][n];
      assert forall n :: 0 <= n < m ==> s[n] == s[..m][n];
    }
  }

  /** A line whose first word is another one than `binat` or `rdr`, comments apart, spoils any ruleset it is in. */
  lemma OtherRuleRefused(p: Policy, t: Parser, ruleset: string, line: string, word: string, rest: seq<string>)
    requires Sane(t) && line in Split(ruleset, '\n') && Spells(line, [word] + rest)
    requires word != "binat" && word != "rdr" && (word != "" ==> word[0] != '#')
    ensures !LintAnchor(p, t, ruleset)
  {
    SpellsFields(line, [word] + rest);
    TrimFields(line);
    BlankFields(line);
    var i, j :| 0 <= i < j <= |line| && SpellsFirst(line, [word] + rest, i, j);
    assert line[i] == line[i..j][0];
    CommentIff(line, i);
  }

  /* ---- lines of a ruleset ---- */

  /** Lines joined by newlines. */
  function Joined(lines: seq<string>): string
    requires lines != []
  {
    if |lines| == 1 then lines[0] else lines[0] + "\n" + Joined(lines[1..])
  }

  /** The lines of a text are the one list without newlines that joins to it. */
  lemma {:induction false} SplitJoins(s: string)
    ensures var ls := Split(s, '\n'); ls != [] && Joined(ls) == s && forall i :: 0 <= i < |ls| ==> '\n' !in ls[i]
  {
    if s != [] {
      SplitJoins(s[1..]);
      var r := Split(s[1..], '\n');
      if s[0] != '\n' && |r| > 1 {
        assert ([[s[0]] + r[0]] + r[1..])[1..] == r[1..];
        assert s == [s[0]] + (r[0] + "\n" + Joined(r[1..]));
      } else if s[0] == '\n' {
        assert ([""] + r)[1..] == r;
        assert s == "\n" + s[1..];
      }
    }
  }

  /* ---- what the router prints ---- */

  /** The rule a line stands for. */
  function RuleOf(l: A.Line): Rule
    requires !l.Comment?
  {
    match l
    case Binat(iface, vm, pod) => BinatRule(iface, vm, pod)
    case Rdr(iface, proto, clusterIP, port, targets, targetPort) => RdrRule(iface, proto, clusterIP, port, targets, targetPort)
  }

  lemma TokensSay(t: Parser, l: A.Line)
    requires Sane(t) && !l.Comment? && A.Printable(t, l)
    ensures Says(A.Tokens(l), RuleOf(l))
  {
    if l.Binat? {
      assert A.Tokens(l) == BinatWords(RuleOf(l), false);
    } else {
      AtoiItoa(l.port);
      AtoiItoa(l.targetPort);
      var ts := A.TargetTokens(l.targets);
      TokensName(l.targets);
      assert A.Tokens(l) == RdrWords(RuleOf(l), Itoa(l.port), ts, Itoa(l.targetPort), |l.targets| != 1);
    }
  }

  lemma TokensName(targets: seq<string>)
    requires targets != []
    ensures NamesTargets(A.TargetTokens(targets), targets)
  {
    var ts := A.TargetTokens(targets);
    if |targets| == 1 {
      assert ts == targets;
    } else {
      assert ts[1..|ts| - 1] == A.PoolBody(targets);
    }
  }

  /** The text of a printed rule spells out that very rule: its interface, addresses, ports and targets. */
  lemma LineSays(t: Parser, l: A.Line)
    requires Sane(t) && !l.Comment? && A.Printable(t, l)
    ensures Spells(A.LineText(l), A.Tokens(l)) && Says(A.Tokens(l), RuleOf(l))
  {
    A.TokensWords(t, l);
    FieldsJoin(A.Tokens(l));
    FieldsSpell(A.LineText(l));
    TokensSay(t, l);
  }

  /** And a printed comment is a comment. */
  lemma CommentSays(text: string)
    ensures CommentLine(A.LineText(A.Comment(text)))
  {
    var s := A.LineText(A.Comment(text));
    assert s[0] == '#' && s[..0] == "";
  }

  /** Targets with a comma and a space between them. */
  function Commas(targets: seq<string>): string
    requires targets != []
  {
    if |targets| == 1 then targets[0] else targets[0] + ", " + Commas(targets[1..])
  }

  /** A pool is printed as its targets between braces, separated by commas. */
  lemma {:induction false} PoolText(targets: seq<string>)
    requires targets != []
    ensures JoinWords(A.PoolBody(targets)) == Commas(targets)
  {
    if |targets| > 1 {
      PoolText(targets[1..]);
      var b := A.PoolBody(targets);
      assert b[0] == targets[0] + "," && b[1..] == A.PoolBody(targets[1..]);
      assert targets[0] + "," + " " + Commas(targets[1..]) == targets[0] + ", " + Commas(targets[1..]);
    }
  }
}
