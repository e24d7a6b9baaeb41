/** pf anchor text: the lines the router prints, and exactly when the helper accepts them. */
module Anchor {
  import opened Common
  import opened Net
  import opened Text
  import opened Numbers
  import opened Helper

  datatype Line =
    | Comment(text: string)
    | Binat(iface: string, vm: string, pod: string)
    | Rdr(iface: string, proto: string, clusterIP: string, port: nat, targets: seq<string>, targetPort: nat)

  /** Targets inside the braces: a comma after all but the last. */
  function PoolBody(targets: seq<string>): (f: seq<string>)
    ensures |f| == |targets|
  {
    seq(|targets|, i requires 0 <= i < |targets| => if i < |targets| - 1 then targets[i] + "," else targets[i])
  }

  function TargetTokens(targets: seq<string>): seq<string> {
    if |targets| == 1 then [targets[0]] else ["{"] + PoolBody(targets) + ["}"]
  }

  function RdrHead(l: Line): (f: seq<string>)
    requires l.Rdr?
    ensures |f| == 13
  {
    ["rdr", "on", l.iface, "inet", "proto", l.proto, "from", "any", "to", l.clusterIP, "port", Itoa(l.port), "->"]
  }

  function RdrTail(l: Line): seq<string>
    requires l.Rdr?
  {
    ["port", Itoa(l.targetPort)] + if |l.targets| == 1 then [] else ["round-robin"]
  }

  function Tokens(l: Line): seq<string>
    requires !l.Comment?
  {
    match l
    case Binat(iface, vm, pod) => ["binat", "on", iface, "from", vm, "to", "any", "->", pod]
    case Rdr(_, _, _, _, _, _) => RdrHead(l) + TargetTokens(l.targets) + RdrTail(l)
  }

  function LineText(l: Line): string {
    match l
    case Comment(text) => "# " + text
    case _ => JoinWords(Tokens(l))
  }

  function Texts(lines: seq<Line>): (r: seq<string>)
    ensures |r| == |lines|
  {
    seq(|lines|, i requires 0 <= i < |lines| => LineText(lines[i]))
  }

  function AnchorText(lines: seq<Line>): string { Unlines(Texts(lines)) }

  /** Fit to print: names are words, comments stay on their line, targets are addresses, ports are Go ints. */
  predicate Printable(t: Parser, l: Line) {
    match l
    case Comment(text) => '\n' !in text
    case Binat(iface, vm, pod) => Word(iface) && Word(vm) && Word(pod)
    case Rdr(iface, proto, clusterIP, port, targets, targetPort) =>
      && Word(iface) && Word(proto) && Word(clusterIP) && targets != []
      && (forall i :: 0 <= i < |targets| ==> t.ip(targets[i]).Some?)
      && port < 0x8000_0000_0000_0000 && targetPort < 0x8000_0000_0000_0000
  }

  /** What the helper is meant to allow, said of the rule and not of its text. */
  predicate Allowed(p: Policy, t: Parser, l: Line) {
    match l
    case Comment(_) => true
    case Binat(iface, vm, pod) => NatOk(p, iface) && InSet(t, vm, p.vmnetCIDRs) && InSet(t, pod, p.podCIDRs)
    case Rdr(iface, proto, clusterIP, _, targets, _) =>
      && VmnetOk(p, iface) && (proto == "tcp" || proto == "udp") && t.ip(clusterIP).Some?
      && forall i :: 0 <= i < |targets| ==> InSet(t, targets[i], p.podCIDRs) || InSet(t, targets[i], p.vmnetCIDRs)
  }

  /* ---- words ---- */

  lemma IpWord(t: Parser, s: string)
    requires Sane(t) && t.ip(s).Some?
    ensures Word(s) && Word(s + ",") && s != "port" && s != "{" && s + "," != "port"
    ensures TrimComma(s + ",") == s && TrimComma(s) == s
  {
    assert IpText(s) && IpChar(s[0]) && IpChar(s[|s| - 1]);
    assert "port"[0] == 'p' && "{"[0] == '{';
    var c := s + ",";
    assert c[|s|] == ',' && c[..|s|] == s && c[0] == s[0];
  }

  lemma ItoaWord(n: nat)
    ensures Word(Itoa(n))
  {
  }

  lemma TargetTokensPlain(t: Parser, targets: seq<string>)
    requires Sane(t) && targets != [] && forall i :: 0 <= i < |targets| ==> t.ip(targets[i]).Some?
    ensures forall i :: 0 <= i < |TargetTokens(targets)| ==>
              Word(TargetTokens(targets)[i]) && TargetTokens(targets)[i] != "port"
  {
    forall i | 0 <= i < |targets|
      ensures Word(targets[i]) && Word(targets[i] + ",") && targets[i] != "port" && targets[i] + "," != "port"
    {
      IpWord(t, targets[i]);
    }
  }

  ghost predicate AllWords(f: seq<string>) { forall i :: 0 <= i < |f| ==> Word(f[i]) }

  lemma FixedWords()
    ensures AllWords(["binat", "on", "from", "to", "any", "->"])
    ensures AllWords(["rdr", "inet", "proto", "port", "round-robin"])
  {
  }

  lemma BinatWords(l: Line)
    requires l.Binat? && Word(l.iface) && Word(l.vm) && Word(l.pod)
    ensures AllWords(Tokens(l))
  {
    FixedWords();
    var w := ["binat", "on", "from", "to", "any", "->"];
    assert Word(w[0]) && Word(w[1]) && Word(w[2]) && Word(w[3]) && Word(w[4]) && Word(w[5]);
  }

  lemma RdrEndsWords(l: Line)
    requires l.Rdr? && Word(l.iface) && Word(l.proto) && Word(l.clusterIP)
    ensures AllWords(RdrHead(l)) && AllWords(RdrTail(l))
  {
    FixedWords();
    ItoaWord(l.port);
    ItoaWord(l.targetPort);
    var v, w := ["binat", "on", "from", "to", "any", "->"], ["rdr", "inet", "proto", "port", "round-robin"];
    assert Word(v[1]) && Word(v[2]) && Word(v[3]) && Word(v[4]) && Word(v[5]);
    assert Word(w[0]) && Word(w[1]) && Word(w[2]) && Word(w[3]) && Word(w[4]);
  }

  lemma TokensWords(t: Parser, l: Line)
    requires Sane(t) && !l.Comment? && Printable(t, l)
    ensures Tokens(l) != [] && AllWords(Tokens(l))
  {
    if l.Rdr? {
      TargetTokensPlain(t, l.targets);
      RdrEndsWords(l);
    } else {
      BinatWords(l);
    }
  }

  /* ---- targets ---- */

  lemma {:induction false} PoolReads(t: Parser, f: seq<string>, targets: seq<string>)
    requires |f| == |targets| && forall i :: 0 <= i < |f| ==> TrimComma(f[i]) == targets[i] && t.ip(targets[i]).Some?
    ensures PoolTargets(t, f) == Some(targets)
  {
    if f != [] {
      PoolReads(t, f[..|f| - 1], targets[..|f| - 1]);
      assert targets == targets[..|f| - 1] + [targets[|f| - 1]];
    }
  }

  /** The helper reads back exactly the targets that were printed. */
  lemma TargetsReadBack(t: Parser, targets: seq<string>)
    requires Sane(t) && targets != [] && forall i :: 0 <= i < |targets| ==> t.ip(targets[i]).Some?
    ensures RdrTargets(t, TargetTokens(targets)) == Some(targets)
  {
    forall i | 0 <= i < |targets|
      ensures targets[i] != "{" && TrimComma(targets[i] + ",") == targets[i] && TrimComma(targets[i]) == targets[i]
    {
      IpWord(t, targets[i]);
    }
    var f := TargetTokens(targets);
    if |targets| == 1 {
      assert targets == [targets[0]];
    } else {
      assert f[1..|f| - 1] == PoolBody(targets);
      PoolReads(t, PoolBody(targets), targets);
    }
  }

  lemma {:induction false} FindPortAt(f: seq<string>, i: nat, at: nat)
    requires i <= at < |f| && f[at] == "port" && forall k :: i <= k < at ==> f[k] != "port"
    ensures FindPort(f, i) == at
    decreases at - i
  {
    if i < at {
      FindPortAt(f, i + 1, at);
    }
  }

  /* ---- one line ---- */

  /** Where the parts of a printed rdr rule land among its fields. */
  lemma RdrShape(t: Parser, l: Line)
    requires Sane(t) && l.Rdr? && Printable(t, l)
    ensures var f, n := Tokens(l), |TargetTokens(l.targets)|;
            && |f| == 13 + n + |RdrTail(l)| && n >= 1
            && f[..13] == RdrHead(l) && f[13..13 + n] == TargetTokens(l.targets) && f[13 + n..] == RdrTail(l)
            && FindPort(f, 13) == 13 + n
  {
    var f, n := Tokens(l), |TargetTokens(l.targets)|;
    assert f[..13] == RdrHead(l) && f[13..13 + n] == TargetTokens(l.targets) && f[13 + n..] == RdrTail(l);
    TargetTokensPlain(t, l.targets);
    assert forall k :: 13 <= k < 13 + n ==> f[k] == TargetTokens(l.targets)[k - 13];
    assert f[13 + n] == RdrTail(l)[0];
    FindPortAt(f, 13, 13 + n);
  }

  /** With the fixed tokens in place, what the rdr check still looks at. */
  lemma RdrParts(p: Policy, t: Parser, f: seq<string>, n: nat, targets: seq<string>)
    requires n >= 1 && (|f| == 15 + n || (|f| == 16 + n && f[15 + n] == "round-robin"))
    requires f[3] == "inet" && f[4] == "proto" && f[6] == "from" && f[7] == "any" && f[8] == "to" && f[10] == "port"
    requires f[12] == "->" && FindPort(f, 13) == 13 + n && Atoi(f[11]).Some? && Atoi(f[14 + n]).Some?
    requires RdrTargets(t, f[13..13 + n]) == Some(targets)
    ensures LintRdr(p, t, f) <==>
            && (f[5] == "tcp" || f[5] == "udp") && t.ip(f[9]).Some?
            && forall x :: x in targets ==> InSet(t, x, p.podCIDRs) || InSet(t, x, p.vmnetCIDRs)
  {
  }

  lemma RdrExact(p: Policy, t: Parser, l: Line)
    requires Sane(t) && l.Rdr? && Printable(t, l)
    ensures LintFields(p, t, Tokens(l)) <==> Allowed(p, t, l)
  {
    var f, n := Tokens(l), |TargetTokens(l.targets)|;
    RdrShape(t, l);
    TargetsReadBack(t, l.targets);
    AtoiItoa(l.port);
    AtoiItoa(l.targetPort);
    HeadTokens(f, l);
    assert f[14 + n] == RdrTail(l)[1];
    assert |RdrTail(l)| == 3 ==> f[15 + n] == "round-robin";
    RdrParts(p, t, f, n, l.targets);
  }

  lemma HeadTokens(f: seq<string>, l: Line)
    requires l.Rdr? && |f| >= 13 && f[..13] == RdrHead(l)
    ensures f[0] == "rdr" && f[1] == "on" && f[2] == l.iface && f[3] == "inet" && f[4] == "proto" && f[5] == l.proto
    ensures f[6] == "from" && f[7] == "any" && f[8] == "to" && f[9] == l.clusterIP && f[10] == "port"
    ensures f[11] == Itoa(l.port) && f[12] == "->"
  {
    assert forall i :: 0 <= i < 13 ==> f[i] == f[..13][i];
  }

  lemma BinatExact(p: Policy, t: Parser, l: Line)
    requires l.Binat?
    ensures LintFields(p, t, Tokens(l)) <==> Allowed(p, t, l)
  {
  }

  /** A rule is judged by the fields it was printed from. */
  lemma RuleLine(p: Policy, t: Parser, f: seq<string>)
    requires f != [] && AllWords(f) && (f[0] == "binat" || f[0] == "rdr")
    ensures LintLine(p, t, JoinWords(f)) <==> LintFields(p, t, f)
    ensures '\n' !in JoinWords(f)
  {
    JoinTrims(f);
    JoinEnds(f);
    FieldsJoin(f);
  }

  /** A printed line passes the line check exactly when its rule is allowed. */
  lemma LineExact(p: Policy, t: Parser, l: Line)
    requires Sane(t) && Printable(t, l)
    ensures LintLine(p, t, LineText(l)) <==> Allowed(p, t, l)
    ensures '\n' !in LineText(l)
  {
    if l.Comment? {
      assert LineText(l)[0] == '#' && !IsSpace('#');
      TrimRightHead(LineText(l));
    } else {
      TokensWords(t, l);
      RuleLine(p, t, Tokens(l));
      if l.Rdr? {
        RdrExact(p, t, l);
      } else {
        BinatExact(p, t, l);
      }
    }
  }

  /* ---- the whole anchor ---- */

  /** The helper accepts a printed anchor if and only if every rule in it is allowed. */
  lemma AnchorExact(p: Policy, t: Parser, lines: seq<Line>)
    requires Sane(t) && forall i :: 0 <= i < |lines| ==> Printable(t, lines[i])
    ensures LintAnchor(p, t, AnchorText(lines)) <==>
            p.vmnet != "" && forall i :: 0 <= i < |lines| ==> Allowed(p, t, lines[i])
  {
    var texts := Texts(lines);
    forall i | 0 <= i < |lines|
      ensures '\n' !in texts[i] && (LintLine(p, t, texts[i]) <==> Allowed(p, t, lines[i]))
    {
      LineExact(p, t, lines[i]);
    }
    SplitUnlines(texts);
    var split := Split(AnchorText(lines), '\n');
    assert split == texts + [""];
    assert forall i :: 0 <= i < |lines| ==> texts[i] in split;
    assert forall line :: line in split ==> line == "" || exists i :: 0 <= i < |lines| && texts[i] == line;
  }
}
