/** The WireGuard mesh: the config it renders, the commands it runs, and the host routes it reconciles. */
module WireGuard {
  import opened Common
  import opened Net
  import opened Text
  import opened Numbers
  import opened Helper

  datatype Peer = Peer(name: string, key: string, endpoint: string, allowed: seq<string>, keepalive: int)

  datatype Interface = Interface(
    name: string, privateKey: string, address: string, listenPort: int, mtu: int, peers: seq<Peer>)

  /* ---- validation ---- */

  /** `HostPort` stands for `net.SplitHostPort` succeeding. */
  predicate PeerValid(t: Parser, hostPort: string -> bool, p: Peer) {
    && p.key != "" && p.allowed != []
    && (forall i :: 0 <= i < |p.allowed| ==> t.cidr(p.allowed[i]).Some?)
    && (p.endpoint != "" ==> hostPort(p.endpoint)) && p.keepalive >= 0
  }

  predicate IfaceValid(t: Parser, hostPort: string -> bool, c: Interface) {
    && c.name != "" && c.privateKey != "" && c.address != "" && t.cidr(c.address).Some?
    && 1 <= c.listenPort <= 65535 && c.mtu >= 0
    && (forall i :: 0 <= i < |c.peers| ==> PeerValid(t, hostPort, c.peers[i]))
    && (forall i, j :: 0 <= i < j < |c.peers| ==> c.peers[i].key != c.peers[j].key)
  }

  method ValidatePeer(t: Parser, hostPort: string -> bool, p: Peer) returns (ok: bool)
    ensures ok == PeerValid(t, hostPort, p)
  {
    if p.key == "" || |p.allowed| == 0 {
      return false;
    }
    for i := 0 to |p.allowed|
      invariant forall j :: 0 <= j < i ==> t.cidr(p.allowed[j]).Some?
    {
      if t.cidr(p.allowed[i]).None? {
        return false;
      }
    }
    if p.endpoint != "" && !hostPort(p.endpoint) {
      return false;
    }
    return p.keepalive >= 0;
  }

  /** The loop over `seen` keys finds a shared one exactly when two peers have it. */
  method Validate(t: Parser, hostPort: string -> bool, c: Interface) returns (ok: bool)
    ensures ok == IfaceValid(t, hostPort, c)
  {
    if c.name == "" || c.privateKey == "" || c.address == "" || t.cidr(c.address).None?
       || c.listenPort < 1 || c.listenPort > 65535 || c.mtu < 0 {
      return false;
    }
    var seen: set<string> := {};
    for i := 0 to |c.peers|
      invariant seen == set j | 0 <= j < i :: c.peers[j].key
      invariant forall j :: 0 <= j < i ==> PeerValid(t, hostPort, c.peers[j])
      invariant forall j, k :: 0 <= j < k < i ==> c.peers[j].key != c.peers[k].key
    {
      var valid := ValidatePeer(t, hostPort, c.peers[i]);
      if !valid {
        return false;
      }
      if c.peers[i].key in seen {
        return false;
      }
      seen := seen + {c.peers[i].key};
    }
    return true;
  }

  /* ---- route targets ---- */

  function TargetSet(peers: seq<Peer>): set<string> {
    set i, j | 0 <= i < |peers| && 0 <= j < |peers[i].allowed| :: peers[i].allowed[j]
  }

  /** The de-duplicated, sorted union of all peers' AllowedIPs. */
  method RouteTargets(peers: seq<Peer>) returns (out: seq<string>)
    ensures out == SortedKeys(TargetSet(peers))
  {
    var seen: set<string> := {};
    for i := 0 to |peers|
      invariant seen == TargetSet(peers[..i])
    {
      for j := 0 to |peers[i].allowed|
        invariant seen == TargetSet(peers[..i]) + set k | 0 <= k < j :: peers[i].allowed[k]
      {
        seen := seen + {peers[i].allowed[j]};
      }
      TargetsSnoc(peers, i);
    }
    assert peers[..|peers|] == peers;
    out := CollectSorted(seen);
  }

  lemma TargetsSnoc(peers: seq<Peer>, i: nat)
    requires i < |peers|
    ensures TargetSet(peers[..i + 1]) ==
            TargetSet(peers[..i]) + set k | 0 <= k < |peers[i].allowed| :: peers[i].allowed[k]
  {
    var a, b := peers[..i + 1], peers[..i];
    forall s | s in TargetSet(a)
      ensures s in TargetSet(b) + set k | 0 <= k < |peers[i].allowed| :: peers[i].allowed[k]
    {
      var m, j :| 0 <= m < |a| && 0 <= j < |a[m].allowed| && a[m].allowed[j] == s;
      if m < i {
        assert b[m] == a[m];
      }
    }
    forall s | s in TargetSet(b)
      ensures s in TargetSet(a)
    {
      var m, j :| 0 <= m < |b| && 0 <= j < |b[m].allowed| && b[m].allowed[j] == s;
      assert a[m] == b[m];
    }
    forall k | 0 <= k < |peers[i].allowed|
      ensures peers[i].allowed[k] in TargetSet(a)
    {
      assert a[i] == peers[i];
    }
  }

  /* ---- the config text ---- */

  function JoinComma(cs: seq<string>): string {
    if cs == [] then "" else if |cs| == 1 then cs[0] else cs[0] + ", " + JoinComma(cs[1..])
  }

  datatype WgLine = Section(name: string) | Note(text: string) | Blank | Setting(key: string, value: string)

  function WgText(l: WgLine): string {
    match l
    case Section(name) => "[" + name + "]"
    case Note(text) => "# " + text
    case Blank => ""
    case Setting(k, v) => k + " = " + v
  }

  function PeerLines(p: Peer): seq<WgLine> {
    [Section("Peer")]
    + (if p.name != "" then [Note(p.name)] else [])
    + [Setting("PublicKey", p.key)]
    + (if p.endpoint != "" then [Setting("Endpoint", p.endpoint)] else [])
    + [Setting("AllowedIPs", JoinComma(p.allowed))]
    + (if p.keepalive > 0 then [Setting("PersistentKeepalive", Itoa(p.keepalive))] else [])
  }

  function InsertPeer(p: Peer, s: seq<Peer>): seq<Peer> {
    if s == [] || StrLE(p.key, s[0].key) then [p] + s else [s[0]] + InsertPeer(p, s[1..])
  }

  function SortPeers(s: seq<Peer>): seq<Peer> {
    if s == [] then [] else InsertPeer(s[0], SortPeers(s[1..]))
  }

  lemma {:induction false} SortPeersMembers(s: seq<Peer>)
    ensures forall p :: p in SortPeers(s) <==> p in s
  {
    if s != [] {
      SortPeersMembers(s[1..]);
      InsertPeerMembers(s[0], SortPeers(s[1..]));
      assert s == [s[0]] + s[1..];
    }
  }

  lemma {:induction false} InsertPeerMembers(x: Peer, s: seq<Peer>)
    ensures forall p :: p in InsertPeer(x, s) <==> p == x || p in s
  {
    if s != [] && !StrLE(x.key, s[0].key) {
      InsertPeerMembers(x, s[1..]);
      assert s == [s[0]] + s[1..];
    }
  }

  function PeersLines(peers: seq<Peer>): seq<WgLine> {
    if peers == [] then [] else [Blank] + PeerLines(peers[0]) + PeersLines(peers[1..])
  }

  function ConfigLines(c: Interface): seq<WgLine>
    requires c.listenPort >= 0
  {
    [Section("Interface"), Setting("PrivateKey", c.privateKey), Setting("ListenPort", Itoa(c.listenPort))]
    + PeersLines(SortPeers(c.peers))
  }

  function WgTexts(lines: seq<WgLine>): (r: seq<string>)
    ensures |r| == |lines|
  {
    seq(|lines|, i requires 0 <= i < |lines| => WgText(lines[i]))
  }

  /** `SyncConfig`. */
  function ConfigText(c: Interface): string
    requires c.listenPort >= 0
  {
    Unlines(WgTexts(ConfigLines(c)))
  }

  /** Fit to print: keys are words, names and endpoints stay on their line, AllowedIPs are CIDRs. */
  predicate PeerPrintable(t: Parser, p: Peer) {
    && Word(p.key) && '\n' !in p.name && '\n' !in p.endpoint && p.allowed != []
    && forall i :: 0 <= i < |p.allowed| ==> t.cidr(p.allowed[i]).Some?
  }

  predicate IfacePrintable(t: Parser, c: Interface) {
    && Word(c.privateKey) && c.listenPort >= 0
    && forall i :: 0 <= i < |c.peers| ==> PeerPrintable(t, c.peers[i])
  }

  /** A value as it stands after trimming: nonempty, on one line, and no space at either end. */
  predicate Trimmed(v: string) { v != "" && !IsSpace(v[0]) && !IsSpace(v[|v| - 1]) && '\n' !in v }

  predicate LinePrintable(l: WgLine) {
    match l
    case Section(name) => '\n' !in name
    case Note(text) => '\n' !in text
    case Blank => true
    case Setting(k, v) => KeyOk(k) && '\n' !in v && (Judged(k) ==> Trimmed(v))
  }

  /** The keys whose values the helper looks at. */
  predicate Judged(k: string) { k == "PublicKey" || k == "AllowedIPs" }

  predicate KeyOk(k: string) { Word(k) && '=' !in k && k[0] != '#' && k[0] != '[' }

  lemma FixedKeysOk()
    ensures KeyOk("PublicKey") && KeyOk("Endpoint") && KeyOk("AllowedIPs") && KeyOk("PersistentKeepalive")
    ensures KeyOk("PrivateKey") && KeyOk("ListenPort")
  {
    PeerKeysOk();
    LongKeysOk();
    assert Word("PrivateKey");
    assert Word("ListenPort");
  }

  lemma PeerKeysOk()
    ensures KeyOk("PublicKey") && KeyOk("Endpoint")
  {
  }

  lemma LongKeysOk()
    ensures KeyOk("AllowedIPs") && KeyOk("PersistentKeepalive")
  {
  }

  /** What the helper is meant to check, said of the setting and not of its text. */
  predicate SettingAllowed(p: Policy, t: Parser, l: WgLine) {
    l.Setting? ==>
      && (l.key == "PublicKey" ==> l.value in p.peerKeys)
      && (l.key == "AllowedIPs" ==> forall part :: part in Split(l.value, ',') ==> RouteOk(p, t, TrimSpace(part)))
  }

  lemma {:induction false} CutAt(k: string, v: string)
    requires '=' !in k
    ensures Cut(k + "=" + v) == Some((k, v))
  {
    var s := k + "=" + v;
    if k == "" {
      assert s[0] == '=' && s[1..] == v;
    } else {
      assert s[1..] == k[1..] + "=" + v;
      CutAt(k[1..], v);
      assert [k[0]] + k[1..] == k;
    }
  }

  lemma TrimKey(k: string)
    requires Word(k)
    ensures TrimSpace(k + " ") == k
  {
    var a := k + " ";
    assert a[..|a| - 1] == k && a[0] == k[0] && !IsSpace(k[|k| - 1]);
    assert TrimLeft(a) == a && TrimRight(a) == TrimRight(k) && TrimRight(k) == k;
  }

  lemma TrimValue(v: string)
    requires Trimmed(v)
    ensures TrimSpace(" " + v) == v && TrimRight(" " + v) == " " + v
  {
    var b := " " + v;
    assert b[1..] == v && b[|b| - 1] == v[|v| - 1];
    assert TrimLeft(b) == TrimLeft(v) && TrimLeft(v) == v;
  }

  /** Trimming on the right stops at the last character that is not a space. */
  lemma {:induction false} TrimRightAfter(a: string, b: string)
    requires a != "" && !IsSpace(a[|a| - 1])
    ensures TrimRight(a + b) == a + TrimRight(b)
  {
    var s := a + b;
    if b == "" {
      assert s == a;
    } else if IsSpace(b[|b| - 1]) {
      assert s[..|s| - 1] == a + b[..|b| - 1];
      TrimRightAfter(a, b[..|b| - 1]);
    }
  }

  /** What the helper's line check sees of a printed setting: its key, and its value less trailing space. */
  lemma SettingCut(l: WgLine)
    requires l.Setting? && KeyOk(l.key)
    ensures var line := TrimSpace(WgText(l));
            && line != "" && line[0] == l.key[0]
            && Cut(line) == Some((l.key + " ", TrimRight(" " + l.value))) && TrimSpace(l.key + " ") == l.key
  {
    var k, v := l.key, l.value;
    var head := k + " =";
    assert WgText(l) == head + (" " + v);
    assert WgText(l)[0] == k[0] && TrimLeft(WgText(l)) == WgText(l);
    TrimRightAfter(head, " " + v);
    TrimKey(k);
    assert head + TrimRight(" " + v) == (k + " ") + "=" + TrimRight(" " + v);
    CutAt(k + " ", TrimRight(" " + v));
  }

  lemma SettingExact(p: Policy, t: Parser, l: WgLine)
    requires l.Setting? && LinePrintable(l)
    ensures LintWgLine(p, t, WgText(l)) <==> SettingAllowed(p, t, l)
  {
    SettingCut(l);
    if Judged(l.key) {
      TrimValue(l.value);
    }
  }

  lemma WgLineExact(p: Policy, t: Parser, l: WgLine)
    requires LinePrintable(l)
    ensures LintWgLine(p, t, WgText(l)) <==> SettingAllowed(p, t, l)
    ensures '\n' !in WgText(l)
  {
    match l
    case Section(name) =>
      assert WgText(l)[0] == '[';
      TrimRightHead(WgText(l));
    case Note(text) =>
      assert WgText(l)[0] == '#';
      TrimRightHead(WgText(l));
    case Blank =>
    case Setting(k, v) => SettingExact(p, t, l);
  }

  /* ---- the whole config ---- */

  ghost predicate AllPrintable(lines: seq<WgLine>) { forall i :: 0 <= i < |lines| ==> LinePrintable(lines[i]) }

  ghost predicate AllAllowed(p: Policy, t: Parser, lines: seq<WgLine>) {
    forall i :: 0 <= i < |lines| ==> SettingAllowed(p, t, lines[i])
  }

  lemma LinesExact(p: Policy, t: Parser, lines: seq<WgLine>)
    requires AllPrintable(lines)
    ensures LintWg(p, t, Unlines(WgTexts(lines))) <==> AllAllowed(p, t, lines)
  {
    var texts := WgTexts(lines);
    forall i | 0 <= i < |lines|
      ensures '\n' !in texts[i] && (LintWgLine(p, t, texts[i]) <==> SettingAllowed(p, t, lines[i]))
    {
      WgLineExact(p, t, lines[i]);
    }
    SplitUnlines(texts);
    var split := Split(Unlines(texts), '\n');
    assert split == texts + [""];
    assert forall i :: 0 <= i < |lines| ==> texts[i] in split;
    assert forall line :: line in split ==> line == "" || exists i :: 0 <= i < |lines| && texts[i] == line;
  }

  /** A CIDR text has nothing to trim and no comma or newline inside. */
  lemma CidrPlain(t: Parser, s: string)
    requires Sane(t) && t.cidr(s).Some?
    ensures Word(s) && ',' !in s && '\n' !in s && TrimSpace(s) == s && TrimSpace(" " + s) == s
  {
    assert CidrText(s);
    var b := " " + s;
    assert b[1..] == s;
    assert TrimLeft(b) == TrimLeft(s) && TrimLeft(s) == s && TrimRight(s) == s;
  }

  /** Splitting the printed AllowedIPs at commas and trimming gives back the list. */
  lemma {:induction false} AllowedReadBack(t: Parser, cs: seq<string>, lead: string)
    requires Sane(t) && cs != [] && (forall i :: 0 <= i < |cs| ==> t.cidr(cs[i]).Some?) && (lead == "" || lead == " ")
    ensures var parts := Split(lead + JoinComma(cs), ',');
            |parts| == |cs| && forall i :: 0 <= i < |cs| ==> TrimSpace(parts[i]) == cs[i]
  {
    CidrPlain(t, cs[0]);
    var head := lead + cs[0];
    assert head == cs[0] || head == " " + cs[0];
    if |cs| == 1 {
      SplitWhole(head, ',');
    } else {
      AllowedReadBack(t, cs[1..], " ");
      assert lead + JoinComma(cs) == head + [','] + (" " + JoinComma(cs[1..]));
      SplitLine(head, " " + JoinComma(cs[1..]), ',');
      var rest := Split(" " + JoinComma(cs[1..]), ',');
      assert Split(lead + JoinComma(cs), ',') == [head] + rest;
      assert forall i :: 0 < i < |cs| ==> cs[i] == cs[1..][i - 1];
    }
  }

  lemma {:induction false} JoinTrimmed(t: Parser, cs: seq<string>)
    requires Sane(t) && cs != [] && forall i :: 0 <= i < |cs| ==> t.cidr(cs[i]).Some?
    ensures Trimmed(JoinComma(cs))
  {
    CidrPlain(t, cs[0]);
    if |cs| > 1 {
      JoinTrimmed(t, cs[1..]);
      var r := JoinComma(cs[1..]);
      assert JoinComma(cs) == cs[0] + ", " + r;
      assert JoinComma(cs)[|JoinComma(cs)| - 1] == r[|r| - 1];
    }
  }

  lemma PeerLinesPrintable(t: Parser, p: Peer)
    requires Sane(t) && PeerPrintable(t, p)
    ensures AllPrintable(PeerLines(p))
  {
    JoinTrimmed(t, p.allowed);
    FixedKeysOk();
    WordTrimmed(p.key);
  }

  lemma WordTrimmed(w: string)
    requires Word(w)
    ensures Trimmed(w)
  {
  }

  /** What the policy must know of a peer for its block to pass. */
  predicate PeerAllowed(p: Policy, t: Parser, peer: Peer) {
    peer.key in p.peerKeys && forall i :: 0 <= i < |peer.allowed| ==> RouteOk(p, t, peer.allowed[i])
  }

  lemma AllowedSetting(p: Policy, t: Parser, peer: Peer)
    requires Sane(t) && PeerPrintable(t, peer)
    ensures SettingAllowed(p, t, Setting("AllowedIPs", JoinComma(peer.allowed))) <==>
            forall i :: 0 <= i < |peer.allowed| ==> RouteOk(p, t, peer.allowed[i])
  {
    AllowedReadBack(t, peer.allowed, "");
    assert "" + JoinComma(peer.allowed) == JoinComma(peer.allowed);
    var parts := Split(JoinComma(peer.allowed), ',');
    assert forall i :: 0 <= i < |parts| ==> parts[i] in parts;
  }

  lemma PeerLinesAllowed(p: Policy, t: Parser, peer: Peer)
    requires Sane(t) && PeerPrintable(t, peer)
    ensures AllAllowed(p, t, PeerLines(peer)) <==> PeerAllowed(p, t, peer)
  {
    AllowedSetting(p, t, peer);
    var ls := PeerLines(peer);
    var key, ips := Setting("PublicKey", peer.key), Setting("AllowedIPs", JoinComma(peer.allowed));
    var n := if peer.name != "" then 2 else 1;
    var e := n + if peer.endpoint != "" then 2 else 1;
    assert ls[n] == key && ls[e] == ips;
    assert forall i :: 0 <= i < |ls| && i != n && i != e ==> SettingAllowed(p, t, ls[i]);
  }

  lemma {:induction false} PeersLinesExact(p: Policy, t: Parser, peers: seq<Peer>)
    requires Sane(t) && forall i :: 0 <= i < |peers| ==> PeerPrintable(t, peers[i])
    ensures AllPrintable(PeersLines(peers))
    ensures AllAllowed(p, t, PeersLines(peers)) <==> forall i :: 0 <= i < |peers| ==> PeerAllowed(p, t, peers[i])
  {
    if peers != [] {
      PeersLinesExact(p, t, peers[1..]);
      PeerLinesPrintable(t, peers[0]);
      PeerLinesAllowed(p, t, peers[0]);
      var a, b := [Blank] + PeerLines(peers[0]), PeersLines(peers[1..]);
      assert AllAllowed(p, t, a) <==> PeerAllowed(p, t, peers[0]) by { AllowedAppend(p, t, [Blank], PeerLines(peers[0])); }
      AllowedAppend(p, t, a, b);
      assert forall i :: 0 < i < |peers| ==> peers[i] == peers[1..][i - 1];
    }
  }

  lemma AllowedAppend(p: Policy, t: Parser, a: seq<WgLine>, b: seq<WgLine>)
    ensures AllAllowed(p, t, a + b) <==> AllAllowed(p, t, a) && AllAllowed(p, t, b)
  {
    assert forall i :: 0 <= i < |a| ==> (a + b)[i] == a[i];
    assert forall i :: 0 <= i < |b| ==> (a + b)[|a| + i] == b[i];
  }

  /** The helper accepts a printed config if and only if it knows every peer's key and every AllowedIPs block. */
  lemma ConfigExact(p: Policy, t: Parser, c: Interface)
    requires Sane(t) && IfacePrintable(t, c)
    ensures LintWg(p, t, ConfigText(c)) <==> forall i :: 0 <= i < |c.peers| ==> PeerAllowed(p, t, c.peers[i])
  {
    var sorted := SortPeers(c.peers);
    SortPeersMembers(c.peers);
    forall i | 0 <= i < |sorted|
      ensures PeerPrintable(t, sorted[i])
    {
      assert sorted[i] in c.peers;
    }
    PeersLinesExact(p, t, sorted);
    var head := [Section("Interface"), Setting("PrivateKey", c.privateKey), Setting("ListenPort", Itoa(c.listenPort))];
    HeadFine(p, t, c, head);
    AllowedAppend(p, t, head, PeersLines(sorted));
    LinesExact(p, t, ConfigLines(c));
    assert (forall i :: 0 <= i < |sorted| ==> PeerAllowed(p, t, sorted[i])) <==>
           (forall i :: 0 <= i < |c.peers| ==> PeerAllowed(p, t, c.peers[i])) by { SameMembers(p, t, sorted, c.peers); }
  }

  lemma HeadFine(p: Policy, t: Parser, c: Interface, head: seq<WgLine>)
    requires Word(c.privateKey) && c.listenPort >= 0
    requires head == [Section("Interface"), Setting("PrivateKey", c.privateKey), Setting("ListenPort", Itoa(c.listenPort))]
    ensures AllPrintable(head) && AllAllowed(p, t, head)
  {
    FixedKeysOk();
  }

  lemma SameMembers(p: Policy, t: Parser, a: seq<Peer>, b: seq<Peer>)
    requires forall x :: x in a <==> x in b
    ensures (forall i :: 0 <= i < |a| ==> PeerAllowed(p, t, a[i])) <==> (forall i :: 0 <= i < |b| ==> PeerAllowed(p, t, b[i]))
  {
    assert forall i :: 0 <= i < |a| ==> a[i] in b;
    assert forall i :: 0 <= i < |b| ==> b[i] in a;
  }
}
