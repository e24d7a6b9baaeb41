/** Reading the rendered WireGuard config back: every peer with its own key, endpoint, blocks and keepalive. */
module WgRead {
  import opened Common
  import opened Net
  import opened Text
  import opened Numbers
  import opened Helper
  import opened WireGuard

  /** The value a section sets for a key: the last one wins, as in wg. */
  function ValueOf(lines: seq<WgLine>, key: string): Option<string> {
    if lines == [] then None
    else
      var last := lines[|lines| - 1];
      if last.Setting? && last.key == key then Some(last.value) else ValueOf(lines[..|lines| - 1], key)
  }

  /** The lines up to the next section. */
  function Body(lines: seq<WgLine>): (r: seq<WgLine>)
    ensures |r| <= |lines|
  {
    if lines == [] || lines[0].Section? then [] else [lines[0]] + Body(lines[1..])
  }

  /** The bodies of the sections of a name, in order. */
  function Sections(lines: seq<WgLine>, name: string): seq<seq<WgLine>> {
    if lines == [] then []
    else (if lines[0] == Section(name) then [Body(lines[1..])] else []) + Sections(lines[1..], name)
  }

  /** No line opens a section. */
  predicate Flat(lines: seq<WgLine>) { forall i :: 0 <= i < |lines| ==> !lines[i].Section? }

  lemma {:induction false} BodyOf(a: seq<WgLine>, b: seq<WgLine>)
    requires Flat(a) && (b == [] || b[0].Section?)
    ensures Body(a + b) == a
  {
    if a == [] {
      assert a + b == b;
    } else {
      assert (a + b)[1..] == a[1..] + b;
      BodyOf(a[1..], b);
    }
  }

  lemma {:induction false} FlatSections(a: seq<WgLine>, b: seq<WgLine>, name: string)
    requires Flat(a)
    ensures Sections(a + b, name) == Sections(b, name)
  {
    if a == [] {
      assert a + b == b;
    } else {
      assert (a + b)[1..] == a[1..] + b;
      FlatSections(a[1..], b, name);
    }
  }

  lemma SectionSplits(name: string, a: seq<WgLine>, b: seq<WgLine>, want: string)
    requires Flat(a) && (b == [] || b[0].Section?)
    ensures Sections([Section(name)] + a + b, want) == (if name == want then [a] else []) + Sections(b, want)
  {
    var ls := [Section(name)] + a + b;
    assert ls[1..] == a + b;
    BodyOf(a, b);
    FlatSections(a, b, want);
  }

  /* ---- one peer ---- */

  function PeerBody(p: Peer): seq<WgLine> { PeerLines(p)[1..] }

  lemma PeerFlat(p: Peer)
    ensures PeerLines(p) == [Section("Peer")] + PeerBody(p) && Flat(PeerBody(p))
  {
  }

  /** What a peer's section sets. */
  predicate Describes(body: seq<WgLine>, p: Peer) {
    && ValueOf(body, "PublicKey") == Some(p.key) && ValueOf(body, "AllowedIPs") == Some(JoinComma(p.allowed))
    && ValueOf(body, "Endpoint") == (if p.endpoint != "" then Some(p.endpoint) else None)
    && ValueOf(body, "PersistentKeepalive") == (if p.keepalive > 0 then Some(Itoa(p.keepalive)) else None)
  }

  lemma ValueThen(a: seq<WgLine>, l: WgLine, key: string)
    ensures ValueOf(a + [l], key) == if l.Setting? && l.key == key then Some(l.value) else ValueOf(a, key)
  {
    assert (a + [l])[..|a|] == a;
  }

  lemma ValueSkips(a: seq<WgLine>, b: seq<WgLine>, key: string)
    requires |b| <= 1 && forall i :: 0 <= i < |b| ==> !(b[i].Setting? && b[i].key == key)
    ensures ValueOf(a + b, key) == ValueOf(a, key)
  {
    if b == [] {
      assert a + b == a;
    } else {
      assert b == [b[0]];
      ValueThen(a, b[0], key);
    }
  }

  /** The five parts of a peer's section. */
  lemma PeerParts(p: Peer, key: string, note: seq<WgLine>, ep: seq<WgLine>, keep: seq<WgLine>)
    requires note == (if p.name != "" then [Note(p.name)] else [])
    requires ep == (if p.endpoint != "" then [Setting("Endpoint", p.endpoint)] else [])
    requires keep == (if p.keepalive > 0 then [Setting("PersistentKeepalive", Itoa(p.keepalive))] else [])
    ensures PeerBody(p) == note + [Setting("PublicKey", p.key)] + ep + [Setting("AllowedIPs", JoinComma(p.allowed))] + keep
  {
  }

  lemma PeerDescribed(p: Peer)
    ensures Describes(PeerBody(p), p)
  {
    var note := if p.name != "" then [Note(p.name)] else [];
    var ep := if p.endpoint != "" then [Setting("Endpoint", p.endpoint)] else [];
    var keep := if p.keepalive > 0 then [Setting("PersistentKeepalive", Itoa(p.keepalive))] else [];
    PeerParts(p, "", note, ep, keep);
    KeyRead(note, p.key, ep, JoinComma(p.allowed), keep);
    OtherRead(note, p.key, ep, JoinComma(p.allowed), keep);
    var a := note + [Setting("PublicKey", p.key)];
    if p.endpoint != "" {
      ValueThen(a, ep[0], "Endpoint");
    } else {
      assert a + ep == a;
      ValueThen(note, Setting("PublicKey", p.key), "Endpoint");
      ValueSkips([], note, "Endpoint");
      assert [] + note == note;
    }
    if p.keepalive > 0 {
      ValueThen(a + ep + [Setting("AllowedIPs", JoinComma(p.allowed))], keep[0], "PersistentKeepalive");
    } else {
      NoKeepalive(note, p.key, ep, JoinComma(p.allowed));
      assert a + ep + [Setting("AllowedIPs", JoinComma(p.allowed))] + keep == a + ep + [Setting("AllowedIPs", JoinComma(p.allowed))];
    }
  }

  lemma KeyRead(note: seq<WgLine>, key: string, ep: seq<WgLine>, allowed: string, keep: seq<WgLine>)
    requires |ep| <= 1 && (forall i :: 0 <= i < |ep| ==> ep[i].Setting? && ep[i].key == "Endpoint")
    requires |keep| <= 1 && (forall i :: 0 <= i < |keep| ==> keep[i].Setting? && keep[i].key == "PersistentKeepalive")
    ensures var body := note + [Setting("PublicKey", key)] + ep + [Setting("AllowedIPs", allowed)] + keep;
            ValueOf(body, "PublicKey") == Some(key) && ValueOf(body, "AllowedIPs") == Some(allowed)
  {
    var a := note + [Setting("PublicKey", key)];
    var b := a + ep + [Setting("AllowedIPs", allowed)];
    ValueThen(note, Setting("PublicKey", key), "PublicKey");
    ValueSkips(a, ep, "PublicKey");
    ValueThen(a + ep, Setting("AllowedIPs", allowed), "PublicKey");
    ValueThen(a + ep, Setting("AllowedIPs", allowed), "AllowedIPs");
    ValueSkips(b, keep, "PublicKey");
    ValueSkips(b, keep, "AllowedIPs");
  }

  lemma OtherRead(note: seq<WgLine>, key: string, ep: seq<WgLine>, allowed: string, keep: seq<WgLine>)
    requires |keep| <= 1 && (forall i :: 0 <= i < |keep| ==> keep[i].Setting? && keep[i].key == "PersistentKeepalive")
    ensures var a := note + [Setting("PublicKey", key)] + ep;
            ValueOf(a + [Setting("AllowedIPs", allowed)] + keep, "Endpoint") == ValueOf(a, "Endpoint")
  {
    var a := note + [Setting("PublicKey", key)] + ep;
    ValueThen(a, Setting("AllowedIPs", allowed), "Endpoint");
    ValueSkips(a + [Setting("AllowedIPs", allowed)], keep, "Endpoint");
  }

  lemma NoKeepalive(note: seq<WgLine>, key: string, ep: seq<WgLine>, allowed: string)
    requires |note| <= 1 && (forall i :: 0 <= i < |note| ==> note[i].Note?)
    requires |ep| <= 1 && (forall i :: 0 <= i < |ep| ==> ep[i].Setting? && ep[i].key == "Endpoint")
    ensures ValueOf(note + [Setting("PublicKey", key)] + ep + [Setting("AllowedIPs", allowed)], "PersistentKeepalive") == None
  {
    var a := note + [Setting("PublicKey", key)];
    ValueSkips([], note, "PersistentKeepalive");
    assert [] + note == note;
    ValueThen(note, Setting("PublicKey", key), "PersistentKeepalive");
    ValueSkips(a, ep, "PersistentKeepalive");
    ValueThen(a + ep, Setting("AllowedIPs", allowed), "PersistentKeepalive");
  }

  /* ---- the whole config ---- */

  /** The body of a peer's section in place: a blank line follows unless it is the last. */
  function InPlace(p: Peer, last: bool): seq<WgLine> { PeerBody(p) + if last then [] else [Blank] }

  lemma {:induction false} PeersRead(peers: seq<Peer>)
    ensures var ss := Sections(PeersLines(peers), "Peer");
            |ss| == |peers| && forall i :: 0 <= i < |peers| ==> ss[i] == InPlace(peers[i], i == |peers| - 1)
  {
    if peers != [] {
      PeersRead(peers[1..]);
      FirstRead(peers);
    }
  }

  lemma FirstRead(peers: seq<Peer>)
    requires peers != []
    ensures Sections(PeersLines(peers), "Peer") == [InPlace(peers[0], |peers| == 1)] + Sections(PeersLines(peers[1..]), "Peer")
  {
    BlankFirst(peers);
    if |peers| == 1 {
      LastPeer(peers);
    } else {
      NextPeer(peers);
    }
  }

  lemma BlankFirst(peers: seq<Peer>)
    requires peers != []
    ensures Sections(PeersLines(peers), "Peer") == Sections([Section("Peer")] + PeerBody(peers[0]) + PeersLines(peers[1..]), "Peer")
  {
    var tail := [Section("Peer")] + PeerBody(peers[0]) + PeersLines(peers[1..]);
    assert PeersLines(peers) == [Blank] + tail by {
      PeerFlat(peers[0]);
    }
    FlatSections([Blank], tail, "Peer");
  }

  lemma LastPeer(peers: seq<Peer>)
    requires |peers| == 1
    ensures var rest := PeersLines(peers[1..]);
            Sections([Section("Peer")] + PeerBody(peers[0]) + rest, "Peer") == [InPlace(peers[0], true)] + Sections(rest, "Peer")
  {
    PeerFlat(peers[0]);
    assert peers[1..] == [];
    SectionSplits("Peer", PeerBody(peers[0]), [], "Peer");
    assert PeerBody(peers[0]) + [] == PeerBody(peers[0]);
  }

  lemma NextPeer(peers: seq<Peer>)
    requires |peers| > 1
    ensures var rest := PeersLines(peers[1..]);
            Sections([Section("Peer")] + PeerBody(peers[0]) + rest, "Peer") == [InPlace(peers[0], false)] + Sections(rest, "Peer")
  {
    var rest := PeersLines(peers[1..]);
    PeerFlat(peers[0]);
    PeerFlat(peers[1]);
    var tail := PeerLines(peers[1]) + PeersLines(peers[2..]);
    assert peers[1..][0] == peers[1] && peers[1..][1..] == peers[2..];
    assert rest == [Blank] + tail;
    var body := PeerBody(peers[0]) + [Blank];
    assert Flat(body);
    assert [Section("Peer")] + PeerBody(peers[0]) + rest == [Section("Peer")] + body + tail;
    SectionSplits("Peer", body, tail, "Peer");
    FlatSections([Blank], tail, "Peer");
  }

  lemma PlacedDescribes(p: Peer, last: bool)
    ensures Describes(InPlace(p, last), p)
  {
    PeerDescribed(p);
    var b := if last then [] else [Blank];
    ValueSkips(PeerBody(p), b, "PublicKey");
    ValueSkips(PeerBody(p), b, "AllowedIPs");
    ValueSkips(PeerBody(p), b, "Endpoint");
    ValueSkips(PeerBody(p), b, "PersistentKeepalive");
  }

  /** One section per peer, by key, each with its own key, endpoint, blocks and keepalive. */
  lemma ConfigReads(c: Interface)
    requires c.listenPort >= 0
    ensures var ss, peers := Sections(ConfigLines(c), "Peer"), SortPeers(c.peers);
            |ss| == |peers| == |c.peers| && forall i :: 0 <= i < |ss| ==> Describes(ss[i], peers[i])
  {
    var peers := SortPeers(c.peers);
    var head := [Setting("PrivateKey", c.privateKey), Setting("ListenPort", Itoa(c.listenPort))];
    SortPeersOrdered(c.peers);
    PeersRead(peers);
    assert ConfigLines(c) == [Section("Interface")] + head + PeersLines(peers);
    HeadReads(head, PeersLines(peers));
    forall i | 0 <= i < |peers|
      ensures Describes(Sections(ConfigLines(c), "Peer")[i], peers[i])
    {
      PlacedDescribes(peers[i], i == |peers| - 1);
    }
  }

  lemma HeadReads(head: seq<WgLine>, rest: seq<WgLine>)
    requires Flat(head)
    ensures Sections([Section("Interface")] + head + rest, "Peer") == Sections(rest, "Peer")
  {
    var ls := [Section("Interface")] + head + rest;
    assert ls[1..] == head + rest;
    FlatSections(head, rest, "Peer");
  }

  /** The interface section sets the private key and the port. */
  lemma InterfaceReads(c: Interface)
    requires c.listenPort >= 0
    ensures var ls := ConfigLines(c);
            && |ls| >= 3 && ls[0] == Section("Interface")
            && ValueOf(ls[1..3], "PrivateKey") == Some(c.privateKey) && ValueOf(ls[1..3], "ListenPort") == Some(Itoa(c.listenPort))
  {
    var ls := ConfigLines(c);
    var a, b := Setting("PrivateKey", c.privateKey), Setting("ListenPort", Itoa(c.listenPort));
    assert ls[1..3] == [a] + [b];
    ValueThen([a], b, "PrivateKey");
    ValueThen([a], b, "ListenPort");
    assert [a] == [] + [a];
    ValueThen([], a, "PrivateKey");
  }

  /* ---- the order of the peers ---- */

  lemma {:induction false} InsertPeerOrdered(x: Peer, s: seq<Peer>)
    requires forall i, j :: 0 <= i < j < |s| ==> StrLE(s[i].key, s[j].key)
    ensures var r := InsertPeer(x, s);
            multiset(r) == multiset(s) + multiset{x} && |r| == |s| + 1 && forall i, j :: 0 <= i < j < |r| ==> StrLE(r[i].key, r[j].key)
  {
    if s == [] {
    } else if StrLE(x.key, s[0].key) {
      forall j | 0 < j < |s|
        ensures StrLE(x.key, s[j].key)
      {
        StrTrans(x.key, s[0].key, s[j].key);
      }
    } else {
      StrTotal(x.key, s[0].key);
      InsertPeerOrdered(x, s[1..]);
      var t := InsertPeer(x, s[1..]);
      assert s == [s[0]] + s[1..];
      forall j | 0 <= j < |t|
        ensures StrLE(s[0].key, t[j].key)
      {
        assert t[j] in multiset(t);
        assert t[j] == x || t[j] in s[1..];
      }
    }
  }

  /** All peers, none twice, in the order of their keys. */
  lemma {:induction false} SortPeersOrdered(s: seq<Peer>)
    ensures var r := SortPeers(s);
            multiset(r) == multiset(s) && |r| == |s| && forall i, j :: 0 <= i < j < |r| ==> StrLE(r[i].key, r[j].key)
  {
    if s != [] {
      SortPeersOrdered(s[1..]);
      InsertPeerOrdered(s[0], SortPeers(s[1..]));
      assert s == [s[0]] + s[1..];
    }
  }

  /** Sections are headed by their name in brackets, settings are a key, an equals sign and a value. */
  lemma LineTexts(k: string, v: string)
    ensures WgText(Section("Interface")) == "[Interface]" && WgText(Section("Peer")) == "[Peer]"
    ensures WgText(Setting(k, v)) == k + " = " + v && WgText(Blank) == ""
  {
  }
}
