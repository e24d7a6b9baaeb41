/** Workload names: a DNS label derived from the Pod's identity, recognisable by its prefix. */
module Workload {

  predicate Alnum(c: char) { 'a' <= c <= 'z' || '0' <= c <= '9' }

  predicate LDH(c: char) { Alnum(c) || c == '-' }

  /** A DNS label (section 2.1 of RFC 1123) in lower case, with no two hyphens in a row. */
  ghost predicate Label(s: string) {
    && s != "" && Alnum(s[0]) && Alnum(s[|s| - 1])
    && Collapsed(s)
  }

  ghost predicate Collapsed(s: string) {
    && (forall i :: 0 <= i < |s| ==> LDH(s[i]))
    && (forall i :: 0 <= i < |s| - 1 ==> Alnum(s[i]) || Alnum(s[i + 1]))
  }

  /** What is used of `unicode.ToLower`: it lowers ASCII capitals and keeps letters, digits and hyphens. */
  ghost predicate AsciiLower(lower: char -> char) {
    && (forall c :: LDH(c) ==> lower(c) == c)
    && (forall c :: 'A' <= c <= 'Z' ==> Alnum(lower(c)))
  }

  function LowerAll(lower: char -> char, s: string): (r: string)
    ensures |r| == |s|
  {
    seq(|s|, i requires 0 <= i < |s| => lower(s[i]))
  }

  /** Runs of other characters become one hyphen; `dash` tells whether the output so far ends in one. */
  function Collapse(s: string, dash: bool): string {
    if s == "" then ""
    else if Alnum(s[0]) then [s[0]] + Collapse(s[1..], false)
    else if dash then Collapse(s[1..], true)
    else "-" + Collapse(s[1..], true)
  }

  function TrimHead(s: string): string {
    if s != "" && s[0] == '-' then TrimHead(s[1..]) else s
  }

  function TrimTail(s: string): string {
    if s != "" && s[|s| - 1] == '-' then TrimTail(s[..|s| - 1]) else s
  }

  function Sanitize(lower: char -> char, s: string): string {
    var out := TrimTail(TrimHead(Collapse(LowerAll(lower, s), false)));
    if out == "" then "wl" else out
  }

  /** The loop with its `lastDash` flag. */
  method SanitizeDNSLabel(lower: char -> char, s: string) returns (out: string)
    ensures out == Sanitize(lower, s)
  {
    var l := LowerAll(lower, s);
    var b := "";
    var lastDash := false;
    var i := 0;
    while i < |l|
      invariant 0 <= i <= |l|
      invariant Collapse(l, false) == b + Collapse(l[i..], lastDash)
    {
      if Alnum(l[i]) {
        b := b + [l[i]];
        lastDash := false;
      } else if !lastDash {
        b := b + "-";
        lastDash := true;
      }
      assert l[i..][1..] == l[i + 1..];
      i := i + 1;
    }
    assert Collapse(l, false) == b;
    out := TrimTail(TrimHead(b));
    if out == "" {
      out := "wl";
    }
  }

  lemma {:induction false} CollapseCollapsed(s: string, dash: bool)
    ensures var r := Collapse(s, dash); Collapsed(r) && (dash && r != "" ==> Alnum(r[0]))
  {
    if s != "" {
      CollapseCollapsed(s[1..], !Alnum(s[0]));
    }
  }

  lemma {:induction false} TrimHeadCollapsed(s: string)
    requires Collapsed(s)
    ensures var r := TrimHead(s); Collapsed(r) && (r != "" ==> Alnum(r[0]))
  {
    if s != "" && s[0] == '-' {
      TrimHeadCollapsed(s[1..]);
    }
  }

  lemma {:induction false} TrimTailCollapsed(s: string)
    requires Collapsed(s)
    ensures var r := TrimTail(s);
            && Collapsed(r) && (r != "" ==> Alnum(r[|r| - 1])) && |r| <= |s| && r == s[..|r|]
            && (s != "" && Alnum(s[0]) ==> r != "")
  {
    if s != "" && s[|s| - 1] == '-' {
      TrimTailCollapsed(s[..|s| - 1]);
      assert s[..|s| - 1][..|TrimTail(s)|] == s[..|TrimTail(s)|];
    }
  }

  /** Every input yields a DNS label. */
  lemma SanitizeLabel(lower: char -> char, s: string)
    ensures Label(Sanitize(lower, s))
  {
    var c := Collapse(LowerAll(lower, s), false);
    CollapseCollapsed(LowerAll(lower, s), false);
    TrimHeadCollapsed(c);
    TrimTailCollapsed(TrimHead(c));
  }

  lemma {:induction false} CollapseFixed(s: string, dash: bool)
    requires Collapsed(s) && (dash && s != "" ==> Alnum(s[0]))
    ensures Collapse(s, dash) == s
  {
    if s != "" {
      CollapseFixed(s[1..], !Alnum(s[0]));
      assert [s[0]] + s[1..] == s;
    }
  }

  /** A label is its own sanitised form. */
  lemma SanitizeFixed(lower: char -> char, s: string)
    requires AsciiLower(lower) && Label(s)
    ensures Sanitize(lower, s) == s
  {
    assert LowerAll(lower, s) == s;
    CollapseFixed(s, false);
  }

  /** So sanitising is idempotent. */
  lemma SanitizeIdempotent(lower: char -> char, s: string)
    requires AsciiLower(lower)
    ensures Sanitize(lower, Sanitize(lower, s)) == Sanitize(lower, s)
  {
    SanitizeLabel(lower, s);
    SanitizeFixed(lower, Sanitize(lower, s));
  }

  /** The maximal runs of letters and digits, in order. */
  function Words(s: string): (w: seq<string>)
    ensures s != "" && Alnum(s[0]) ==> w != []
  {
    if s == "" then []
    else if !Alnum(s[0]) then Words(s[1..])
    else if |s| > 1 && Alnum(s[1]) then
      var w := Words(s[1..]);
      [[s[0]] + w[0]] + w[1..]
    else [[s[0]]] + Words(s[1..])
  }

  lemma {:induction false} CollapseWords(s: string, dash: bool)
    ensures Words(Collapse(s, dash)) == Words(s)
    ensures s != "" && Alnum(s[0]) ==> Collapse(s, dash) != "" && Collapse(s, dash)[0] == s[0]
    ensures !dash && s != "" && !Alnum(s[0]) ==> Collapse(s, dash) != "" && Collapse(s, dash)[0] == '-'
  {
    if s != "" {
      CollapseWords(s[1..], !Alnum(s[0]));
      var c := Collapse(s, dash);
      if Alnum(s[0]) {
        assert c[1..] == Collapse(s[1..], false);
      } else if !dash {
        assert c[1..] == Collapse(s[1..], true);
      }
    }
  }

  lemma {:induction false} TrimHeadWords(s: string)
    ensures Words(TrimHead(s)) == Words(s)
  {
    if s != "" && s[0] == '-' {
      TrimHeadWords(s[1..]);
    }
  }

  lemma {:induction false} DropDashWords(s: string)
    requires s != "" && s[|s| - 1] == '-'
    ensures Words(s[..|s| - 1]) == Words(s)
  {
    if |s| > 1 {
      DropDashWords(s[1..]);
      assert s[1..][..|s| - 2] == s[..|s| - 1][1..];
    } else {
      assert Words(s) == Words("");
    }
  }

  lemma {:induction false} TrimTailWords(s: string)
    ensures Words(TrimTail(s)) == Words(s)
  {
    if s != "" && s[|s| - 1] == '-' {
      DropDashWords(s);
      TrimTailWords(s[..|s| - 1]);
    }
  }

  /** Sanitising keeps every run of letters and digits, lowered and in order; only an input without any becomes "wl". */
  lemma SanitizeKeepsWords(lower: char -> char, s: string)
    ensures Words(Sanitize(lower, s)) == if Words(LowerAll(lower, s)) == [] then ["wl"] else Words(LowerAll(lower, s))
  {
    var l := LowerAll(lower, s);
    var c := Collapse(l, false);
    CollapseWords(l, false);
    TrimHeadWords(c);
    TrimTailWords(TrimHead(c));
    SanitizeLabel(lower, s);
    if TrimTail(TrimHead(c)) == "" {
      assert "wl"[1..] == "l" && Words("l") == ["l"];
      assert ['w'] + "l" == "wl";
      assert Words("") == [];
    }
  }

  /* ---- WorkloadID ---- */

  const PREFIX := "macvz"
  const MAX_LEN: nat := 63

  function Identity(namespace: string, pod: string, container: string): string {
    namespace + "-" + pod + "-" + container
  }

  /** `suffix` is the first eight hex digits of the identity's SHA-256. */
  predicate HexSuffix(suffix: string) {
    |suffix| == 8 && forall i :: 0 <= i < |suffix| ==> '0' <= suffix[i] <= '9' || 'a' <= suffix[i] <= 'f'
  }

  function WorkloadID(lower: char -> char, namespace: string, pod: string, container: string, suffix: string): string
    requires HexSuffix(suffix)
  {
    var id := Sanitize(lower, PREFIX + "-" + Identity(namespace, pod, container));
    if |id| <= MAX_LEN then id
    else TrimTail(id[..MAX_LEN - |suffix| - 1]) + "-" + suffix
  }

  /** Some character of the identity survives sanitising. */
  predicate Nameable(lower: char -> char, identity: string) {
    exists i :: 0 <= i < |identity| && Alnum(lower(identity[i]))
  }

  lemma CollapseHyphen(b: string)
    ensures Collapse("-" + b, false) == "-" + Collapse(b, true)
  {
    assert ("-" + b)[1..] == b;
  }

  lemma CollapseLetter(c: char, s: string, dash: bool)
    requires Alnum(c)
    ensures Collapse([c] + s, dash) == [c] + Collapse(s, false)
  {
    assert ([c] + s)[1..] == s;
  }

  lemma {:induction false} CollapseSplit(a: string, b: string, dash: bool)
    requires forall i :: 0 <= i < |a| ==> Alnum(a[i])
    ensures Collapse(a + "-" + b, dash) == if a == "" then Collapse("-" + b, dash) else a + "-" + Collapse(b, true)
  {
    if a == "" {
      assert a + "-" + b == "-" + b;
    } else {
      var tail := a[1..] + "-" + b;
      assert a + "-" + b == [a[0]] + tail;
      CollapseLetter(a[0], tail, dash);
      CollapseSplit(a[1..], b, false);
      CollapseHyphen(b);
      assert a == [a[0]] + a[1..];
    }
  }

  lemma {:induction false} CollapseEmpty(s: string)
    ensures Collapse(s, true) == "" <==> forall i :: 0 <= i < |s| ==> !Alnum(s[i])
  {
    if s != "" {
      if Alnum(s[0]) {
      } else {
        CollapseEmpty(s[1..]);
        assert forall i :: 0 < i < |s| ==> s[i] == s[1..][i - 1];
      }
    }
  }

  lemma {:induction false} TrimTailAppend(a: string, b: string)
    requires b != "" && Alnum(b[0])
    ensures TrimTail(a + b) == a + TrimTail(b)
  {
    var s := a + b;
    if b[|b| - 1] == '-' {
      assert s[..|s| - 1] == a + b[..|b| - 1];
      TrimTailAppend(a, b[..|b| - 1]);
    }
  }

  /** The sanitised name: the prefix alone, or the prefix, a hyphen and a label. */
  lemma SanitizedName(lower: char -> char, identity: string)
    requires AsciiLower(lower)
    ensures var id := Sanitize(lower, PREFIX + "-" + identity);
            && Label(id)
            && (!Nameable(lower, identity) ==> id == PREFIX)
            && (Nameable(lower, identity) ==> |id| > 6 && id[..6] == PREFIX + "-" && Alnum(id[6]))
  {
    var full := PREFIX + "-" + identity;
    SanitizeLabel(lower, full);
    var rest := LowerAll(lower, identity);
    assert LowerAll(lower, full) == PREFIX + "-" + rest;
    CollapseSplit(PREFIX, rest, false);
    CollapseCollapsed(rest, true);
    CollapseEmpty(rest);
    var x := Collapse(rest, true);
    var c := PREFIX + "-" + x;
    assert Collapse(LowerAll(lower, full), false) == c && TrimHead(c) == c;
    if x == "" {
      assert c[..5] == PREFIX && c[5] == '-' && |c| == 6;
      assert TrimTail(PREFIX) == PREFIX;
    } else {
      TrimTailAppend(PREFIX + "-", x);
      TrimTailCollapsed(x);
      assert TrimTail(c) == PREFIX + "-" + TrimTail(x);
    }
    assert Nameable(lower, identity) <==> x != "" by {
      assert forall i :: 0 <= i < |identity| ==> rest[i] == lower(identity[i]);
    }
  }

  predicate IsMacVzVM(id: string) { |id| >= 6 && id[..6] == PREFIX + "-" }

  /**
   * WorkloadID is a DNS label of at most 63 characters (section 2.3.4 of RFC 1035), and cleanup recognises it as
   * MacVz's own exactly when the identity has a letter or digit.
   */
  lemma WorkloadIDValid(lower: char -> char, namespace: string, pod: string, container: string, suffix: string)
    requires AsciiLower(lower) && HexSuffix(suffix)
    ensures var id := WorkloadID(lower, namespace, pod, container, suffix);
            && Label(id) && |id| <= MAX_LEN
            && (IsMacVzVM(id) <==> Nameable(lower, Identity(namespace, pod, container)))
  {
    var identity := Identity(namespace, pod, container);
    SanitizedName(lower, identity);
    var id := Sanitize(lower, PREFIX + "-" + identity);
    if |id| > MAX_LEN {
      TruncatedLabel(id, suffix);
    }
  }

  lemma TruncatedLabel(id: string, suffix: string)
    requires Label(id) && |id| > MAX_LEN && HexSuffix(suffix) && id[..6] == PREFIX + "-" && Alnum(id[6])
    ensures var r := TrimTail(id[..54]) + "-" + suffix;
            Label(r) && |r| <= MAX_LEN && r[..6] == PREFIX + "-"
  {
    var head := id[..54];
    assert head == (PREFIX + "-") + id[6..54];
    TrimTailAppend(PREFIX + "-", id[6..54]);
    TrimTailCollapsed(head);
    var t := TrimTail(head);
    assert t[..6] == PREFIX + "-";
    var r := t + "-" + suffix;
    assert forall i :: 0 <= i < |suffix| ==> r[|t| + 1 + i] == suffix[i];
    assert r[..6] == t[..6];
  }

  /** ASCII identities with a letter or digit are always nameable. */
  lemma AsciiNameable(lower: char -> char, identity: string, i: nat)
    requires AsciiLower(lower) && i < |identity|
    requires Alnum(identity[i]) || 'A' <= identity[i] <= 'Z'
    ensures Nameable(lower, identity)
  {
  }

  /* ---- when two Pods share a name ---- */

  lemma WordsHead(s: string)
    requires s != "" && Alnum(s[0])
    ensures Words(s) != [] && Words(s)[0] != "" && Words(s)[0][0] == s[0]
    ensures |Words(s)[0]| > 1 <==> |s| > 1 && Alnum(s[1])
  {
    if |s| > 1 && Alnum(s[1]) {
      WordsHead(s[1..]);
    }
  }

  /** A label is determined by its words. */
  lemma {:induction false} LabelsByWords(a: string, b: string)
    requires Label(a) && Label(b) && Words(a) == Words(b)
    ensures a == b
    decreases |a|
  {
    WordsHead(a);
    WordsHead(b);
    if |a| > 1 && Alnum(a[1]) {
      assert Words(a[1..]) == Words(b[1..]) by { SameTails(a[0], Words(a[1..]), Words(b[1..])); }
      LabelsByWords(a[1..], b[1..]);
    } else {
      AfterHyphen(a);
      AfterHyphen(b);
      assert Words(a)[1..] == Words(b)[1..];
      if |a| > 1 && |b| > 1 {
        LabelsByWords(a[2..], b[2..]);
        assert a == [a[0], '-'] + a[2..] && b == [b[0], '-'] + b[2..];
      }
    }
    assert a == [a[0]] + a[1..] && b == [b[0]] + b[1..];
  }

  lemma SameTails(c: char, x: seq<string>, y: seq<string>)
    requires x != [] && y != [] && [[c] + x[0]] + x[1..] == [[c] + y[0]] + y[1..]
    ensures x == y
  {
    var u, v := [[c] + x[0]] + x[1..], [[c] + y[0]] + y[1..];
    assert u[0][1..] == x[0] && v[0][1..] == y[0] && u[1..] == x[1..] && v[1..] == y[1..];
    assert x == [x[0]] + x[1..] && y == [y[0]] + y[1..];
  }

  /** A first word of one letter is followed by nothing, or by a hyphen and another label. */
  lemma AfterHyphen(s: string)
    requires Label(s) && !(|s| > 1 && Alnum(s[1]))
    ensures |s| == 1 ==> Words(s) == [[s[0]]]
    ensures |s| > 1 ==> |s| > 2 && s[1] == '-' && Label(s[2..]) && Words(s) == [[s[0]]] + Words(s[2..]) && Words(s[2..]) != []
  {
    if |s| > 1 {
      assert !Alnum(s[1]) && LDH(s[1]);
      assert Alnum(s[|s| - 1]);
      assert |s| > 2 && Alnum(s[2]);
      var r := s[2..];
      assert forall i :: 0 <= i < |r| ==> r[i] == s[i + 2];
      assert Label(r);
      WordsHead(r);
      assert s[1..][1..] == r;
    }
  }

  lemma WordsStep(s: string)
    requires s != ""
    ensures !Alnum(s[0]) ==> Words(s) == Words(s[1..])
    ensures Alnum(s[0]) && |s| > 1 && Alnum(s[1]) ==> Words(s[1..]) != [] && Words(s) == [[s[0]] + Words(s[1..])[0]] + Words(s[1..])[1..]
    ensures Alnum(s[0]) && !(|s| > 1 && Alnum(s[1])) ==> Words(s) == [[s[0]]] + Words(s[1..])
  {
  }

  /** The words before a separator, then the words after it. */
  lemma {:induction false} WordsJoin(a: string, sep: char, b: string)
    requires !Alnum(sep)
    ensures Words(a + [sep] + b) == Words(a) + Words(b)
  {
    var s := a + [sep] + b;
    WordsStep(s);
    if a == "" {
      assert s[1..] == b && s[0] == sep;
    } else {
      var r := a[1..];
      assert s[1..] == r + [sep] + b && s[0] == a[0] && s[1] == (if |a| > 1 then a[1] else sep);
      WordsJoin(r, sep, b);
      WordsStep(a);
      JoinTail(a[0], Words(r), Words(b));
    }
  }

  lemma JoinTail(c: char, x: seq<string>, y: seq<string>)
    ensures x != [] ==> [[c] + (x + y)[0]] + (x + y)[1..] == [[c] + x[0]] + x[1..] + y
    ensures [[c]] + (x + y) == [[c]] + x + y
  {
    if x != [] {
      assert (x + y)[1..] == x[1..] + y;
    }
  }

  lemma {:induction false} WordsWhole(w: string)
    requires w != "" && forall i :: 0 <= i < |w| ==> Alnum(w[i])
    ensures Words(w) == [w]
  {
    if |w| > 1 {
      WordsWhole(w[1..]);
      assert [w[0]] + w[1..] == w;
    } else {
      assert [w[0]] == w;
    }
  }

  /** The sanitised join of prefix and identity. */
  function FullName(lower: char -> char, identity: string): string { Sanitize(lower, PREFIX + "-" + identity) }

  lemma FullNameWords(lower: char -> char, identity: string)
    requires AsciiLower(lower)
    ensures Words(FullName(lower, identity)) == [PREFIX] + Words(LowerAll(lower, identity))
  {
    var full := PREFIX + "-" + identity;
    SanitizeKeepsWords(lower, full);
    assert LowerAll(lower, full) == PREFIX + "-" + LowerAll(lower, identity);
    WordsJoin(PREFIX, '-', LowerAll(lower, identity));
    WordsWhole(PREFIX);
  }

  /** The words of a workload name: the prefix and those of the identity, cut short before the hash when they are too long. */
  function NameWords(lower: char -> char, identity: string, suffix: string): seq<string> {
    if |FullName(lower, identity)| <= MAX_LEN then [PREFIX] + Words(LowerAll(lower, identity))
    else Words(FullName(lower, identity)[..54]) + [suffix]
  }

  lemma WorkloadIDWords(lower: char -> char, namespace: string, pod: string, container: string, suffix: string)
    requires AsciiLower(lower) && HexSuffix(suffix)
    ensures Words(WorkloadID(lower, namespace, pod, container, suffix)) == NameWords(lower, Identity(namespace, pod, container), suffix)
  {
    var identity := Identity(namespace, pod, container);
    var id := FullName(lower, identity);
    if |id| <= MAX_LEN {
      FullNameWords(lower, identity);
    } else {
      WordsJoin(TrimTail(id[..54]), '-', suffix);
      WordsWhole(suffix);
      TrimTailWords(id[..54]);
    }
  }

  /** Two Pods share a workload name if and only if the words of their names agree. */
  lemma SharedNameIff(lower: char -> char, n1: string, p1: string, c1: string, s1: string, n2: string, p2: string, c2: string, s2: string)
    requires AsciiLower(lower) && HexSuffix(s1) && HexSuffix(s2)
    ensures WorkloadID(lower, n1, p1, c1, s1) == WorkloadID(lower, n2, p2, c2, s2) <==>
            NameWords(lower, Identity(n1, p1, c1), s1) == NameWords(lower, Identity(n2, p2, c2), s2)
  {
    WorkloadIDWords(lower, n1, p1, c1, s1);
    WorkloadIDWords(lower, n2, p2, c2, s2);
    WorkloadIDValid(lower, n1, p1, c1, s1);
    WorkloadIDValid(lower, n2, p2, c2, s2);
    if Words(WorkloadID(lower, n1, p1, c1, s1)) == Words(WorkloadID(lower, n2, p2, c2, s2)) {
      LabelsByWords(WorkloadID(lower, n1, p1, c1, s1), WorkloadID(lower, n2, p2, c2, s2));
    }
  }

  /** For names that fit, the hash plays no part: they agree exactly when the identities have the same words. */
  lemma ShortNamesIff(lower: char -> char, n1: string, p1: string, c1: string, s1: string, n2: string, p2: string, c2: string, s2: string)
    requires AsciiLower(lower) && HexSuffix(s1) && HexSuffix(s2)
    requires |FullName(lower, Identity(n1, p1, c1))| <= MAX_LEN && |FullName(lower, Identity(n2, p2, c2))| <= MAX_LEN
    ensures WorkloadID(lower, n1, p1, c1, s1) == WorkloadID(lower, n2, p2, c2, s2) <==>
            Words(LowerAll(lower, Identity(n1, p1, c1))) == Words(LowerAll(lower, Identity(n2, p2, c2)))
  {
    SharedNameIff(lower, n1, p1, c1, s1, n2, p2, c2, s2);
    var a, b := Words(LowerAll(lower, Identity(n1, p1, c1))), Words(LowerAll(lower, Identity(n2, p2, c2)));
    assert ([PREFIX] + a)[1..] == a && ([PREFIX] + b)[1..] == b;
  }

  /** For two that do not fit, exactly when the cut names and the hashes agree. */
  lemma LongNamesIff(lower: char -> char, n1: string, p1: string, c1: string, s1: string, n2: string, p2: string, c2: string, s2: string)
    requires AsciiLower(lower) && HexSuffix(s1) && HexSuffix(s2)
    requires |FullName(lower, Identity(n1, p1, c1))| > MAX_LEN && |FullName(lower, Identity(n2, p2, c2))| > MAX_LEN
    ensures WorkloadID(lower, n1, p1, c1, s1) == WorkloadID(lower, n2, p2, c2, s2) <==>
            && s1 == s2
            && Words(FullName(lower, Identity(n1, p1, c1))[..54]) == Words(FullName(lower, Identity(n2, p2, c2))[..54])
  {
    SharedNameIff(lower, n1, p1, c1, s1, n2, p2, c2, s2);
    var a, b := Words(FullName(lower, Identity(n1, p1, c1))[..54]), Words(FullName(lower, Identity(n2, p2, c2))[..54]);
    assert (a + [s1])[..|a|] == a && (b + [s2])[..|b|] == b;
    assert a + [s1] == b + [s2] ==> (a + [s1])[|a + [s1]| - 1] == (b + [s2])[|b + [s2]| - 1];
  }

  /** The join does not mark where the namespace ends: a hyphen of the Pod's name can move into it. */
  lemma NamesCollide(lower: char -> char, x: string, y: string, z: string, container: string, s1: string, s2: string)
    requires HexSuffix(s1) && HexSuffix(s2) && |FullName(lower, Identity(x, y + "-" + z, container))| <= MAX_LEN
    ensures WorkloadID(lower, x, y + "-" + z, container, s1) == WorkloadID(lower, x + "-" + y, z, container, s2)
  {
    assert Identity(x, y + "-" + z, container) == Identity(x + "-" + y, z, container);
  }

  lemma SeparatorsAlike(lower: char -> char, x: string, y: string, u: char, v: char)
    requires !Alnum(lower(u)) && !Alnum(lower(v))
    ensures Words(LowerAll(lower, x + [u] + y)) == Words(LowerAll(lower, x + [v] + y))
  {
    var a, b := LowerAll(lower, x), LowerAll(lower, y);
    assert LowerAll(lower, x + [u] + y) == a + [lower(u)] + b;
    assert LowerAll(lower, x + [v] + y) == a + [lower(v)] + b;
    WordsJoin(a, lower(u), b);
    WordsJoin(a, lower(v), b);
  }

  /** And separators are not told apart, within one namespace too: `a.b` and `a-b` share a name. */
  lemma SeparatorsCollide(lower: char -> char, namespace: string, p: string, q: string, u: char, v: char, container: string,
                          s1: string, s2: string)
    requires AsciiLower(lower) && !Alnum(lower(u)) && !Alnum(lower(v)) && HexSuffix(s1) && HexSuffix(s2)
    requires |FullName(lower, Identity(namespace, p + [u] + q, container))| <= MAX_LEN
    ensures WorkloadID(lower, namespace, p + [u] + q, container, s1) == WorkloadID(lower, namespace, p + [v] + q, container, s2)
  {
    var i1, i2 := Identity(namespace, p + [u] + q, container), Identity(namespace, p + [v] + q, container);
    var x, y := namespace + "-" + p, q + "-" + container;
    assert i1 == x + [u] + y && i2 == x + [v] + y;
    SeparatorsAlike(lower, x, y, u, v);
    FullNameWords(lower, i1);
    FullNameWords(lower, i2);
    SanitizeLabel(lower, PREFIX + "-" + i1);
    SanitizeLabel(lower, PREFIX + "-" + i2);
    LabelsByWords(FullName(lower, i1), FullName(lower, i2));
  }

  lemma LabelsJoin(a: string, b: string)
    requires Label(a) && Label(b)
    ensures Label(a + "-" + b)
  {
    var s := a + "-" + b;
    assert forall i :: 0 <= i < |a| ==> s[i] == a[i];
    assert s[|a|] == '-' && forall i :: |a| < i < |s| ==> s[i] == b[i - |a| - 1];
  }

  /** Plain names that fit are strung together as they are: prefix, namespace, Pod, container. */
  lemma PlainName(lower: char -> char, namespace: string, pod: string, container: string, suffix: string)
    requires AsciiLower(lower) && HexSuffix(suffix) && Label(namespace) && Label(pod) && Label(container)
    requires |namespace| + |pod| + |container| <= 55
    ensures WorkloadID(lower, namespace, pod, container, suffix) == "macvz-" + namespace + "-" + pod + "-" + container
  {
    var identity := Identity(namespace, pod, container);
    LabelsJoin(namespace, pod);
    LabelsJoin(namespace + "-" + pod, container);
    assert Label(PREFIX);
    LabelsJoin(PREFIX, identity);
    SanitizeFixed(lower, PREFIX + "-" + identity);
    assert PREFIX + "-" + identity == "macvz-" + namespace + "-" + pod + "-" + container;
  }

  /** A VM counts as MacVz's own by its first six characters. */
  lemma OwnByPrefix(id: string)
    ensures IsMacVzVM(id) <==> "macvz-" <= id
  {
    assert PREFIX + "-" == "macvz-";
  }
}
