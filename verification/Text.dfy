/** String order, sorting, and the splitting and joining that the text formats rest on. */
module Text {

  /* ---- order ---- */

  predicate StrLE(a: string, b: string) {
    if a == [] then true
    else if b == [] then false
    else if a[0] != b[0] then a[0] < b[0]
    else StrLE(a[1..], b[1..])
  }

  predicate StrLess(a: string, b: string) { a != b && StrLE(a, b) }

  lemma {:induction false} StrTotal(a: string, b: string)
    ensures StrLE(a, b) || StrLE(b, a)
    ensures StrLE(a, b) && StrLE(b, a) ==> a == b
  {
    if a != [] && b != [] {
      StrTotal(a[1..], b[1..]);
      assert a == [a[0]] + a[1..] && b == [b[0]] + b[1..];
    }
  }

  lemma {:induction false} StrTrans(a: string, b: string, c: string)
    requires StrLE(a, b) && StrLE(b, c)
    ensures StrLE(a, c)
  {
    if a != [] && b != [] && c != [] && a[0] == b[0] == c[0] {
      StrTrans(a[1..], b[1..], c[1..]);
    }
  }

  lemma StrLessTrans(a: string, b: string, c: string)
    requires StrLess(a, b) && StrLess(b, c)
    ensures StrLess(a, c)
  {
    StrTrans(a, b, c);
    StrTotal(a, b);
  }

  /* ---- sorted lists of strings ---- */

  ghost predicate Sorted(s: seq<string>) {
    forall i, j :: 0 <= i < j < |s| ==> StrLE(s[i], s[j])
  }

  function Insert(x: string, s: seq<string>): seq<string> {
    if s == [] || StrLE(x, s[0]) then [x] + s else [s[0]] + Insert(x, s[1..])
  }

  /** `sort.Strings`. */
  function SortStrings(s: seq<string>): seq<string> {
    if s == [] then [] else Insert(s[0], SortStrings(s[1..]))
  }

  lemma {:induction false} InsertSorted(x: string, s: seq<string>)
    requires Sorted(s)
    ensures Sorted(Insert(x, s)) && multiset(Insert(x, s)) == multiset(s) + multiset{x} && |Insert(x, s)| == |s| + 1
  {
    if s == [] {
    } else if StrLE(x, s[0]) {
      forall j | 0 <= j < |s|
        ensures StrLE(x, s[j])
      {
        if j > 0 {
          StrTrans(x, s[0], s[j]);
        }
      }
    } else {
      StrTotal(x, s[0]);
      InsertSorted(x, s[1..]);
      var r := Insert(x, s[1..]);
      assert s == [s[0]] + s[1..];
      forall j | 0 <= j < |r|
        ensures StrLE(s[0], r[j])
      {
        assert r[j] in multiset(r);
        assert r[j] == x || r[j] in s[1..];
      }
    }
  }

  lemma {:induction false} SortSorts(s: seq<string>)
    ensures Sorted(SortStrings(s)) && multiset(SortStrings(s)) == multiset(s) && |SortStrings(s)| == |s|
  {
    if s != [] {
      SortSorts(s[1..]);
      InsertSorted(s[0], SortStrings(s[1..]));
      assert s == [s[0]] + s[1..];
    }
  }

  /* ---- the sorted keys of a map ---- */

  /** `ks` lists the members of `s` once each, in order: what collecting map keys and sorting them yields. */
  ghost predicate SortedListOf(ks: seq<string>, s: set<string>) {
    && (forall i, j :: 0 <= i < j < |ks| ==> StrLess(ks[i], ks[j]))
    && (forall k :: k in ks <==> k in s)
  }

  /** There is only one such list, whatever order the map was walked in. */
  lemma {:induction false} SortedListUnique(a: seq<string>, b: seq<string>, s: set<string>)
    requires SortedListOf(a, s) && SortedListOf(b, s)
    ensures a == b
  {
    if a != [] || b != [] {
      assert a != [] ==> a[0] in s;
      assert b != [] ==> b[0] in s;
      var j :| 0 <= j < |b| && b[j] == a[0];
      var i :| 0 <= i < |a| && a[i] == b[0];
      if i > 0 && j > 0 {
        StrTotal(a[0], b[0]);
      }
      assert a[0] == b[0];
      TailOf(a, s);
      TailOf(b, s);
      SortedListUnique(a[1..], b[1..], s - {a[0]});
      assert a == [a[0]] + a[1..] && b == [b[0]] + b[1..];
    }
  }

  lemma TailOf(a: seq<string>, s: set<string>)
    requires SortedListOf(a, s) && a != []
    ensures SortedListOf(a[1..], s - {a[0]})
  {
    assert a == [a[0]] + a[1..];
    forall k
      ensures k in a[1..] <==> k in s - {a[0]}
    {
      if k in a[1..] {
        var i :| 0 <= i < |a[1..]| && a[1..][i] == k;
        assert StrLess(a[0], a[i + 1]);
      }
    }
  }

  lemma {:induction false} InsertStrict(x: string, ks: seq<string>, s: set<string>)
    requires SortedListOf(ks, s) && x !in s
    ensures SortedListOf(Insert(x, ks), s + {x})
  {
    if ks == [] {
    } else if StrLE(x, ks[0]) {
      assert ks[0] in s;
      forall j | 0 < j < |ks|
        ensures StrLess(x, ks[j])
      {
        StrLessTrans(x, ks[0], ks[j]);
      }
    } else {
      StrTotal(x, ks[0]);
      TailOf(ks, s);
      var t := s - {ks[0]};
      InsertStrict(x, ks[1..], t);
      var r := Insert(x, ks[1..]);
      assert ks == [ks[0]] + ks[1..] && ks[0] in s;
      forall j | 0 <= j < |r|
        ensures StrLess(ks[0], r[j])
      {
        assert r[j] in r;
        if r[j] != x {
          assert r[j] in ks[1..];
          var m :| 0 <= m < |ks[1..]| && ks[1..][m] == r[j];
          assert StrLess(ks[0], ks[m + 1]);
        }
      }
    }
  }

  ghost function SortedKeys(s: set<string>): (ks: seq<string>)
    ensures SortedListOf(ks, s)
  {
    if s == {} then []
    else
      var x :| x in s;
      InsertStrict(x, SortedKeys(s - {x}), s - {x});
      assert s - {x} + {x} == s;
      Insert(x, SortedKeys(s - {x}))
  }

  /** Walk a set in any order, then sort: always the same list. */
  method CollectSorted(s: set<string>) returns (ks: seq<string>)
    ensures ks == SortedKeys(s)
  {
    ks := [];
    var rest := s;
    ghost var done := {};
    while rest != {}
      invariant done + rest == s && done !! rest
      invariant SortedListOf(ks, done)
      decreases rest
    {
      var x :| x in rest;
      InsertStrict(x, ks, done);
      ks := Insert(x, ks);
      rest := rest - {x};
      done := done + {x};
    }
    assert done == s;
    SortedListUnique(ks, SortedKeys(s), s);
  }

  /* ---- splitting and joining ---- */

  /** `strings.Split(s, sep)` for a one-character separator. */
  function Split(s: string, sep: char): (parts: seq<string>)
    ensures |parts| >= 1
  {
    if s == [] then [""]
    else if s[0] == sep then [""] + Split(s[1..], sep)
    else
      var rest := Split(s[1..], sep);
      [[s[0]] + rest[0]] + rest[1..]
  }

  lemma {:induction false} SplitLine(a: string, b: string, sep: char)
    requires sep !in a
    ensures Split(a + [sep] + b, sep) == [a] + Split(b, sep)
  {
    if a == [] {
      assert a + [sep] + b == [sep] + b;
    } else {
      var s := a + [sep] + b;
      assert s[1..] == a[1..] + [sep] + b;
      SplitLine(a[1..], b, sep);
      assert [a[0]] + a[1..] == a;
    }
  }

  lemma {:induction false} SplitWhole(a: string, sep: char)
    requires sep !in a
    ensures Split(a, sep) == [a]
  {
    if a != [] {
      SplitWhole(a[1..], sep);
      assert [a[0]] + a[1..] == a;
    }
  }

  /** Each line followed by a newline. */
  function Unlines(lines: seq<string>): string {
    if lines == [] then "" else lines[0] + "\n" + Unlines(lines[1..])
  }

  /** Splitting rendered lines gives the lines back, and the empty string after the last newline. */
  lemma {:induction false} SplitUnlines(lines: seq<string>)
    requires forall i :: 0 <= i < |lines| ==> '\n' !in lines[i]
    ensures Split(Unlines(lines), '\n') == lines + [""]
  {
    if lines != [] {
      SplitUnlines(lines[1..]);
      SplitLine(lines[0], Unlines(lines[1..]), '\n');
      assert lines == [lines[0]] + lines[1..];
    }
  }

  /** Go's `unicode.IsSpace`. */
  predicate IsSpace(c: char) {
    || c == ' ' || '\t' <= c <= '\r' || c == '\U{85}' || c == '\U{A0}'
    || c == '\U{1680}' || '\U{2000}' <= c <= '\U{200A}' || c == '\U{2028}' || c == '\U{2029}'
    || c == '\U{202F}' || c == '\U{205F}' || c == '\U{3000}'
  }

  function TrimLeft(s: string): string {
    if s != [] && IsSpace(s[0]) then TrimLeft(s[1..]) else s
  }

  function TrimRight(s: string): string {
    if s != [] && IsSpace(s[|s| - 1]) then TrimRight(s[..|s| - 1]) else s
  }

  function TrimSpace(s: string): string { TrimRight(TrimLeft(s)) }

  lemma {:induction false} TrimRightHead(s: string)
    requires s != "" && !IsSpace(s[0])
    ensures TrimRight(s) != "" && TrimRight(s)[0] == s[0]
  {
    if IsSpace(s[|s| - 1]) {
      TrimRightHead(s[..|s| - 1]);
    }
  }

  /** The first word of `s`, which does not start with a space. */
  function TakeWord(s: string): string {
    if s == [] || IsSpace(s[0]) then "" else [s[0]] + TakeWord(s[1..])
  }

  lemma {:induction false} TakeWordPrefix(s: string)
    ensures |TakeWord(s)| <= |s|
    ensures s != [] && !IsSpace(s[0]) ==> TakeWord(s) != []
  {
    if s != [] && !IsSpace(s[0]) {
      TakeWordPrefix(s[1..]);
    }
  }

  /** `strings.Fields`. */
  function Fields(s: string): seq<string>
    decreases |s|
  {
    if s == [] then []
    else if IsSpace(s[0]) then Fields(s[1..])
    else
      TakeWordPrefix(s);
      [TakeWord(s)] + Fields(s[|TakeWord(s)|..])
  }

  /** A nonempty string without white space. */
  predicate Word(w: string) { w != "" && forall i :: 0 <= i < |w| ==> !IsSpace(w[i]) }

  /** Words joined by single spaces, as the format strings lay them out. */
  function JoinWords(ws: seq<string>): string {
    if ws == [] then "" else if |ws| == 1 then ws[0] else ws[0] + " " + JoinWords(ws[1..])
  }

  lemma {:induction false} TakeWordOf(w: string, rest: string)
    requires forall i :: 0 <= i < |w| ==> !IsSpace(w[i])
    requires rest == [] || IsSpace(rest[0])
    ensures TakeWord(w + rest) == w
  {
    if w == [] {
      assert w + rest == rest;
    } else {
      assert (w + rest)[1..] == w[1..] + rest;
      TakeWordOf(w[1..], rest);
      assert [w[0]] + w[1..] == w;
    }
  }

  /** Splitting a rendered line into fields gives back the words it was rendered from. */
  lemma {:induction false} FieldsJoin(ws: seq<string>)
    requires forall i :: 0 <= i < |ws| ==> Word(ws[i])
    ensures Fields(JoinWords(ws)) == ws
  {
    if ws == [] {
    } else {
      var rest := if |ws| == 1 then "" else " " + JoinWords(ws[1..]);
      assert JoinWords(ws) == ws[0] + rest by { if |ws| == 1 { assert ws[0] + "" == ws[0]; } }
      TakeWordOf(ws[0], rest);
      assert (ws[0] + rest)[|ws[0]|..] == rest;
      assert ws == [ws[0]] + ws[1..];
      if |ws| > 1 {
        FieldsJoin(ws[1..]);
        assert rest[1..] == JoinWords(ws[1..]);
      }
    }
  }

  lemma {:induction false} JoinEnds(ws: seq<string>)
    requires ws != [] && Word(ws[0]) && forall i :: 0 <= i < |ws| ==> Word(ws[i])
    ensures var s := JoinWords(ws); s != [] && s[0] == ws[0][0] && !IsSpace(s[0]) && !IsSpace(s[|s| - 1])
    ensures forall c :: c in JoinWords(ws) ==> c == ' ' || exists i :: 0 <= i < |ws| && c in ws[i]
  {
    if |ws| > 1 {
      JoinEnds(ws[1..]);
      var t := JoinWords(ws[1..]);
      assert JoinWords(ws) == ws[0] + " " + t;
      forall c | c in t && c != ' '
        ensures exists i :: 0 <= i < |ws| && c in ws[i]
      {
        var i :| 0 <= i < |ws[1..]| && c in ws[1..][i];
        assert c in ws[i + 1];
      }
    }
  }

  /** A rendered line has nothing to trim and no newline inside. */
  lemma JoinTrims(ws: seq<string>)
    requires ws != [] && forall i :: 0 <= i < |ws| ==> Word(ws[i])
    ensures TrimSpace(JoinWords(ws)) == JoinWords(ws) && '\n' !in JoinWords(ws) && JoinWords(ws) != ""
  {
    JoinEnds(ws);
    forall i | 0 <= i < |ws|
      ensures '\n' !in ws[i]
    {
    }
  }

  /** The first difference decides, and a prefix comes first: the order `sort.Strings` sorts by. */
  lemma {:induction false} StrOrder(p: string, x: char, y: char, a: string, b: string)
    requires x < y
    ensures StrLess(p + [x] + a, p + [y] + b) && StrLE(p, p + a)
  {
    var s, t := p + [x] + a, p + [y] + b;
    assert s[|p|] == x && t[|p|] == y;
    if p != "" {
      StrOrder(p[1..], x, y, a, b);
      assert s[1..] == p[1..] + [x] + a && t[1..] == p[1..] + [y] + b && (p + a)[1..] == p[1..] + a;
    }
  }
}
