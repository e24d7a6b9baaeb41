/** `$(VAR)` expansion: an index loop against a token semantics. */
module Env {
  import opened Common

  datatype Token = Lit(c: char) | Ref(name: string)

  type Vars = map<string, string>

  /** `strings.IndexByte`. */
  function IndexOf(s: string, c: char): (r: Option<nat>)
    ensures r.Some? ==> r.value < |s| && s[r.value] == c && c !in s[..r.value]
    ensures r.None? ==> c !in s
  {
    if s == "" then None
    else if s[0] == c then Some(0)
    else
      match IndexOf(s[1..], c)
      case None => None
      case Some(i) => assert s[..i + 1] == [s[0]] + s[1..][..i]; Some(i + 1)
  }

  /** `$$` is a literal dollar, `$(NAME)` a reference; any other dollar stands for itself. */
  function Tokenize(s: string): seq<Token>
    decreases |s|
  {
    if s == "" then []
    else if s[0] != '$' || |s| == 1 then [Lit(s[0])] + Tokenize(s[1..])
    else if s[1] == '$' then [Lit('$')] + Tokenize(s[2..])
    else if s[1] == '(' && IndexOf(s[2..], ')').Some? then
      var end := IndexOf(s[2..], ')').value;
      [Ref(s[2..2 + end])] + Tokenize(s[3 + end..])
    else [Lit('$')] + Tokenize(s[1..])
  }

  function MeaningOf(t: Token, vars: Vars): string {
    match t
    case Lit(c) => [c]
    case Ref(name) => if name in vars then vars[name] else "$(" + name + ")"
  }

  function Meaning(ts: seq<Token>, vars: Vars): string {
    if ts == [] then "" else MeaningOf(ts[0], vars) + Meaning(ts[1..], vars)
  }

  lemma MeaningCons(t: Token, ts: seq<Token>, vars: Vars)
    ensures Meaning([t] + ts, vars) == MeaningOf(t, vars) + Meaning(ts, vars)
  {
    assert ([t] + ts)[1..] == ts;
  }

  lemma {:induction false} NoDollar(s: string, vars: Vars)
    requires '$' !in s
    ensures Meaning(Tokenize(s), vars) == s
  {
    if s != "" {
      NoDollar(s[1..], vars);
      MeaningCons(Lit(s[0]), Tokenize(s[1..]), vars);
      assert s == [s[0]] + s[1..];
    }
  }

  /** `expandEnv` writes the meaning of the value's tokens. */
  method ExpandEnv(value: string, vars: Vars) returns (out: string)
    ensures out == Meaning(Tokenize(value), vars)
  {
    if '$' !in value {
      NoDollar(value, vars);
      return value;
    }
    var b := "";
    var i := 0;
    while i < |value|
      invariant 0 <= i <= |value|
      invariant Meaning(Tokenize(value), vars) == b + Meaning(Tokenize(value[i..]), vars)
    {
      ghost var rest := value[i..];
      var token, next := Step(value, i);
      MeaningCons(token, Tokenize(value[next..]), vars);
      b := b + MeaningOf(token, vars);
      i := next;
    }
    assert value[i..] == "";
    out := b;
  }

  /** One turn of the loop: the token at `i`, and where the next one starts. */
  method Step(value: string, i: nat) returns (token: Token, next: nat)
    requires i < |value|
    ensures i < next <= |value|
    ensures Tokenize(value[i..]) == [token] + Tokenize(value[next..])
  {
    var rest := value[i..];
    if value[i] != '$' || i + 1 >= |value| {
      assert rest[1..] == value[i + 1..];
      return Lit(value[i]), i + 1;
    }
    if value[i + 1] == '$' {
      assert rest[2..] == value[i + 2..];
      return Lit('$'), i + 2;
    }
    if value[i + 1] == '(' {
      var end := IndexOf(value[i + 2..], ')');
      assert rest[2..] == value[i + 2..];
      if end.Some? {
        assert rest[3 + end.value..] == value[i + 3 + end.value..];
        assert rest[2..2 + end.value] == value[i + 2..i + 2 + end.value];
        return Ref(value[i + 2..i + 2 + end.value]), i + 3 + end.value;
      }
    }
    assert rest[1..] == value[i + 1..];
    return Lit('$'), i + 1;
  }

  /* ---- round trip ---- */

  function UnparseOf(t: Token): string {
    match t
    case Lit(c) => if c == '$' then "$$" else [c]
    case Ref(name) => "$(" + name + ")"
  }

  /** A text for a token list: dollars doubled, references spelled out. */
  function Unparse(ts: seq<Token>): string {
    if ts == [] then "" else UnparseOf(ts[0]) + Unparse(ts[1..])
  }

  predicate Nameable(ts: seq<Token>) {
    forall i :: 0 <= i < |ts| && ts[i].Ref? ==> ')' !in ts[i].name
  }

  lemma {:induction false} FirstClose(name: string, rest: string)
    requires ')' !in name
    ensures IndexOf(name + ")" + rest, ')') == Some(|name|)
  {
    var s := name + ")" + rest;
    if name != "" {
      assert s[1..] == name[1..] + ")" + rest;
      FirstClose(name[1..], rest);
    }
  }

  lemma TokenizeOne(t: Token, rest: string)
    requires t.Ref? ==> ')' !in t.name
    ensures Tokenize(UnparseOf(t) + rest) == [t] + Tokenize(rest)
  {
    var s := UnparseOf(t) + rest;
    match t {
      case Lit(c) =>
        assert s[|UnparseOf(t)|..] == rest;
      case Ref(name) =>
        FirstClose(name, rest);
        assert s[0] == '$' && s[1] == '(' && s[2..] == name + ")" + rest;
        assert s[2..2 + |name|] == name && s[3 + |name|..] == rest;
    }
  }

  lemma {:induction false} TokenizeUnparse(ts: seq<Token>)
    requires Nameable(ts)
    ensures Tokenize(Unparse(ts)) == ts
  {
    if ts != [] {
      TokenizeUnparse(ts[1..]);
      TokenizeOne(ts[0], Unparse(ts[1..]));
      assert ts == [ts[0]] + ts[1..];
    }
  }

  /**
   * Every token list is the reading of some text, and expanding that text gives exactly the tokens' meaning: a
   * substituted value is copied as it is, dollars and all, and never read again.
   */
  lemma ExpandUnparse(ts: seq<Token>, vars: Vars)
    requires Nameable(ts)
    ensures Meaning(Tokenize(Unparse(ts)), vars) == Meaning(ts, vars)
  {
    TokenizeUnparse(ts);
  }

  function Doubled(s: string): string {
    if s == "" then "" else (if s[0] == '$' then "$$" else [s[0]]) + Doubled(s[1..])
  }

  function Lits(s: string): (ts: seq<Token>) { seq(|s|, i requires 0 <= i < |s| => Lit(s[i])) }

  lemma {:induction false} LitsText(s: string, vars: Vars)
    ensures Unparse(Lits(s)) == Doubled(s) && Meaning(Lits(s), vars) == s
  {
    if s != "" {
      assert Lits(s)[1..] == Lits(s[1..]);
      LitsText(s[1..], vars);
      assert s == [s[0]] + s[1..];
    }
  }

  /** Doubling every dollar protects a text from expansion, whatever the variables. */
  lemma DoubledExpandsBack(s: string, vars: Vars)
    ensures Meaning(Tokenize(Doubled(s)), vars) == s
  {
    LitsText(s, vars);
    ExpandUnparse(Lits(s), vars);
  }

  /* ---- expansion on texts ---- */

  function Expanded(s: string, vars: Vars): string { Meaning(Tokenize(s), vars) }

  lemma CharCopied(c: char, rest: string, vars: Vars)
    requires c != '$'
    ensures Expanded([c] + rest, vars) == [c] + Expanded(rest, vars)
  {
    TokenizeOne(Lit(c), rest);
    MeaningCons(Lit(c), Tokenize(rest), vars);
  }

  /** Text without a dollar is copied. */
  lemma {:induction false} TextCopied(a: string, rest: string, vars: Vars)
    requires '$' !in a
    ensures Expanded(a + rest, vars) == a + Expanded(rest, vars)
  {
    if a == "" {
      assert a + rest == rest;
    } else {
      var tail := a[1..] + rest;
      assert a + rest == [a[0]] + tail;
      TextCopied(a[1..], rest, vars);
      CharCopied(a[0], tail, vars);
      assert [a[0]] + (a[1..] + Expanded(rest, vars)) == a + Expanded(rest, vars);
    }
  }

  /** Two dollars are one. */
  lemma DollarsHalved(rest: string, vars: Vars)
    ensures Expanded("$$" + rest, vars) == "$" + Expanded(rest, vars)
  {
    TokenizeOne(Lit('$'), rest);
    MeaningCons(Lit('$'), Tokenize(rest), vars);
  }

  /** A reference becomes its variable's value, taken as it is, and stays as written when there is no such variable. */
  lemma ReferenceReplaced(name: string, rest: string, vars: Vars)
    requires ')' !in name
    ensures Expanded("$(" + name + ")" + rest, vars) ==
            (if name in vars then vars[name] else "$(" + name + ")") + Expanded(rest, vars)
  {
    TokenizeOne(Ref(name), rest);
    MeaningCons(Ref(name), Tokenize(rest), vars);
  }

  /** Any other dollar stands for itself: at the end, before another character, or before a parenthesis never closed. */
  lemma DollarKept(rest: string, vars: Vars)
    requires rest == "" || (rest[0] != '$' && rest[0] != '(') || (rest[0] == '(' && ')' !in rest)
    ensures Expanded("$" + rest, vars) == "$" + Expanded(rest, vars)
  {
    var s := "$" + rest;
    assert s[1..] == rest;
    assert rest != "" && rest[0] == '(' ==> s[2..] == rest[1..];
    MeaningCons(Lit('$'), Tokenize(rest), vars);
  }
}
