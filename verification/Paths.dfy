/** Volume paths: confinement below a root, by cleaning, joining and relativising. */
module Paths {
  import opened Common
  import opened Text

  /* ---- clean absolute paths ---- */

  predicate IsAbs(s: string) { s != "" && s[0] == '/' }

  /** One path element applied to the elements above it, in a rooted path. */
  function Push(stack: seq<string>, seg: string): seq<string> {
    if seg == "" || seg == "." then stack
    else if seg == ".." then if stack == [] then [] else stack[..|stack| - 1]
    else stack + [seg]
  }

  function Walk(stack: seq<string>, segs: seq<string>): seq<string>
    decreases |segs|
  {
    if segs == [] then stack else Walk(Push(stack, segs[0]), segs[1..])
  }

  predicate CleanSeg(seg: string) { seg != "" && seg != "." && seg != ".." && '/' !in seg }

  predicate CleanSegs(segs: seq<string>) { forall i :: 0 <= i < |segs| ==> CleanSeg(segs[i]) }

  /** The elements of `filepath.Clean` of a rooted path. */
  function Segs(path: string): seq<string> { Walk([], Split(path, '/')) }

  function JoinSlash(segs: seq<string>): string {
    if segs == [] then "" else if |segs| == 1 then segs[0] else segs[0] + "/" + JoinSlash(segs[1..])
  }

  /** The text of a clean rooted path. */
  function Render(segs: seq<string>): string { "/" + JoinSlash(segs) }

  function Clean(path: string): string { Render(Segs(path)) }

  lemma {:induction false} WalkAppend(stack: seq<string>, a: seq<string>, b: seq<string>)
    ensures Walk(stack, a + b) == Walk(Walk(stack, a), b)
    decreases |a|
  {
    if a == [] {
      assert a + b == b;
    } else {
      assert (a + b)[1..] == a[1..] + b;
      WalkAppend(Push(stack, a[0]), a[1..], b);
    }
  }

  lemma {:induction false} WalkClean(stack: seq<string>, segs: seq<string>)
    requires CleanSegs(stack) && forall i :: 0 <= i < |segs| ==> '/' !in segs[i]
    ensures CleanSegs(Walk(stack, segs))
    decreases |segs|
  {
    if segs != [] {
      WalkClean(Push(stack, segs[0]), segs[1..]);
    }
  }

  lemma {:induction false} WalkOfClean(stack: seq<string>, segs: seq<string>)
    requires CleanSegs(segs)
    ensures Walk(stack, segs) == stack + segs
    decreases |segs|
  {
    if segs != [] {
      WalkOfClean(stack + [segs[0]], segs[1..]);
      assert stack + [segs[0]] + segs[1..] == stack + segs;
    } else {
      assert stack + segs == stack;
    }
  }

  lemma {:induction false} SplitNoSep(s: string, sep: char)
    ensures forall i :: 0 <= i < |Split(s, sep)| ==> sep !in Split(s, sep)[i]
  {
    if s != "" {
      SplitNoSep(s[1..], sep);
    }
  }

  lemma {:induction false} SplitConcat(a: string, b: string, sep: char)
    ensures Split(a + [sep] + b, sep) == Split(a, sep) + Split(b, sep)
  {
    if a == "" {
      assert a + [sep] + b == [sep] + b;
    } else {
      var s := a + [sep] + b;
      assert s[0] == a[0] && s[1..] == a[1..] + [sep] + b;
      SplitConcat(a[1..], b, sep);
      HeadOfConcat(a[0], Split(a[1..], sep), Split(b, sep));
    }
  }

  lemma HeadOfConcat(c: char, x: seq<string>, y: seq<string>)
    requires x != []
    ensures [[c] + (x + y)[0]] + (x + y)[1..] == [[c] + x[0]] + x[1..] + y
    ensures [""] + (x + y) == [""] + x + y
  {
    assert (x + y)[1..] == x[1..] + y;
  }

  lemma SegsClean(path: string)
    ensures CleanSegs(Segs(path))
  {
    SplitNoSep(path, '/');
    WalkClean([], Split(path, '/'));
  }

  lemma {:induction false} SplitJoin(segs: seq<string>)
    requires CleanSegs(segs) && segs != []
    ensures Split(JoinSlash(segs), '/') == segs
  {
    if |segs| == 1 {
      SplitWhole(segs[0], '/');
    } else {
      SplitJoin(segs[1..]);
      SplitLine(segs[0], JoinSlash(segs[1..]), '/');
      assert segs == [segs[0]] + segs[1..];
    }
  }

  /** A clean path is its own clean form. */
  lemma SegsRender(segs: seq<string>)
    requires CleanSegs(segs)
    ensures Segs(Render(segs)) == segs
  {
    var body := JoinSlash(segs);
    assert Render(segs) == "" + ['/'] + body;
    SplitLine("", body, '/');
    assert Walk([], [""] + Split(body, '/')) == Walk([], Split(body, '/')) by {
      assert ([""] + Split(body, '/'))[1..] == Split(body, '/');
    }
    if segs == [] {
      assert Split(body, '/') == [""];
      assert Walk([], [""]) == Walk([], []);
    } else {
      SplitJoin(segs);
      WalkOfClean([], segs);
    }
  }

  /** `filepath.Clean` is idempotent. */
  lemma CleanIdempotent(path: string)
    ensures Clean(Clean(path)) == Clean(path)
  {
    SegsClean(path);
    SegsRender(Segs(path));
  }

  /* ---- joining ---- */

  /** The text `filepath.Join` cleans: the nonempty elements after the root, slash-separated. */
  function Joined(root: string, elems: seq<string>): string
    decreases |elems|
  {
    if elems == [] then root
    else if elems[0] == "" then Joined(root, elems[1..])
    else Joined(root + "/" + elems[0], elems[1..])
  }

  /** The elements all the given names contribute. */
  function ElemSegs(elems: seq<string>): seq<string> {
    if elems == [] then [] else Split(elems[0], '/') + ElemSegs(elems[1..])
  }

  lemma {:induction false} JoinedSegs(root: string, elems: seq<string>)
    ensures Segs(Joined(root, elems)) == Walk(Segs(root), ElemSegs(elems))
    decreases |elems|
  {
    if elems == [] {
    } else {
      var e, rest := elems[0], elems[1..];
      WalkAppend(Segs(root), Split(e, '/'), ElemSegs(rest));
      if e == "" {
        JoinedSegs(root, rest);
        assert Walk(Segs(root), [""]) == Walk(Segs(root), []);
      } else {
        JoinedSegs(root + "/" + e, rest);
        SplitConcat(root, e, '/');
        assert root + "/" + e == root + ['/'] + e;
        WalkAppend([], Split(root, '/'), Split(e, '/'));
      }
    }
  }

  /* ---- relativising ---- */

  function CommonLen(a: seq<string>, b: seq<string>): (k: nat)
    ensures k <= |a| && k <= |b| && a[..k] == b[..k]
    ensures k < |a| && k < |b| ==> a[k] != b[k]
  {
    if a != [] && b != [] && a[0] == b[0] then
      var k := CommonLen(a[1..], b[1..]);
      assert a[..k + 1] == [a[0]] + a[1..][..k] && b[..k + 1] == [b[0]] + b[1..][..k];
      k + 1
    else 0
  }

  function Ups(n: nat): (u: seq<string>)
    ensures |u| == n
  {
    seq(n, _ => "..")
  }

  /** `filepath.Rel` of two clean rooted paths, as text. */
  function Rel(base: seq<string>, target: seq<string>): string {
    var k := CommonLen(base, target);
    var segs := Ups(|base| - k) + target[k..];
    if segs == [] then "." else JoinSlash(segs)
  }

  predicate Escapes(rel: string) {
    rel == "." || rel == ".." || (|rel| >= 3 && rel[..3] == "../") || IsAbs(rel)
  }

  predicate Below(root: seq<string>, path: seq<string>) { root < path }

  lemma JoinHead(segs: seq<string>)
    requires segs != []
    ensures segs[0] <= JoinSlash(segs)
    ensures |segs| > 1 ==> segs[0] + "/" <= JoinSlash(segs)
    ensures |segs| == 1 ==> JoinSlash(segs) == segs[0]
  {
  }

  /** The textual test accepts exactly the paths whose elements properly extend the root's. */
  lemma RelTestExact(base: seq<string>, target: seq<string>)
    requires CleanSegs(base) && CleanSegs(target)
    ensures Escapes(Rel(base, target)) <==> !Below(base, target)
  {
    var k := CommonLen(base, target);
    var segs := Ups(|base| - k) + target[k..];
    if segs != [] {
      JoinHead(segs);
    }
    if k < |base| {
      assert segs[0] == "..";
    } else if segs != [] {
      assert segs[0] == target[k] && CleanSeg(target[k]);
      CleanHeadStays(segs[0], JoinSlash(segs), |segs| > 1);
    }
  }

  lemma CleanHeadStays(head: string, rel: string, more: bool)
    requires CleanSeg(head) && head <= rel
    requires if more then head + "/" <= rel else rel == head
    ensures !Escapes(rel)
  {
    assert forall i :: 0 <= i < |head| ==> rel[i] == head[i] && head[i] in head;
    assert more ==> rel[|head|] == '/';
    assert |head| == 2 && head[0] == '.' && head[1] == '.' ==> head == "..";
    assert more ==> '/' in rel;
    assert |rel| >= 3 ==> rel[..3] == [rel[0], rel[1], rel[2]];
  }

  /* ---- confinement ---- */

  /** `safeJoinUnderRoot`: the joined path, or None where it is refused. */
  function SafeJoin(root: string, elems: seq<string>): Option<string> {
    if !IsAbs(root) then None
    else
      var cleanRoot := Clean(root);
      var joined := Clean(Joined(cleanRoot, elems));
      if Escapes(Rel(Segs(cleanRoot), Segs(joined))) then None else Some(joined)
  }

  /** Accepted exactly when the elements stay strictly below the root, and then the result spells them. */
  lemma SafeJoinExact(root: string, elems: seq<string>)
    ensures var target := Walk(Segs(root), ElemSegs(elems));
            && (SafeJoin(root, elems).Some? <==> IsAbs(root) && Below(Segs(root), target))
            && (SafeJoin(root, elems).Some? ==>
                  SafeJoin(root, elems).value == Render(target) && Segs(SafeJoin(root, elems).value) == target)
  {
    var cleanRoot := Clean(root);
    SegsClean(root);
    SegsRender(Segs(root));
    JoinedSegs(cleanRoot, elems);
    var target := Walk(Segs(root), ElemSegs(elems));
    SegsClean(Joined(cleanRoot, elems));
    SegsRender(target);
    RelTestExact(Segs(root), target);
  }

  function SafePodRoot(root: string, uid: string): Option<string> {
    if root == "" || uid == "" then None else SafeJoin(root, [uid])
  }

  function SafeVolumeDir(root: string, uid: string, name: string): Option<string> {
    if name == "" then None
    else
      match SafePodRoot(root, uid)
      case None => None
      case Some(podRoot) => SafeJoin(podRoot, [name])
  }

  /** A projected file: its key may name subdirectories. */
  function SafeFile(dir: string, relPath: string): Option<string> { SafeJoin(dir, Split(relPath, '/')) }

  /** A slash-free UID names its own directory directly below the root; only the dot names are refused. */
  lemma PodRootExact(root: string, uid: string)
    requires '/' !in uid
    ensures SafePodRoot(root, uid).Some? <==> IsAbs(root) && CleanSeg(uid)
    ensures SafePodRoot(root, uid).Some? ==> Segs(SafePodRoot(root, uid).value) == Segs(root) + [uid]
  {
    SafeJoinExact(root, [uid]);
    SplitWhole(uid, '/');
    assert ElemSegs([uid]) == [uid];
    assert Walk(Segs(root), [uid]) == Push(Segs(root), uid);
  }

  /** Every directory and file scheduled for a Pod lies strictly below the tree its cleanup removes. */
  lemma VolumesBelowPodRoot(root: string, uid: string, name: string, relPath: string)
    requires '/' !in uid && SafeVolumeDir(root, uid, name).Some?
    ensures SafePodRoot(root, uid).Some?
    ensures var tree, dir := Segs(root) + [uid], SafeVolumeDir(root, uid, name).value;
            && Below(tree, Segs(dir))
            && (SafeFile(dir, relPath).Some? ==> Below(tree, Segs(SafeFile(dir, relPath).value)))
  {
    PodRootExact(root, uid);
    var podRoot := SafePodRoot(root, uid).value;
    SafeJoinExact(podRoot, [name]);
    SafeJoinExact(SafeVolumeDir(root, uid, name).value, Split(relPath, '/'));
  }

  /** The trees of two Pods with different slash-free UIDs share no path. */
  lemma TreesDisjoint(root: string, a: string, b: string, path: seq<string>)
    requires '/' !in a && '/' !in b && a != b && SafePodRoot(root, a).Some? && SafePodRoot(root, b).Some?
    ensures !(Segs(SafePodRoot(root, a).value) <= path && Segs(SafePodRoot(root, b).value) <= path)
  {
    PodRootExact(root, a);
    PodRootExact(root, b);
    var n := |Segs(root)|;
    assert (Segs(root) + [a])[n] == a && (Segs(root) + [b])[n] == b;
  }
}
