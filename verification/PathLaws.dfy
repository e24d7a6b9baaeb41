/** Cleaning and confinement stated on path texts alone, with no reference to how a path is walked. */
module PathLaws {
  import opened Common
  import opened Text
  import opened Paths

  function Parent(segs: seq<string>): seq<string> { if segs == [] then [] else segs[..|segs| - 1] }

  lemma SegsThen(p: string, q: string)
    ensures Segs(p + "/" + q) == Walk(Segs(p), Split(q, '/'))
  {
    assert p + "/" + q == p + ['/'] + q;
    SplitConcat(p, q, '/');
    WalkAppend([], Split(p, '/'), Split(q, '/'));
  }

  lemma OneElement(p: string, x: string)
    requires '/' !in x
    ensures Segs(p + "/" + x) == Walk(Segs(p), [x])
  {
    SegsThen(p, x);
    SplitWhole(x, '/');
  }

  lemma WalkOne(stack: seq<string>, x: string)
    ensures Walk(stack, [x]) == Push(stack, x)
  {
    assert [x][1..] == [];
  }

  /** The root has no elements, and neither has a path of nothing. */
  lemma RootEmpty()
    ensures Segs("/") == [] && Segs("") == []
  {
    assert "/" == "" + "/" + "";
    OneElement("", "");
    WalkOne([], "");
    assert Segs("") == Walk([], [""]);
  }

  /** A plain element goes one level down. */
  lemma ElementDescends(p: string, x: string)
    requires CleanSeg(x)
    ensures Segs(p + "/" + x) == Segs(p) + [x]
  {
    OneElement(p, x);
    WalkOne(Segs(p), x);
  }

  /** Two dots go one level up, and stay at the root. */
  lemma DotsClimb(p: string)
    ensures Segs(p + "/" + "..") == Parent(Segs(p))
  {
    OneElement(p, "..");
    WalkOne(Segs(p), "..");
  }

  /** A single dot and a doubled or trailing slash change nothing. */
  lemma DotStays(p: string)
    ensures Segs(p + "/" + ".") == Segs(p) && Segs(p + "/" + "") == Segs(p)
  {
    OneElement(p, ".");
    OneElement(p, "");
    WalkOne(Segs(p), ".");
    WalkOne(Segs(p), "");
  }

  /** What follows depends on the elements before, not on how they were written. */
  lemma PrefixOnly(p: string, q: string, rest: string)
    requires Segs(p) == Segs(q)
    ensures Segs(p + "/" + rest) == Segs(q + "/" + rest)
  {
    SegsThen(p, rest);
    SegsThen(q, rest);
  }

  /** Going down and up again is going nowhere. */
  lemma DownUp(p: string, x: string, rest: string)
    requires CleanSeg(x)
    ensures Segs(p + "/" + x + "/" + ".." + "/" + rest) == Segs(p + "/" + rest)
  {
    ElementDescends(p, x);
    DotsClimb(p + "/" + x);
    PrefixOnly(p + "/" + x + "/" + "..", p, rest);
  }

  /** There is nothing above the root. */
  lemma RootHolds(rest: string)
    ensures Segs("/" + ".." + "/" + rest) == Segs("/" + rest)
  {
    RootEmpty();
    DotsClimb("");
    assert "/" + ".." == "" + "/" + "..";
    PrefixOnly("/" + "..", "", rest);
    assert "" + "/" + rest == "/" + rest;
  }

  /* ---- confinement ---- */

  lemma FileWalk(dir: string, rel: string)
    ensures SafeFile(dir, rel).Some? <==> IsAbs(dir) && Below(Segs(dir), Segs(dir + "/" + rel))
    ensures SafeFile(dir, rel).Some? ==> SafeFile(dir, rel).value == Render(Segs(dir + "/" + rel))
  {
    SafeJoinExact(dir, Split(rel, '/'));
    SegsThen(dir, rel);
    SplitNoSep(rel, '/');
    ElemsOfParts(Split(rel, '/'));
  }

  lemma {:induction false} ElemsOfParts(parts: seq<string>)
    requires forall i :: 0 <= i < |parts| ==> '/' !in parts[i]
    ensures ElemSegs(parts) == parts
  {
    if parts != [] {
      SplitWhole(parts[0], '/');
      ElemsOfParts(parts[1..]);
    }
  }

  /** A root that does not start with a slash holds nothing. */
  lemma RelativeRootRefused(root: string, elems: seq<string>)
    requires root == "" || root[0] != '/'
    ensures SafeJoin(root, elems).None?
  {
  }

  /** A file named by plain elements is accepted where it says. */
  lemma PlainFile(dir: string, x: string)
    requires dir != "" && dir[0] == '/' && CleanSeg(x)
    ensures SafeFile(dir, x) == Some(Render(Segs(dir) + [x]))
  {
    FileWalk(dir, x);
    ElementDescends(dir, x);
  }

  lemma PlainBelow(dir: string, x: string, y: string)
    requires dir != "" && dir[0] == '/' && CleanSeg(x) && CleanSeg(y)
    ensures SafeFile(dir, x + "/" + y) == Some(Render(Segs(dir) + [x, y]))
  {
    FileWalk(dir, x + "/" + y);
    assert dir + "/" + (x + "/" + y) == dir + "/" + x + "/" + y;
    ElementDescends(dir, x);
    ElementDescends(dir + "/" + x, y);
    assert Segs(dir) + [x] + [y] == Segs(dir) + [x, y];
  }

  /** A path that climbs out of its directory is refused, unless that is the root, which nothing climbs out of. */
  lemma ClimbRefused(dir: string, x: string)
    requires dir != "" && dir[0] == '/' && CleanSeg(x)
    ensures SafeFile(dir, ".." + "/" + x).None? <==> Segs(dir) != []
  {
    FileWalk(dir, ".." + "/" + x);
    assert dir + "/" + (".." + "/" + x) == dir + "/" + ".." + "/" + x;
    DotsClimb(dir);
    ElementDescends(dir + "/" + "..", x);
  }

  lemma Regroup(dir: string, x: string, rel: string)
    ensures dir + "/" + (x + "/" + ".." + "/" + rel) == dir + "/" + x + "/" + ".." + "/" + rel
  {
  }

  /** Nor does it help to go down first: a detour makes no difference. */
  lemma DetourSame(dir: string, x: string, rel: string)
    requires CleanSeg(x)
    ensures SafeFile(dir, x + "/" + ".." + "/" + rel) == SafeFile(dir, rel)
  {
    FileWalk(dir, x + "/" + ".." + "/" + rel);
    FileWalk(dir, rel);
    Regroup(dir, x, rel);
    DownUp(dir, x, rel);
  }

  /** So climbing out after a detour is refused, too. */
  lemma DetourRefused(dir: string, x: string, y: string)
    requires dir != "" && dir[0] == '/' && CleanSeg(x) && CleanSeg(y)
    ensures SafeFile(dir, x + "/" + ".." + "/" + (".." + "/" + y)).None? <==> Segs(dir) != []
  {
    DetourSame(dir, x, ".." + "/" + y);
    ClimbRefused(dir, y);
  }

  /** A path that ends at the directory itself is refused as well. */
  lemma SelfRefused(dir: string, x: string)
    requires CleanSeg(x)
    ensures SafeFile(dir, ".").None? && SafeFile(dir, "").None? && SafeFile(dir, x + "/" + "..").None?
  {
    FileWalk(dir, ".");
    FileWalk(dir, "");
    FileWalk(dir, x + "/" + "..");
    DotStays(dir);
    assert dir + "/" + (x + "/" + "..") == dir + "/" + x + "/" + "..";
    ElementDescends(dir, x);
    DotsClimb(dir + "/" + x);
  }

  lemma PlainJoin(root: string, name: string)
    requires '/' !in name
    ensures SafeJoin(root, [name]).Some? <==> IsAbs(root) && CleanSeg(name)
    ensures SafeJoin(root, [name]).Some? ==> SafeJoin(root, [name]).value == Render(Segs(root) + [name])
  {
    SafeJoinExact(root, [name]);
    SplitWhole(name, '/');
    assert ElemSegs([name]) == [name];
    WalkOne(Segs(root), name);
  }

  /** A volume directory is two plain levels below the root, and exists exactly for plain names. */
  lemma VolumeDirExact(root: string, uid: string, name: string)
    requires '/' !in uid && '/' !in name
    ensures SafeVolumeDir(root, uid, name).Some? <==> IsAbs(root) && CleanSeg(uid) && CleanSeg(name)
    ensures SafeVolumeDir(root, uid, name).Some? ==> SafeVolumeDir(root, uid, name).value == Render(Segs(root) + [uid, name])
  {
    PodRootExact(root, uid);
    if SafePodRoot(root, uid).Some? {
      SafeJoinExact(root, [uid]);
      PlainJoin(SafePodRoot(root, uid).value, name);
      assert Segs(root) + [uid] + [name] == Segs(root) + [uid, name];
    }
  }
}
