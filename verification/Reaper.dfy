/** The orphan reaper: a timed machine over scan passes that destroys only what stayed orphaned long enough. */
module Reaper {
  import opened Common
  import opened Text
  import Workload

  datatype VM = VM(id: string, phase: string)

  /* ---- drain: scan and reap ---- */

  predicate IsOrphan(vm: VM, expected: set<string>) {
    Workload.IsMacVzVM(vm.id) && vm.id !in expected
  }

  function Orphans(all: seq<VM>, expected: set<string>): seq<VM> {
    if all == [] then []
    else
      var rest := Orphans(all[..|all| - 1], expected);
      if IsOrphan(all[|all| - 1], expected) then rest + [all[|all| - 1]] else rest
  }

  function InsertVM(x: VM, s: seq<VM>): seq<VM> {
    if s == [] || StrLE(x.id, s[0].id) then [x] + s else [s[0]] + InsertVM(x, s[1..])
  }

  /** Sorted by ID. */
  function SortVMs(s: seq<VM>): seq<VM> {
    if s == [] then [] else InsertVM(s[0], SortVMs(s[1..]))
  }

  ghost predicate SortedVMs(s: seq<VM>) {
    forall i, j :: 0 <= i < j < |s| ==> StrLE(s[i].id, s[j].id)
  }

  lemma {:induction false} InsertVMSorted(x: VM, s: seq<VM>)
    requires SortedVMs(s)
    ensures SortedVMs(InsertVM(x, s)) && multiset(InsertVM(x, s)) == multiset(s) + multiset{x}
  {
    if s == [] {
    } else if StrLE(x.id, s[0].id) {
      forall j | 0 < j < |s|
        ensures StrLE(x.id, s[j].id)
      {
        StrTrans(x.id, s[0].id, s[j].id);
      }
    } else {
      StrTotal(x.id, s[0].id);
      InsertVMSorted(x, s[1..]);
      var r := InsertVM(x, s[1..]);
      assert s == [s[0]] + s[1..];
      forall j | 0 <= j < |r|
        ensures StrLE(s[0].id, r[j].id)
      {
        assert r[j] in multiset(r);
        assert r[j] == x || r[j] in s[1..];
      }
    }
  }

  lemma {:induction false} SortVMsSorts(s: seq<VM>)
    ensures SortedVMs(SortVMs(s)) && multiset(SortVMs(s)) == multiset(s)
  {
    if s != [] {
      SortVMsSorts(s[1..]);
      InsertVMSorted(s[0], SortVMs(s[1..]));
      assert s == [s[0]] + s[1..];
    }
  }

  lemma {:induction false} OrphansExact(all: seq<VM>, expected: set<string>)
    ensures forall vm :: vm in Orphans(all, expected) <==> vm in all && IsOrphan(vm, expected)
  {
    if all != [] {
      OrphansExact(all[..|all| - 1], expected);
      assert all == all[..|all| - 1] + [all[|all| - 1]];
    }
  }

  function ScanSpec(all: seq<VM>, expected: set<string>): seq<VM> {
    SortVMs(Orphans(all, expected))
  }

  /** Scan finds exactly the host's MacVz VMs that back no expected workload. */
  lemma ScanExact(all: seq<VM>, expected: set<string>)
    ensures SortedVMs(ScanSpec(all, expected))
    ensures forall vm :: vm in ScanSpec(all, expected) <==> vm in all && IsOrphan(vm, expected)
  {
    SortVMsSorts(Orphans(all, expected));
    OrphansExact(all, expected);
    forall vm
      ensures vm in ScanSpec(all, expected) <==> vm in Orphans(all, expected)
    {
      assert vm in ScanSpec(all, expected) <==> vm in multiset(ScanSpec(all, expected));
      assert vm in Orphans(all, expected) <==> vm in multiset(Orphans(all, expected));
    }
  }

  method Scan(all: seq<VM>, expected: set<string>) returns (orphans: seq<VM>)
    ensures orphans == ScanSpec(all, expected)
  {
    orphans := [];
    for i := 0 to |all|
      invariant orphans == Orphans(all[..i], expected)
    {
      assert all[..i + 1][..i] == all[..i];
      if IsOrphan(all[i], expected) {
        orphans := orphans + [all[i]];
      }
    }
    assert all[..|all|] == all;
    orphans := SortVMs(orphans);
  }

  function Ids(vms: seq<VM>): (ids: seq<string>)
    ensures |ids| == |vms|
  {
    seq(|vms|, i requires 0 <= i < |vms| => vms[i].id)
  }

  function Without(ids: seq<string>, bad: set<string>): seq<string> {
    if ids == [] then []
    else
      var rest := Without(ids[..|ids| - 1], bad);
      if ids[|ids| - 1] in bad then rest else rest + [ids[|ids| - 1]]
  }

  lemma {:induction false} WithoutExact(ids: seq<string>, bad: set<string>)
    ensures forall id :: id in Without(ids, bad) <==> id in ids && id !in bad
  {
    if ids != [] {
      WithoutExact(ids[..|ids| - 1], bad);
      assert ids == ids[..|ids| - 1] + [ids[|ids| - 1]];
    }
  }

  lemma IdsStep(vms: seq<VM>, i: nat, bad: set<string>)
    requires i < |vms|
    ensures Ids(vms)[..i + 1] == Ids(vms)[..i] + [vms[i].id]
    ensures Without(Ids(vms)[..i + 1], bad) == Without(Ids(vms)[..i], bad) + if vms[i].id in bad then [] else [vms[i].id]
  {
    assert Ids(vms)[..i + 1][..i] == Ids(vms)[..i];
  }

  /**
   * Stop and destroy each VM in turn; a stop failure does not skip the destroy, a destroy failure skips nothing else.
   * Then flush the pf anchor if there is a flusher, whose answer `flush` is.
   */
  method Reap(vms: seq<VM>, dryRun: bool, stopFails: set<string>, destroyFails: set<string>, flush: Option<bool>)
    returns (reaped: seq<string>, attempted: seq<string>, flushed: bool, failed: bool)
    ensures attempted == if dryRun then [] else Ids(vms)
    ensures reaped == if dryRun then Ids(vms) else Without(Ids(vms), destroyFails)
    ensures flushed <==> !dryRun && flush.Some?
    ensures failed <==> !dryRun && (AnyFailure(vms, stopFails + destroyFails) || flush == Some(false))
  {
    reaped, attempted, flushed, failed := [], [], false, false;
    ghost var ids := Ids(vms);
    for i := 0 to |vms|
      invariant attempted == if dryRun then [] else ids[..i]
      invariant reaped == if dryRun then ids[..i] else Without(ids[..i], destroyFails)
      invariant failed <==> !dryRun && exists j :: 0 <= j < i && vms[j].id in stopFails + destroyFails
    {
      IdsStep(vms, i, destroyFails);
      if dryRun {
        reaped := reaped + [vms[i].id];
        continue;
      }
      attempted := attempted + [vms[i].id];
      if vms[i].id in stopFails {
        failed := true;
      }
      if vms[i].id in destroyFails {
        failed := true;
        continue;
      }
      reaped := reaped + [vms[i].id];
    }
    assert ids[..|vms|] == ids;
    if flush.Some? && !dryRun {
      flushed := true;
      if !flush.value {
        failed := true;
      }
    }
  }

  /* ---- one pass ---- */

  datatype Policy = Policy(grace: int, dryRun: bool)

  /** What one pass meets: the clock, the two sources of truth (None on error), and the runtime's failures. */
  datatype Pass = Pass(
    now: int, expected: Option<set<string>>, listing: Option<seq<VM>>, stopFails: set<string>, destroyFails: set<string>)

  datatype Result = Result(at: int, scanned: nat, pending: nat, reaped: seq<string>, dryRun: bool, failed: bool)

  datatype Outcome = Outcome(firstSeen: map<string, int>, result: Result, attempted: seq<string>)

  predicate Succeeds(p: Pass) { p.expected.Some? && p.listing.Some? }

  function Candidates(p: Pass): seq<VM>
    requires Succeeds(p)
  {
    ScanSpec(p.listing.value, p.expected.value)
  }

  function IdSet(vms: seq<VM>): set<string> { set vm | vm in vms :: vm.id }

  /** The grace clocks once a pass has dropped the VMs no longer orphaned and started the new ones. */
  function Clocks(firstSeen: map<string, int>, vms: seq<VM>, now: int): map<string, int> {
    map id | id in IdSet(vms) :: if id in firstSeen then firstSeen[id] else now
  }

  function Matured(clocks: map<string, int>, vms: seq<VM>, now: int, grace: int): seq<VM>
    requires forall vm :: vm in vms ==> vm.id in clocks
  {
    if vms == [] then []
    else
      var rest := Matured(clocks, vms[..|vms| - 1], now, grace);
      var vm := vms[|vms| - 1];
      if now - clocks[vm.id] >= grace then rest + [vm] else rest
  }

  lemma {:induction false} MaturedExact(clocks: map<string, int>, vms: seq<VM>, now: int, grace: int)
    requires forall vm :: vm in vms ==> vm.id in clocks
    ensures |Matured(clocks, vms, now, grace)| <= |vms|
    ensures forall vm :: vm in Matured(clocks, vms, now, grace) <==> vm in vms && now - clocks[vm.id] >= grace
  {
    if vms != [] {
      MaturedExact(clocks, vms[..|vms| - 1], now, grace);
      assert vms == vms[..|vms| - 1] + [vms[|vms| - 1]];
    }
  }

  /** The VMs past their grace period, by ID. */
  function Due(pol: Policy, firstSeen: map<string, int>, p: Pass): seq<VM>
    requires Succeeds(p)
  {
    SortVMs(Matured(Clocks(firstSeen, Candidates(p), p.now), Candidates(p), p.now, pol.grace))
  }

  /** The IDs reported as reaped: all that are due in a dry run, else those whose destroy did not fail. */
  function ReapedIds(pol: Policy, firstSeen: map<string, int>, p: Pass): seq<string>
    requires Succeeds(p)
  {
    var ids := Ids(Due(pol, firstSeen, p));
    if pol.dryRun then ids else Without(ids, p.destroyFails)
  }

  /** The clocks a pass leaves behind. */
  function NextSeen(pol: Policy, firstSeen: map<string, int>, p: Pass): map<string, int> {
    if !Succeeds(p) then firstSeen
    else
      var clocks := Clocks(firstSeen, Candidates(p), p.now);
      if pol.dryRun then clocks else clocks - (set id | id in ReapedIds(pol, firstSeen, p))
  }

  predicate AnyFailure(vms: seq<VM>, bad: set<string>) {
    exists i :: 0 <= i < |vms| && vms[i].id in bad
  }

  function PassResult(pol: Policy, firstSeen: map<string, int>, p: Pass): Result {
    if !Succeeds(p) then Result(p.now, 0, 0, [], pol.dryRun, true)
    else
      var vms, due := Candidates(p), Due(pol, firstSeen, p);
      DueSize(pol, firstSeen, p);
      Result(p.now, |vms|, |vms| - |due|, ReapedIds(pol, firstSeen, p), pol.dryRun,
             !pol.dryRun && AnyFailure(due, p.stopFails + p.destroyFails))
  }

  /** The VMs a pass tries to stop and destroy. */
  function Attempts(pol: Policy, firstSeen: map<string, int>, p: Pass): seq<string> {
    if !Succeeds(p) || pol.dryRun then [] else Ids(Due(pol, firstSeen, p))
  }

  lemma SortSize(s: seq<VM>)
    ensures |SortVMs(s)| == |s|
  {
    SortVMsSorts(s);
    assert |SortVMs(s)| == |multiset(SortVMs(s))| && |s| == |multiset(s)|;
  }

  lemma DueSize(pol: Policy, firstSeen: map<string, int>, p: Pass)
    requires Succeeds(p)
    ensures |Due(pol, firstSeen, p)| <= |Candidates(p)|
  {
    var clocks := Clocks(firstSeen, Candidates(p), p.now);
    MaturedExact(clocks, Candidates(p), p.now, pol.grace);
    SortSize(Matured(clocks, Candidates(p), p.now, pol.grace));
  }

  lemma NothingReaped(seen: map<string, int>)
    ensures seen - (set id: string | id in []) == seen
  {
  }

  class Machine {
    const policy: Policy
    var firstSeen: map<string, int>
    var last: Option<Result>

    constructor (policy: Policy)
      ensures this.policy == policy && firstSeen == map[] && last == None
    {
      this.policy := policy;
      firstSeen := map[];
      last := None;
    }

    /** `reapOnce`; the agent's reaper has no flusher. */
    method ReapOnce(p: Pass) returns (res: Result, attempted: seq<string>)
      modifies this
      ensures firstSeen == NextSeen(policy, old(firstSeen), p)
      ensures res == PassResult(policy, old(firstSeen), p) && last == Some(res)
      ensures attempted == Attempts(policy, old(firstSeen), p)
    {
      attempted := [];
      if p.expected.None? || p.listing.None? {
        res := Result(p.now, 0, 0, [], policy.dryRun, true);
        last := Some(res);
        return;
      }
      var orphans := Scan(p.listing.value, p.expected.value);
      var matured, pending := Partition(orphans, p.now);
      SortSize(matured);
      if |matured| == 0 {
        res := Result(p.now, |orphans|, pending, [], policy.dryRun, false);
        NothingReaped(firstSeen);
      } else {
        var reaped, tried, _, failed := Reap(SortVMs(matured), policy.dryRun, p.stopFails, p.destroyFails, None);
        attempted := tried;
        if !policy.dryRun {
          firstSeen := firstSeen - (set id | id in reaped);
        }
        res := Result(p.now, |orphans|, pending, reaped, policy.dryRun, failed);
      }
      last := Some(res);
    }

    /** Forget VMs no longer orphaned, start the clock of new ones, and split by the grace period. */
    method Partition(orphans: seq<VM>, now: int) returns (matured: seq<VM>, pending: nat)
      modifies this
      ensures firstSeen == Clocks(old(firstSeen), orphans, now) && last == old(last)
      ensures matured == Matured(firstSeen, orphans, now, policy.grace)
      ensures pending + |matured| == |orphans|
    {
      var kept := map id | id in firstSeen && id in IdSet(orphans) :: firstSeen[id];
      var seen := kept;
      matured, pending := [], 0;
      ghost var goal := Clocks(firstSeen, orphans, now);
      for i := 0 to |orphans|
        invariant forall id :: id in seen ==> id in goal && seen[id] == goal[id]
        invariant forall id :: id in kept ==> id in seen
        invariant forall j :: 0 <= j < i ==> orphans[j].id in seen
        invariant matured == Matured(goal, orphans[..i], now, policy.grace)
        invariant pending + |matured| == i
        invariant firstSeen == old(firstSeen) && last == old(last)
      {
        var o := orphans[i];
        assert o in orphans && o.id in goal;
        assert orphans[..i + 1][..i] == orphans[..i];
        if o.id !in seen {
          assert o.id !in firstSeen;
          seen := seen[o.id := now];
        }
        if now - seen[o.id] >= policy.grace {
          matured := matured + [o];
        } else {
          pending := pending + 1;
        }
      }
      assert orphans[..|orphans|] == orphans;
      assert seen == goal by { SeenAll(orphans, seen, goal); }
      firstSeen := seen;
    }
  }

  lemma SeenAll(vms: seq<VM>, seen: map<string, int>, goal: map<string, int>)
    requires goal.Keys == IdSet(vms)
    requires forall id :: id in seen ==> id in goal && seen[id] == goal[id]
    requires forall j :: 0 <= j < |vms| ==> vms[j].id in seen
    ensures seen == goal
  {
    forall id | id in goal
      ensures id in seen
    {
      var vm :| vm in vms && vm.id == id;
    }
  }

  /** What a dry run reports it would reap, a real run attempts; and every orphan scanned is pending or due. */
  lemma PassAccounts(pol: Policy, firstSeen: map<string, int>, p: Pass)
    ensures var res, wet := PassResult(pol, firstSeen, p), Attempts(pol.(dryRun := false), firstSeen, p);
            && res.scanned == res.pending + |wet|
            && (pol.dryRun ==> Attempts(pol, firstSeen, p) == [] && res.reaped == wet)
            && (!pol.dryRun ==> Attempts(pol, firstSeen, p) == wet && forall id :: id in res.reaped ==> id in wet)
  {
    if Succeeds(p) {
      WithoutExact(Ids(Due(pol, firstSeen, p)), p.destroyFails);
    }
  }

  /* ---- traces ---- */

  /** The clocks after the first `n` passes. */
  function SeenAfter(pol: Policy, passes: seq<Pass>, n: nat): map<string, int>
    requires n <= |passes|
  {
    if n == 0 then map[] else NextSeen(pol, SeenAfter(pol, passes, n - 1), passes[n - 1])
  }

  /** Pass `p` succeeded and saw `v` on the host without a Pod behind it. */
  predicate SawOrphan(p: Pass, v: string) {
    && Succeeds(p) && Workload.IsMacVzVM(v) && v !in p.expected.value
    && exists vm :: vm in p.listing.value && vm.id == v
  }

  predicate Attempted(pol: Policy, passes: seq<Pass>, i: nat, v: string)
    requires i < |passes|
  {
    v in Attempts(pol, SeenAfter(pol, passes, i), passes[i])
  }

  predicate Reported(pol: Policy, passes: seq<Pass>, i: nat, v: string)
    requires i < |passes|
  {
    v in PassResult(pol, SeenAfter(pol, passes, i), passes[i]).reaped
  }

  predicate Destroyed(pol: Policy, passes: seq<Pass>, i: nat, v: string)
    requires i < |passes|
  {
    !pol.dryRun && Reported(pol, passes, i, v)
  }

  /** From pass `j` up to pass `n`, every successful pass saw `v` orphaned and none destroyed it. */
  ghost predicate Uninterrupted(pol: Policy, passes: seq<Pass>, j: nat, n: nat, v: string)
    requires n <= |passes|
  {
    && j < n && SawOrphan(passes[j], v)
    && forall i :: j <= i < n && Succeeds(passes[i]) ==> SawOrphan(passes[i], v) && !Destroyed(pol, passes, i, v)
  }

  lemma CandidateIds(p: Pass, v: string)
    requires Succeeds(p)
    ensures v in IdSet(Candidates(p)) <==> SawOrphan(p, v)
  {
    ScanExact(p.listing.value, p.expected.value);
    if SawOrphan(p, v) {
      var vm :| vm in p.listing.value && vm.id == v;
      assert vm in Candidates(p);
    }
  }

  /** What a pass does to the clock of one VM. */
  lemma PassClock(pol: Policy, passes: seq<Pass>, n: nat, v: string)
    requires n < |passes|
    ensures var before, after := SeenAfter(pol, passes, n), SeenAfter(pol, passes, n + 1);
            if Succeeds(passes[n]) then
              && (v in after <==> SawOrphan(passes[n], v) && !Destroyed(pol, passes, n, v))
              && (v in after ==> after[v] == if v in before then before[v] else passes[n].now)
            else after == before
  {
    if Succeeds(passes[n]) {
      CandidateIds(passes[n], v);
    }
  }

  lemma UninterruptedStep(pol: Policy, passes: seq<Pass>, j: nat, n: nat, v: string)
    requires n < |passes|
    ensures Uninterrupted(pol, passes, j, n + 1, v) <==>
            && j <= n
            && (Succeeds(passes[n]) ==> SawOrphan(passes[n], v) && !Destroyed(pol, passes, n, v))
            && if j == n then Succeeds(passes[n]) else Uninterrupted(pol, passes, j, n, v)
  {
  }

  /* A clock and the stretch it times, seen apart from the passes. */

  ghost predicate FirstOf(stretch: nat -> bool, j: nat) {
    stretch(j) && forall i: nat :: i < j ==> !stretch(i)
  }

  /** A clock is held exactly while some stretch is current, and shows when the longest one began. */
  ghost predicate Times(stretch: nat -> bool, held: bool, clock: int, time: nat -> int) {
    && (held <==> exists j: nat :: stretch(j))
    && forall j: nat :: FirstOf(stretch, j) ==> clock == time(j)
  }

  lemma TimesStep(old_: nat -> bool, new_: nat -> bool, n: nat, ok: bool, kept: bool,
                  held0: bool, clock0: int, held1: bool, clock1: int, time: nat -> int)
    requires Times(old_, held0, clock0, time)
    requires forall j: nat :: new_(j) <==> j <= n && kept && if j == n then ok else old_(j)
    requires forall j: nat :: old_(j) ==> j < n
    requires !ok ==> kept
    requires held1 <==> if ok then kept else held0
    requires held1 ==> clock1 == if ok && !held0 then time(n) else clock0
    ensures Times(new_, held1, clock1, time)
  {
    if held1 && ok {
      assert new_(n);
    }
    forall j: nat | FirstOf(new_, j)
      ensures clock1 == time(j)
    {
      assert new_(j);
      if j < n {
        assert old_(j);
        assert FirstOf(old_, j) by { assert forall i: nat :: i < j ==> !new_(i); }
      } else {
        assert forall i: nat :: i < n ==> !new_(i);
      }
    }
  }

  function Clock(seen: map<string, int>, v: string): int { if v in seen then seen[v] else 0 }

  ghost function Stretch(pol: Policy, passes: seq<Pass>, n: nat, v: string): nat -> bool
    requires n <= |passes|
  {
    (j: nat) => Uninterrupted(pol, passes, j, n, v)
  }

  ghost function TimeOf(passes: seq<Pass>): nat -> int {
    (j: nat) => if j < |passes| then passes[j].now else 0
  }

  /** After every prefix of every trace, the reaper's clock for `v` times its current uninterrupted stretch. */
  lemma {:induction false} ClocksExact(pol: Policy, passes: seq<Pass>, n: nat, v: string)
    requires n <= |passes|
    ensures var seen := SeenAfter(pol, passes, n);
            Times(Stretch(pol, passes, n, v), v in seen, Clock(seen, v), TimeOf(passes))
  {
    if n > 0 {
      var m := n - 1;
      ClocksExact(pol, passes, m, v);
      PassClock(pol, passes, m, v);
      forall j: nat
        ensures Stretch(pol, passes, n, v)(j) <==>
                && j <= m
                && (Succeeds(passes[m]) ==> SawOrphan(passes[m], v) && !Destroyed(pol, passes, m, v))
                && if j == m then Succeeds(passes[m]) else Stretch(pol, passes, m, v)(j)
      {
        UninterruptedStep(pol, passes, j, m, v);
      }
      var before, after := SeenAfter(pol, passes, m), SeenAfter(pol, passes, n);
      TimesStep(Stretch(pol, passes, m, v), Stretch(pol, passes, n, v), m, Succeeds(passes[m]),
                Succeeds(passes[m]) ==> SawOrphan(passes[m], v) && !Destroyed(pol, passes, m, v),
                v in before, Clock(before, v), v in after, Clock(after, v), TimeOf(passes));
    }
  }

  /** A VM is due exactly when the pass sees it orphaned and its clock, new or old, is past the grace period. */
  lemma DueExact(pol: Policy, firstSeen: map<string, int>, p: Pass, v: string)
    requires Succeeds(p)
    ensures v in Ids(Due(pol, firstSeen, p)) <==>
            SawOrphan(p, v) && p.now - (if v in firstSeen then firstSeen[v] else p.now) >= pol.grace
  {
    var vms := Candidates(p);
    var clocks := Clocks(firstSeen, vms, p.now);
    var m := Matured(clocks, vms, p.now, pol.grace);
    CandidateIds(p, v);
    MaturedExact(clocks, vms, p.now, pol.grace);
    SortVMsSorts(m);
    forall vm
      ensures vm in SortVMs(m) <==> vm in m
    {
      assert vm in SortVMs(m) <==> vm in multiset(SortVMs(m));
      assert vm in m <==> vm in multiset(m);
    }
    IdsMember(SortVMs(m), v);
    if v in IdSet(vms) {
      var vm :| vm in vms && vm.id == v;
      assert PastGrace(clocks, p.now, pol.grace, v) ==> vm in m;
    }
  }

  predicate PastGrace(clocks: map<string, int>, now: int, grace: int, v: string)
    requires v in clocks
  {
    now - clocks[v] >= grace
  }

  lemma IdsMember(vms: seq<VM>, v: string)
    ensures v in Ids(vms) <==> exists vm :: vm in vms && vm.id == v
  {
    if v in Ids(vms) {
      var i :| 0 <= i < |vms| && Ids(vms)[i] == v;
      assert vms[i] in vms;
    }
    if vm :| vm in vms && vm.id == v {
      var i :| 0 <= i < |vms| && vms[i] == vm;
      assert Ids(vms)[i] == v;
    }
  }

  /** `v` has been orphaned since pass `j`, as far as pass `i` and every successful pass between them saw. */
  ghost predicate OrphanSince(pol: Policy, passes: seq<Pass>, j: nat, i: nat, v: string)
    requires i < |passes|
  {
    SawOrphan(passes[i], v) && (j == i || Uninterrupted(pol, passes, j, i, v))
  }

  ghost predicate Monotone(passes: seq<Pass>) {
    forall i, j :: 0 <= i <= j < |passes| ==> passes[i].now <= passes[j].now
  }

  lemma {:induction false} FirstExists(stretch: nat -> bool, n: nat)
    requires stretch(n)
    ensures exists j: nat :: j <= n && FirstOf(stretch, j)
    decreases n
  {
    if i: nat :| i < n && stretch(i) {
      FirstExists(stretch, i);
    } else {
      assert FirstOf(stretch, n);
    }
  }

  /** The moment from which the grace period of `v` is measured at pass `i`. */
  lemma GraceStart(pol: Policy, passes: seq<Pass>, i: nat, v: string) returns (j: nat)
    requires i < |passes| && SawOrphan(passes[i], v)
    ensures j <= i && OrphanSince(pol, passes, j, i, v)
    ensures forall m: nat :: OrphanSince(pol, passes, m, i, v) ==> j <= m
    ensures var seen := SeenAfter(pol, passes, i);
            passes[j].now == if v in seen then seen[v] else passes[i].now
  {
    ClocksExact(pol, passes, i, v);
    var stretch := Stretch(pol, passes, i, v);
    if v in SeenAfter(pol, passes, i) {
      var n: nat :| stretch(n);
      FirstExists(stretch, n);
      j :| FirstOf(stretch, j);
      assert forall m: nat :: m < j ==> !stretch(m);
    } else {
      j := i;
    }
    forall m: nat | OrphanSince(pol, passes, m, i, v)
      ensures j <= m
    {
      assert stretch(m) <==> Uninterrupted(pol, passes, m, i, v);
    }
  }

  /**
   * Safety over every trace: a VM is stopped or destroyed only by a pass that saw it orphaned, at least the grace
   * period after a pass that did, with every successful pass in between seeing it too.
   */
  lemma ReapedOnlyAfterGrace(pol: Policy, passes: seq<Pass>, i: nat, v: string)
    requires i < |passes| && Attempted(pol, passes, i, v)
    ensures SawOrphan(passes[i], v) && !pol.dryRun
    ensures exists j: nat :: j <= i && OrphanSince(pol, passes, j, i, v) && passes[i].now - passes[j].now >= pol.grace
  {
    DueExact(pol, SeenAfter(pol, passes, i), passes[i], v);
    var j := GraceStart(pol, passes, i, v);
  }

  /**
   * With a clock that does not run backwards the rule is exact: a pass acts on `v` (attempting it, or in a dry run
   * reporting it) if and only if `v` has been orphaned without interruption for the grace period. A destroy that
   * failed does not interrupt, so it is retried at the next successful pass.
   */
  lemma ReapedExactly(pol: Policy, passes: seq<Pass>, i: nat, v: string)
    requires i < |passes| && Monotone(passes) && Succeeds(passes[i])
    ensures (if pol.dryRun then Reported(pol, passes, i, v) else Attempted(pol, passes, i, v)) <==>
            exists j: nat :: j <= i && OrphanSince(pol, passes, j, i, v) && passes[i].now - passes[j].now >= pol.grace
  {
    var seen := SeenAfter(pol, passes, i);
    DueExact(pol, seen, passes[i], v);
    if SawOrphan(passes[i], v) {
      var j := GraceStart(pol, passes, i, v);
      forall m: nat | m <= i && OrphanSince(pol, passes, m, i, v)
        ensures passes[j].now <= passes[m].now
      {
      }
    }
  }

  /** A destroy that fails leaves the VM due: it is attempted again by the next pass that still sees it. */
  lemma FailedDestroyRetried(pol: Policy, passes: seq<Pass>, i: nat, next: nat, v: string)
    requires i < next < |passes| && Monotone(passes) && !pol.dryRun
    requires Attempted(pol, passes, i, v) && v in passes[i].destroyFails
    requires (forall m :: i < m < next ==> !Succeeds(passes[m])) && SawOrphan(passes[next], v)
    ensures Attempted(pol, passes, next, v)
  {
    ReapedOnlyAfterGrace(pol, passes, i, v);
    ReapedExactly(pol, passes, next, v);
    var j: nat :| j <= i && OrphanSince(pol, passes, j, i, v) && passes[i].now - passes[j].now >= pol.grace;
    WithoutExact(Ids(Due(pol, SeenAfter(pol, passes, i), passes[i])), passes[i].destroyFails);
    UninterruptedStep(pol, passes, j, i, v);
    assert Uninterrupted(pol, passes, j, next, v);
    assert OrphanSince(pol, passes, j, next, v);
  }

  /** No pass ever touches a VM it was told to expect, however long it was orphaned before. */
  lemma ExpectedUntouched(pol: Policy, passes: seq<Pass>, i: nat, v: string)
    requires i < |passes| && passes[i].expected.Some? && v in passes[i].expected.value
    ensures !Attempted(pol, passes, i, v)
  {
    if Attempted(pol, passes, i, v) {
      ReapedOnlyAfterGrace(pol, passes, i, v);
    }
  }

  /** A VM the provider named for an identity with a letter or digit is an orphan exactly when it is not expected. */
  lemma NamedVMScanned(all: seq<VM>, expected: set<string>, vm: VM, lower: char -> char,
                       namespace: string, pod: string, container: string, suffix: string)
    requires Workload.AsciiLower(lower) && Workload.HexSuffix(suffix) && vm in all
    requires vm.id == Workload.WorkloadID(lower, namespace, pod, container, suffix)
    requires Workload.Nameable(lower, Workload.Identity(namespace, pod, container))
    ensures vm in ScanSpec(all, expected) <==> vm.id !in expected
  {
    Workload.WorkloadIDValid(lower, namespace, pod, container, suffix);
    ScanExact(all, expected);
  }
}
