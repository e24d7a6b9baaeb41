/** The Pod IP allocator: two inverse maps and a wrap-around cursor over one node's Pod CIDR. */
module Ipam {
  import opened Common
  import opened Net

  type Key = string

  datatype AllocResult = Got(ip: IP) | Exhausted
  datatype ReserveResult = Reserved | InvalidIP | OutOfRange | HeldBy(owner: Key) | KeyHolds(ip: IP)

  /** The mutable part of the allocator. */
  datatype State = State(byKey: map<Key, IP>, byIP: map<IP, Key>, cursor: int)

  /* ---- the usable range ---- */

  /** Offset 0 is the network address and offset 1 the gateway. */
  const FIRST: int := 2

  /** The last usable offset: IPv4 also gives up the broadcast address. */
  function Last(c: Cidr): int {
    c.Size() - 1 - (if c.width == 4 then 1 else 0)
  }

  function Span(c: Cidr): int { Last(c) - FIRST + 1 }

  function OffsetIP(c: Cidr, off: nat): IP { BigToIP(c.BaseNat() + off, c.width) }

  predicate Usable(c: Cidr, ip: IP) {
    c.Contains(ip) && FIRST <= BytesToNat(ip) - c.BaseNat() <= Last(c)
  }

  /** `canonIP`: an address that does not fit a 4-byte allocator has no canonical form. */
  function Canon(ip: IP, width: nat): Option<IP> {
    if width == 4 && |ip| != 4 then None else Some(ip)
  }

  lemma OffsetUsable(c: Cidr, off: nat)
    requires c.Valid() && FIRST <= off <= Last(c)
    ensures BytesToNat(OffsetIP(c, off)) == c.BaseNat() + off
    ensures Usable(c, OffsetIP(c, off))
  {
    BigRoundTrip(c.BaseNat() + off, c.width);
    ContainsRange(c, OffsetIP(c, off));
  }

  /** Every usable address is the rendering of exactly its own offset. */
  lemma UsableOffset(c: Cidr, ip: IP)
    requires Usable(c, ip)
    ensures OffsetIP(c, BytesToNat(ip) - c.BaseNat()) == ip
  {
    BytesRoundTrip(ip);
  }

  /* ---- what every reachable state keeps ---- */

  ghost predicate Inverse(s: State) {
    && (forall k :: k in s.byKey ==> s.byKey[k] in s.byIP && s.byIP[s.byKey[k]] == k)
    && (forall ip :: ip in s.byIP ==> s.byIP[ip] in s.byKey && s.byKey[s.byIP[ip]] == ip)
  }

  ghost predicate Inv(c: Cidr, s: State) {
    && Inverse(s)
    && (forall ip :: ip in s.byIP ==> Usable(c, ip))
    && FIRST <= s.cursor
    && (s.cursor == FIRST || s.cursor <= Last(c) + 1)
  }

  /** The network, gateway and (IPv4) broadcast addresses of a block. */
  predicate SpecialAddress(c: Cidr, ip: IP) {
    || ip == BigToIP(c.BaseNat(), c.width)
    || ip == BigToIP(c.BaseNat() + 1, c.width)
    || (c.width == 4 && ip == BigToIP(c.BaseNat() + c.Size() - 1, c.width))
  }

  lemma UsableNotSpecial(c: Cidr, ip: IP)
    requires c.Valid() && Usable(c, ip)
    ensures !SpecialAddress(c, ip)
  {
    ContainsRange(c, ip);
    NotThere(c.width, ip, c.BaseNat());
    NotThere(c.width, ip, c.BaseNat() + 1);
    if c.width == 4 {
      NotThere(c.width, ip, c.BaseNat() + c.Size() - 1);
    }
  }

  lemma NotThere(width: nat, ip: IP, n: nat)
    requires n < Pow256(width) && BytesToNat(ip) != n
    ensures ip != BigToIP(n, width)
  {
    BigRoundTrip(n, width);
  }

  /* ---- the search ---- */

  /** The offset the search looks at in round `i`, starting from `cursor`. */
  function Visit(c: Cidr, cursor: int, i: int): int {
    if cursor + i > Last(c) then cursor + i - Span(c) else cursor + i
  }

  /** The round in which the search reaches offset `off`. */
  function Round(c: Cidr, cursor: int, off: int): int {
    if off >= cursor then off - cursor else off - cursor + Span(c)
  }

  /** From any reachable cursor the `Span` rounds visit each usable offset once and only once. */
  lemma VisitIsPermutation(c: Cidr, cursor: int)
    requires FIRST <= cursor <= Last(c) + 1
    ensures forall i :: 0 <= i < Span(c) ==> FIRST <= Visit(c, cursor, i) <= Last(c)
    ensures forall i, j :: 0 <= i < j < Span(c) ==> Visit(c, cursor, i) != Visit(c, cursor, j)
    ensures forall off :: FIRST <= off <= Last(c) ==>
              0 <= Round(c, cursor, off) < Span(c) && Visit(c, cursor, Round(c, cursor, off)) == off
  {
  }

  predicate Free(c: Cidr, s: State, off: int)
    requires off >= 0
  {
    OffsetIP(c, off) !in s.byIP
  }

  /** The round that finds a free offset, at or after round `i`; `Span` when none does. */
  function FirstFree(c: Cidr, s: State, i: nat): (r: nat)
    requires i <= Span(c) && FIRST <= s.cursor <= Last(c) + 1
    ensures i <= r <= Span(c)
    ensures forall j :: i <= j < r ==> !Free(c, s, Visit(c, s.cursor, j))
    ensures r < Span(c) ==> Free(c, s, Visit(c, s.cursor, r))
    decreases Span(c) - i
  {
    if i == Span(c) || Free(c, s, Visit(c, s.cursor, i)) then i else FirstFree(c, s, i + 1)
  }

  /** What Allocate does to the state, and what it returns. */
  function AllocateSpec(c: Cidr, s: State, key: Key): (r: (AllocResult, State))
    requires FIRST <= s.cursor && (s.cursor == FIRST || s.cursor <= Last(c) + 1)
  {
    if key in s.byKey then (Got(s.byKey[key]), s)
    else if FIRST > Last(c) then (Exhausted, s)
    else
      var i := FirstFree(c, s, 0);
      if i == Span(c) then (Exhausted, s)
      else
        var off := Visit(c, s.cursor, i);
        var ip := OffsetIP(c, off);
        (Got(ip), State(s.byKey[key := ip], s.byIP[ip := key], off + 1))
  }

  function ReserveSpec(c: Cidr, s: State, key: Key, parsed: Option<IP>): (r: (ReserveResult, State)) {
    if parsed.None? then (InvalidIP, s)
    else
      var canon := Canon(parsed.value, c.width);
      if canon.None? || !Usable(c, parsed.value) then (OutOfRange, s)
      else
        var ip := canon.value;
        if ip in s.byIP then (if s.byIP[ip] == key then Reserved else HeldBy(s.byIP[ip]), s)
        else if key in s.byKey && s.byKey[key] != ip then (KeyHolds(s.byKey[key]), s)
        else (Reserved, s.(byKey := s.byKey[key := ip], byIP := s.byIP[ip := key]))
  }

  function ReleaseSpec(s: State, key: Key): State {
    if key !in s.byKey then s
    else s.(byKey := s.byKey - {key}, byIP := s.byIP - {s.byKey[key]})
  }

  const EMPTY := State(map[], map[], FIRST)

  /* ---- properties of single operations ---- */

  /** Allocation fails exactly when the key holds nothing and every usable address is held. */
  lemma ExhaustedIff(c: Cidr, s: State, key: Key)
    requires c.Valid() && Inv(c, s)
    ensures AllocateSpec(c, s, key).0 == Exhausted <==>
            key !in s.byKey && forall ip: IP :: Usable(c, ip) ==> ip in s.byIP
  {
    if key !in s.byKey && FIRST <= Last(c) {
      VisitIsPermutation(c, s.cursor);
      var i := FirstFree(c, s, 0);
      if i == Span(c) {
        forall ip: IP | Usable(c, ip)
          ensures ip in s.byIP
        {
          UsableOffset(c, ip);
          var off := BytesToNat(ip) - c.BaseNat();
          assert !Free(c, s, Visit(c, s.cursor, Round(c, s.cursor, off)));
        }
      } else {
        OffsetUsable(c, Visit(c, s.cursor, i));
      }
    }
  }

  /** A fresh allocation is usable, was free, and changes nothing but the one binding. */
  lemma AllocateFresh(c: Cidr, s: State, key: Key)
    requires c.Valid() && Inv(c, s) && key !in s.byKey && AllocateSpec(c, s, key).0.Got?
    ensures var (r, t) := AllocateSpec(c, s, key);
            Usable(c, r.ip) && r.ip !in s.byIP && t.byKey == s.byKey[key := r.ip] && Inv(c, t)
  {
    VisitIsPermutation(c, s.cursor);
    OffsetUsable(c, Visit(c, s.cursor, FirstFree(c, s, 0)));
  }

  /**
   * The address taken is the first free one in cyclic order from the cursor, and the cursor ends
   * just past it, so the next search resumes there.
   */
  lemma AllocateRoundRobin(c: Cidr, s: State, key: Key)
    requires c.Valid() && Inv(c, s) && key !in s.byKey && AllocateSpec(c, s, key).0.Got?
    ensures var (r, t) := AllocateSpec(c, s, key);
            var off := BytesToNat(r.ip) - c.BaseNat();
            && t.cursor == off + 1
            && forall o: nat :: FIRST <= o <= Last(c) && Round(c, s.cursor, o) < Round(c, s.cursor, off)
                                ==> OffsetIP(c, o) in s.byIP
  {
    VisitIsPermutation(c, s.cursor);
    var i := FirstFree(c, s, 0);
    OffsetUsable(c, Visit(c, s.cursor, i));
    forall o: nat | FIRST <= o <= Last(c) && Round(c, s.cursor, o) < i
      ensures OffsetIP(c, o) in s.byIP
    {
      assert !Free(c, s, Visit(c, s.cursor, Round(c, s.cursor, o)));
    }
  }

  /** Reserve succeeds exactly on a usable address that is already the key's, or free with the key holding nothing. */
  lemma ReserveIff(c: Cidr, s: State, key: Key, parsed: Option<IP>)
    requires Inv(c, s)
    ensures var (r, t) := ReserveSpec(c, s, key, parsed);
            && (r == Reserved <==>
                && parsed.Some? && Usable(c, parsed.value)
                && (Lookup(s.byKey, key) == parsed || (key !in s.byKey && parsed.value !in s.byIP)))
            && t.byKey == if r == Reserved then s.byKey[key := parsed.value] else s.byKey
  {
    if ReserveSpec(c, s, key, parsed).0 == Reserved && parsed.value in s.byIP {
      assert s.byKey == s.byKey[key := parsed.value];
    }
  }

  lemma AllocateInv(c: Cidr, s: State, key: Key)
    requires c.Valid() && Inv(c, s)
    ensures Inv(c, AllocateSpec(c, s, key).1)
  {
    if key !in s.byKey && AllocateSpec(c, s, key).0.Got? {
      AllocateFresh(c, s, key);
    }
  }

  lemma ReleaseInv(c: Cidr, s: State, key: Key)
    requires Inv(c, s)
    ensures Inv(c, ReleaseSpec(s, key))
  {
  }

  lemma ReserveInv(c: Cidr, s: State, key: Key, parsed: Option<IP>)
    requires Inv(c, s)
    ensures Inv(c, ReserveSpec(c, s, key, parsed).1)
  {
  }

  /** Allocating a fresh key and releasing it restores both maps. */
  lemma ReleaseUndoesAllocate(c: Cidr, s: State, key: Key)
    requires c.Valid() && Inv(c, s) && key !in s.byKey
    ensures var t := ReleaseSpec(AllocateSpec(c, s, key).1, key);
            t.byKey == s.byKey && t.byIP == s.byIP
  {
    if AllocateSpec(c, s, key).0.Got? {
      AllocateFresh(c, s, key);
    }
  }

  /* ---- runs ---- */

  datatype Op = DoAllocate(key: Key) | DoReserve(key: Key, parsed: Option<IP>) | DoRelease(key: Key)

  function Apply(c: Cidr, s: State, op: Op): State
    requires FIRST <= s.cursor && (s.cursor == FIRST || s.cursor <= Last(c) + 1)
  {
    match op
    case DoAllocate(k) => AllocateSpec(c, s, k).1
    case DoReserve(k, ip) => ReserveSpec(c, s, k, ip).1
    case DoRelease(k) => ReleaseSpec(s, k)
  }

  ghost function Run(c: Cidr, ops: seq<Op>): (s: State)
    requires c.Valid()
    ensures Inv(c, s)
  {
    if ops == [] then EMPTY
    else
      var s := Run(c, ops[..|ops| - 1]);
      var op := ops[|ops| - 1];
      ApplyInv(c, s, op);
      Apply(c, s, op)
  }

  lemma ApplyInv(c: Cidr, s: State, op: Op)
    requires c.Valid() && Inv(c, s)
    ensures Inv(c, Apply(c, s, op))
  {
    match op
    case DoAllocate(k) => AllocateInv(c, s, k);
    case DoReserve(k, ip) => ReserveInv(c, s, k, ip);
    case DoRelease(k) => ReleaseInv(c, s, k);
  }

  /** In every run the maps are mutual inverses and hold no reserved address of the block. */
  lemma RunSafe(c: Cidr, ops: seq<Op>)
    requires c.Valid()
    ensures Inverse(Run(c, ops))
    ensures forall ip :: ip in Run(c, ops).byIP ==> c.Contains(ip) && !SpecialAddress(c, ip)
  {
    forall ip | ip in Run(c, ops).byIP
      ensures !SpecialAddress(c, ip)
    {
      UsableNotSpecial(c, ip);
    }
  }

  /** Allocators over blocks that do not overlap never hold a common address, in any pair of runs. */
  lemma DisjointAllocators(a: Cidr, b: Cidr, opsA: seq<Op>, opsB: seq<Op>)
    requires a.Valid() && b.Valid() && !Overlap(a, b)
    ensures Run(a, opsA).byIP.Keys !! Run(b, opsB).byIP.Keys
  {
    NestedOrDisjoint(a, b);
    var s, t := Run(a, opsA), Run(b, opsB);
    assert forall ip :: ip in s.byIP.Keys ==> a.Contains(ip);
    assert forall ip :: ip in t.byIP.Keys ==> b.Contains(ip);
  }

  /* ---- recovery after a restart ---- */

  /** A Pod as Kubernetes records it: its key and the address in its status, if any. */
  datatype Recorded = Recorded(key: Key, parsed: Option<IP>)

  /** RecoverAllocations: reserve each recorded address, skipping the ones that are refused. */
  function Recover(c: Cidr, s: State, pods: seq<Recorded>): State
    decreases |pods|
  {
    if pods == [] then s
    else
      var p := pods[0];
      Recover(c, if p.parsed.None? then s else ReserveSpec(c, s, p.key, p.parsed).1, pods[1..])
  }

  /** `pods` is a record of `m`: it lists exactly the bindings of `m`, in any order. */
  ghost predicate Records(m: map<Key, IP>, pods: seq<Recorded>) {
    && (forall p :: p in pods ==> p.key in m && p.parsed == Some(m[p.key]))
    && (forall k :: k in m ==> Recorded(k, Some(m[k])) in pods)
  }

  lemma {:induction false} RecoverStep(c: Cidr, goal: State, s: State, pods: seq<Recorded>)
    requires Inv(c, goal) && Inv(c, s)
    requires s.byKey.Keys <= goal.byKey.Keys && forall k :: k in s.byKey ==> s.byKey[k] == goal.byKey[k]
    requires forall p :: p in pods ==> p.key in goal.byKey && p.parsed == Some(goal.byKey[p.key])
    requires forall k :: k in goal.byKey ==> k in s.byKey || Recorded(k, Some(goal.byKey[k])) in pods
    ensures Recover(c, s, pods).byKey == goal.byKey && Recover(c, s, pods).byIP == goal.byIP
    decreases |pods|
  {
    if pods == [] {
      assert s.byKey == goal.byKey;
      assert s.byIP == goal.byIP;
    } else {
      var p := pods[0];
      var t := ReserveSpec(c, s, p.key, p.parsed).1;
      assert p.parsed.value in goal.byIP;
      ReserveInv(c, s, p.key, p.parsed);
      RecoverStepTaken(c, goal, s, p);
      RecoverStep(c, goal, t, pods[1..]);
    }
  }

  lemma RecoverStepTaken(c: Cidr, goal: State, s: State, p: Recorded)
    requires Inv(c, goal) && Inv(c, s)
    requires s.byKey.Keys <= goal.byKey.Keys && forall k :: k in s.byKey ==> s.byKey[k] == goal.byKey[k]
    requires p.key in goal.byKey && p.parsed == Some(goal.byKey[p.key])
    ensures ReserveSpec(c, s, p.key, p.parsed).1.byKey == s.byKey[p.key := goal.byKey[p.key]]
  {
    var ip := p.parsed.value;
    assert ip in goal.byIP && Usable(c, ip);
    if ip in s.byIP {
      assert s.byKey[s.byIP[ip]] == ip;
      assert goal.byIP[ip] == s.byIP[ip];
      assert s.byKey == s.byKey[p.key := goal.byKey[p.key]];
    }
  }

  /** A restarted provider rebuilds exactly the allocations any earlier run left on record. */
  lemma RecoveryRebuilds(c: Cidr, ops: seq<Op>, pods: seq<Recorded>)
    requires c.Valid() && Records(Run(c, ops).byKey, pods)
    ensures Recover(c, EMPTY, pods).byKey == Run(c, ops).byKey
    ensures Recover(c, EMPTY, pods).byIP == Run(c, ops).byIP
  {
    RecoverStep(c, Run(c, ops), EMPTY, pods);
  }

  function Reserves(pods: seq<Recorded>): (ops: seq<Op>)
    ensures |ops| == |pods|
  {
    seq(|pods|, i requires 0 <= i < |pods| => DoReserve(pods[i].key, pods[i].parsed))
  }

  lemma {:induction false} RecoverAppend(c: Cidr, s: State, a: seq<Recorded>, p: Recorded)
    ensures Recover(c, s, a + [p]) ==
            if p.parsed.None? then Recover(c, s, a) else ReserveSpec(c, Recover(c, s, a), p.key, p.parsed).1
    decreases |a|
  {
    if a == [] {
      assert a + [p] == [p] && [p][1..] == [];
    } else {
      assert (a + [p])[1..] == a[1..] + [p];
      RecoverAppend(c, if a[0].parsed.None? then s else ReserveSpec(c, s, a[0].key, a[0].parsed).1, a[1..], p);
    }
  }

  /** Recovery is a run of reservations, so whatever holds of runs holds of it. */
  lemma {:induction false} RecoverIsRun(c: Cidr, pods: seq<Recorded>)
    requires c.Valid()
    ensures Recover(c, EMPTY, pods) == Run(c, Reserves(pods))
  {
    if pods != [] {
      var front, last := pods[..|pods| - 1], pods[|pods| - 1];
      RecoverIsRun(c, front);
      assert pods == front + [last] && Reserves(pods)[..|pods| - 1] == Reserves(front);
      RecoverAppend(c, EMPTY, front, last);
    }
  }

  /* ---- the allocator object ---- */

  class PodIPAM {
    const cidr: Cidr
    const first: int
    const last: int
    var byKey: map<Key, IP>
    var byIP: map<IP, Key>
    var cursor: int

    ghost predicate Valid()
      reads this
    {
      && cidr.Valid() && first == FIRST && last == Last(cidr)
      && Inv(cidr, Abstract())
    }

    ghost function Abstract(): State
      reads this
    {
      State(byKey, byIP, cursor)
    }

    constructor (cidr: Cidr)
      requires cidr.Valid()
      ensures Valid() && this.cidr == cidr && Abstract() == EMPTY
    {
      this.cidr := cidr;
      first := 2;
      last := if cidr.width == 4 then cidr.Size() - 1 - 1 else cidr.Size() - 1;
      byKey, byIP, cursor := map[], map[], 2;
    }

    /** The wrap-around search: the first free offset from the cursor on. */
    method FindFree() returns (found: Option<int>)
      requires Valid() && first <= last
      ensures var i := FirstFree(cidr, Abstract(), 0);
              found == if i == Span(cidr) then None else Some(Visit(cidr, cursor, i))
    {
      var span := last - first + 1;
      var off := cursor;
      var i := 0;
      while i < span
        invariant 0 <= i <= span && first <= off <= last + 1
        invariant i < span ==> Visit(cidr, cursor, i) == if off > last then first else off
        invariant FirstFree(cidr, Abstract(), 0) == FirstFree(cidr, Abstract(), i)
      {
        if off > last {
          off := first;
        }
        if OffsetIP(cidr, off) !in byIP {
          return Some(off);
        }
        off := off + 1;
        i := i + 1;
      }
      return None;
    }

    method Allocate(key: Key) returns (r: AllocResult)
      requires Valid()
      modifies this
      ensures Valid()
      ensures (r, Abstract()) == AllocateSpec(cidr, old(Abstract()), key)
    {
      AllocateInv(cidr, Abstract(), key);
      if key in byKey {
        return Got(byKey[key]);
      }
      if first > last {
        return Exhausted;
      }
      var off := FindFree();
      if off.None? {
        return Exhausted;
      }
      var ip := OffsetIP(cidr, off.value);
      byKey := byKey[key := ip];
      byIP := byIP[ip := key];
      cursor := off.value + 1;
      return Got(ip);
    }

    method Reserve(key: Key, parsed: Option<IP>) returns (r: ReserveResult)
      requires Valid()
      modifies this
      ensures Valid()
      ensures (r, Abstract()) == ReserveSpec(cidr, old(Abstract()), key, parsed)
    {
      ReserveInv(cidr, Abstract(), key, parsed);
      if parsed.None? {
        return InvalidIP;
      }
      var canon := Canon(parsed.value, cidr.width);
      if canon.None? || !Usable(cidr, parsed.value) {
        return OutOfRange;
      }
      if canon.value in byIP {
        return if byIP[canon.value] == key then Reserved else HeldBy(byIP[canon.value]);
      }
      if key in byKey && byKey[key] != canon.value {
        return KeyHolds(byKey[key]);
      }
      byKey := byKey[key := canon.value];
      byIP := byIP[canon.value := key];
      return Reserved;
    }

    method Release(key: Key)
      requires Valid()
      modifies this
      ensures Valid()
      ensures Abstract() == ReleaseSpec(old(Abstract()), key)
    {
      ReleaseInv(cidr, Abstract(), key);
      if key in byKey {
        byIP := byIP - {byKey[key]};
        byKey := byKey - {key};
      }
    }

    method RecoverAllocations(pods: seq<Recorded>)
      requires Valid()
      modifies this
      ensures Valid()
      ensures Abstract() == Recover(cidr, old(Abstract()), pods)
    {
      var i := 0;
      while i < |pods|
        invariant 0 <= i <= |pods| && Valid()
        invariant Recover(cidr, old(Abstract()), pods) == Recover(cidr, Abstract(), pods[i..])
      {
        if pods[i].parsed.Some? {
          var _ := Reserve(pods[i].key, pods[i].parsed);
        }
        assert pods[i..][1..] == pods[i + 1..];
        i := i + 1;
      }
    }
  }
}
