/** Addresses as big-endian bytes, and CIDR blocks as aligned integer ranges. */
module Net {

  type Byte = b: int | 0 <= b < 256

  /** An address: 4 bytes for IPv4, 16 for IPv6. */
  type IP = seq<Byte>

  function Pow2(n: nat): (p: nat)
    ensures p > 0
  {
    if n == 0 then 1 else 2 * Pow2(n - 1)
  }

  function Pow256(n: nat): (p: nat)
    ensures p > 0
  {
    if n == 0 then 1 else 256 * Pow256(n - 1)
  }

  /* ---- integers to bytes and back ---- */

  /** The integer a big-endian byte string denotes (`ipToBig`, `big.Int.SetBytes`). */
  function BytesToNat(b: seq<Byte>): nat {
    if b == [] then 0 else BytesToNat(b[..|b| - 1]) * 256 + b[|b| - 1]
  }

  /** The minimal big-endian form of `n` (`big.Int.Bytes`): empty for zero. */
  function MinBytes(n: nat): seq<Byte> {
    if n == 0 then [] else MinBytes(n / 256) + [n % 256]
  }

  function Zeros(n: nat): (z: seq<Byte>)
    ensures |z| == n
  {
    seq(n, _ => 0)
  }

  /** `bigToIP`: pad on the left to `width`, or keep the low `width` bytes. */
  function BigToIP(n: nat, width: nat): (ip: IP)
    ensures |ip| == width
  {
    var b := MinBytes(n);
    if |b| < width then Zeros(width - |b|) + b else b[|b| - width..]
  }

  lemma {:induction false} BytesBound(b: seq<Byte>)
    ensures BytesToNat(b) < Pow256(|b|)
  {
    if b == [] {
    } else {
      BytesBound(b[..|b| - 1]);
    }
  }

  lemma {:induction false} MinBytesValue(n: nat)
    ensures BytesToNat(MinBytes(n)) == n
  {
    if n == 0 {
    } else {
      MinBytesValue(n / 256);
      assert MinBytes(n)[..|MinBytes(n)| - 1] == MinBytes(n / 256);
    }
  }

  lemma {:induction false} MinBytesLength(n: nat, w: nat)
    ensures |MinBytes(n)| <= w <==> n < Pow256(w)
  {
    if n == 0 {
    } else if w == 0 {
    } else {
      MinBytesLength(n / 256, w - 1);
    }
  }

  lemma {:induction false} ZerosPad(k: nat, b: seq<Byte>)
    ensures BytesToNat(Zeros(k) + b) == BytesToNat(b)
  {
    var z := Zeros(k) + b;
    if b == [] {
      if k > 0 {
        assert z[..|z| - 1] == Zeros(k - 1) + b;
        ZerosPad(k - 1, b);
      } else {
        assert z == [];
      }
    } else {
      assert z[..|z| - 1] == Zeros(k) + b[..|b| - 1];
      ZerosPad(k, b[..|b| - 1]);
    }
  }

  /** Integer to bytes to integer is the identity exactly on the integers that fit. */
  lemma BigRoundTrip(n: nat, width: nat)
    ensures n < Pow256(width) <==> BytesToNat(BigToIP(n, width)) == n
  {
    var b := MinBytes(n);
    MinBytesValue(n);
    MinBytesLength(n, width);
    if |b| < width {
      ZerosPad(width - |b|, b);
    } else if |b| == width {
      assert b[0..] == b;
    } else {
      BytesBound(BigToIP(n, width));
    }
  }

  lemma {:induction false} BytesInjective(a: seq<Byte>, b: seq<Byte>)
    requires |a| == |b| && BytesToNat(a) == BytesToNat(b)
    ensures a == b
  {
    if a == [] {
    } else {
      var n := |a| - 1;
      assert a[n] == b[n] && BytesToNat(a[..n]) == BytesToNat(b[..n]);
      BytesInjective(a[..n], b[..n]);
      assert a == a[..n] + [a[n]] && b == b[..n] + [b[n]];
    }
  }

  /** Bytes to integer to bytes is the identity at the bytes' own width. */
  lemma BytesRoundTrip(b: IP)
    ensures BigToIP(BytesToNat(b), |b|) == b
  {
    BytesBound(b);
    BigRoundTrip(BytesToNat(b), |b|);
    BytesInjective(BigToIP(BytesToNat(b), |b|), b);
  }

  /* ---- CIDR blocks ---- */

  /** `n` without its low `bits` bits. */
  function Shr(n: nat, bits: nat): nat {
    if bits == 0 then n else Shr(n / 2, bits - 1)
  }

  function Shl(n: nat, bits: nat): nat {
    if bits == 0 then n else 2 * Shl(n, bits - 1)
  }

  lemma {:induction false} ShrAdd(n: nat, a: nat, b: nat)
    ensures Shr(n, a + b) == Shr(Shr(n, a), b)
  {
    if a == 0 {
    } else {
      ShrAdd(n / 2, a - 1, b);
    }
  }

  /** Shifting right recovers the prefix exactly on the prefix's range of `2^bits` integers. */
  lemma {:induction false} ShrRange(n: nat, prefix: nat, bits: nat)
    ensures Shr(n, bits) == prefix <==> Shl(prefix, bits) <= n < Shl(prefix, bits) + Pow2(bits)
  {
    if bits == 0 {
    } else {
      ShrRange(n / 2, prefix, bits - 1);
    }
  }

  /** The block of addresses of `width` bytes whose bits above the low `hostBits` spell `prefix`. */
  datatype Cidr = Cidr(width: nat, prefix: nat, hostBits: nat) {
    function Size(): (s: nat)
      ensures s > 0
    {
      Pow2(hostBits)
    }

    /** The network address as an integer. */
    function BaseNat(): nat { Shl(prefix, hostBits) }

    function Base(): IP { BigToIP(BaseNat(), width) }

    /** The whole block fits the address width. */
    ghost predicate Valid() { BaseNat() + Size() <= Pow256(width) }

    /** `net.IPNet.Contains`: same width, same bits under the mask. */
    predicate Contains(ip: IP) {
      |ip| == width && Shr(BytesToNat(ip), hostBits) == prefix
    }
  }

  lemma ContainsRange(c: Cidr, ip: IP)
    ensures c.Contains(ip) <==> |ip| == c.width && c.BaseNat() <= BytesToNat(ip) < c.BaseNat() + c.Size()
  {
    ShrRange(BytesToNat(ip), c.prefix, c.hostBits);
  }

  lemma BaseContained(c: Cidr)
    requires c.Valid()
    ensures c.Contains(c.Base())
  {
    BigRoundTrip(c.BaseNat(), c.width);
    ContainsRange(c, c.Base());
  }

  /** One block holds the other's network address. */
  predicate Overlap(a: Cidr, b: Cidr) {
    a.Contains(b.Base()) || b.Contains(a.Base())
  }

  /** An address common to both blocks puts the smaller inside the larger. */
  lemma CommonNests(a: Cidr, b: Cidr, common: IP, ip: IP)
    requires a.hostBits <= b.hostBits
    requires a.Contains(common) && b.Contains(common)
    requires a.Contains(ip)
    ensures b.Contains(ip)
  {
    var d := b.hostBits - a.hostBits;
    ShrAdd(BytesToNat(common), a.hostBits, d);
    ShrAdd(BytesToNat(ip), a.hostBits, d);
  }

  /**
   * Aligned prefix blocks are nested or disjoint (section 3.1 of RFC 4632): they share an address
   * exactly when one holds the other's network address, and then the smaller lies in the larger.
   */
  lemma NestedOrDisjoint(a: Cidr, b: Cidr)
    requires a.Valid() && b.Valid()
    ensures !Overlap(a, b) <==> forall ip: IP :: !(a.Contains(ip) && b.Contains(ip))
    ensures Overlap(a, b) && a.hostBits <= b.hostBits ==> forall ip: IP :: a.Contains(ip) ==> b.Contains(ip)
  {
    BaseContained(a);
    BaseContained(b);
    forall ip: IP | a.Contains(ip) && b.Contains(ip)
      ensures Overlap(a, b)
    {
      if a.hostBits <= b.hostBits {
        CommonNests(a, b, ip, a.Base());
      } else {
        CommonNests(b, a, ip, b.Base());
      }
    }
    if Overlap(a, b) && a.hostBits <= b.hostBits {
      var common := if a.Contains(b.Base()) then b.Base() else a.Base();
      forall ip: IP | a.Contains(ip)
        ensures b.Contains(ip)
      {
        CommonNests(a, b, common, ip);
      }
    }
  }
}
