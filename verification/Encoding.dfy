/** Little-endian bytes, and the packing of two field elements into a 32-byte digest. */
module Encoding {
  import opened Bits
  import opened Fields

  type Byte = x: nat | x < 256

  type Digest = s: seq<Byte> | |s| == 32 witness seq(32, _ => 0)

  // `from_le_bytes`
  function FromLe(s: seq<Byte>): nat {
    if s == [] then 0 else s[0] + 256 * FromLe(s[1..])
  }

  function ByteAt(n: nat, i: nat): Byte {
    if i == 0 then n % 256 else ByteAt(n / 256, i - 1)
  }

  // `to_le_bytes` of an integer of `len` bytes
  function ToLe(n: nat, len: nat): (s: seq<Byte>)
    ensures |s| == len
    ensures forall i :: 0 <= i < len ==> s[i] == ByteAt(n, i)
  {
    seq(len, i requires 0 <= i < len => ByteAt(n, i))
  }

  function LeBound(len: nat): (r: nat)
    ensures r > 0
  {
    if len == 0 then 1 else 256 * LeBound(len - 1)
  }

  lemma {:induction false} LeBoundSum(m: nat, n: nat)
    ensures LeBound(m + n) == LeBound(m) * LeBound(n)
  {
    if m > 0 {
      LeBoundSum(m - 1, n);
    }
  }

  lemma {:induction false} LeBounds()
    ensures LeBound(4) == 0x1_0000_0000
    ensures LeBound(8) == U64_BOUND
    ensures LeBound(16) == U64_BOUND * U64_BOUND
  {
    assert LeBound(2) == 256 * LeBound(1) == 256 * 256 * LeBound(0);
    LeBoundSum(2, 2);
    LeBoundSum(4, 4);
    LeBoundSum(8, 8);
  }

  lemma {:induction false} FromLeBounded(s: seq<Byte>)
    ensures FromLe(s) < LeBound(|s|)
  {
    if s != [] {
      FromLeBounded(s[1..]);
    }
  }

  /** Writing an integer that fits and reading it back. */
  lemma {:induction false} FromToLe(n: nat, len: nat)
    requires n < LeBound(len)
    ensures FromLe(ToLe(n, len)) == n
  {
    if len > 0 {
      assert ToLe(n, len)[1..] == ToLe(n / 256, len - 1);
      FromToLe(n / 256, len - 1);
    }
  }

  /** Reading any bytes and writing them back. */
  lemma {:induction false} ToFromLe(s: seq<Byte>)
    ensures ToLe(FromLe(s), |s|) == s
  {
    if s == [] {
      assert ToLe(FromLe(s), 0) == [];
    } else {
      assert FromLe(s) % 256 == s[0] && FromLe(s) / 256 == FromLe(s[1..]);
      ToFromLe(s[1..]);
      assert forall i :: 1 <= i < |s| ==> s[i] == s[1..][i - 1];
    }
  }

  /** The bytes after the first `i` count `256^i` times as much. */
  lemma {:induction false} FromLeSplit(s: seq<Byte>, i: nat)
    requires i <= |s|
    ensures FromLe(s) == FromLe(s[..i]) + LeBound(i) * FromLe(s[i..])
  {
    if i > 0 {
      assert s[..i][1..] == s[1..][..i - 1] && s[1..][i - 1..] == s[i..];
      FromLeSplit(s[1..], i - 1);
      assert 256 * (LeBound(i - 1) * FromLe(s[i..])) == LeBound(i) * FromLe(s[i..]);
    }
  }

  /** Two field elements: what a digest is inside the circuits. */
  datatype Limbs<F> = Limbs(lo: F, hi: F)

  function Unpack<F(!new)>(f: Field<F>, d: Digest): Limbs<F> {
    Limbs(f.OfInt(FromLe(d[..16])), f.OfInt(FromLe(d[16..])))
  }

  function Pack<F(!new)>(f: Field<F>, l: Limbs<F>): Digest {
    ToLe(f.ToInt(l.lo), 16) + ToLe(f.ToInt(l.hi), 16)
  }

  /** A digest is canonical when both of its 16-byte limbs are below the modulus. */
  predicate Canonical<F(!new)>(f: Field<F>, d: Digest) {
    FromLe(d[..16]) < f.modulus && FromLe(d[16..]) < f.modulus
  }

  lemma {:induction false} UnpackPack<F(!new)>(f: Field<F>, l: Limbs<F>)
    requires f.Lawful()
    ensures Unpack(f, Pack(f, l)) == l
  {
    LeBounds();
    FromToLe(f.ToInt(l.lo), 16);
    FromToLe(f.ToInt(l.hi), 16);
    var d := Pack(f, l);
    assert d[..16] == ToLe(f.ToInt(l.lo), 16) && d[16..] == ToLe(f.ToInt(l.hi), 16);
  }

  /** The limbs are the low and the high 128 bits of the digest as a little-endian integer, each reduced. */
  lemma UnpackReads<F(!new)>(f: Field<F>, d: Digest)
    requires f.Lawful()
    ensures f.ToInt(Unpack(f, d).lo) == FromLe(d) % 0x1_0000_0000_0000_0000_0000_0000_0000_0000 % f.modulus
    ensures f.ToInt(Unpack(f, d).hi) == FromLe(d) / 0x1_0000_0000_0000_0000_0000_0000_0000_0000 % f.modulus
  {
    LeBounds();
    FromLeSplit(d, 16);
    FromLeBounded(d[..16]);
    DivUnique(FromLe(d), FromLe(d[16..]), FromLe(d[..16]), LeBound(16));
  }

  /** The packed digest is the integer with these low and high 128 bits. */
  lemma PackWrites<F(!new)>(f: Field<F>, l: Limbs<F>)
    requires f.Lawful()
    ensures FromLe(Pack(f, l))
         == f.ToInt(l.lo) + 0x1_0000_0000_0000_0000_0000_0000_0000_0000 * f.ToInt(l.hi)
  {
    LeBounds();
    FromToLe(f.ToInt(l.lo), 16);
    FromToLe(f.ToInt(l.hi), 16);
    FromLeSplit(Pack(f, l), 16);
    var d := Pack(f, l);
    assert d[..16] == ToLe(f.ToInt(l.lo), 16) && d[16..] == ToLe(f.ToInt(l.hi), 16);
  }

  lemma {:induction false} LimbRoundTrip<F(!new)>(f: Field<F>, s: seq<Byte>)
    requires f.Lawful()
    ensures ToLe(f.ToInt(f.OfInt(FromLe(s))), |s|) == s <==> FromLe(s) < f.modulus
  {
    var n := FromLe(s);
    var m := f.ToInt(f.OfInt(n));
    assert m == n % f.modulus;
    FromLeBounded(s);
    ToFromLe(s);
    if n < f.modulus {
      SmallMod(n, f.modulus);
    } else {
      assert m < n;
      FromToLe(m, |s|);
    }
  }

  /** A digest survives the trip through the field exactly when it is canonical. */
  lemma {:induction false} PackUnpack<F(!new)>(f: Field<F>, d: Digest)
    requires f.Lawful()
    ensures Pack(f, Unpack(f, d)) == d <==> Canonical(f, d)
  {
    LimbRoundTrip(f, d[..16]);
    LimbRoundTrip(f, d[16..]);
    var lo, hi := ToLe(f.ToInt(f.OfInt(FromLe(d[..16]))), 16), ToLe(f.ToInt(f.OfInt(FromLe(d[16..]))), 16);
    assert d == d[..16] + d[16..];
    if lo + hi == d {
      assert (lo + hi)[..16] == lo && (lo + hi)[16..] == hi;
    }
  }

  /** Among canonical digests the two limbs identify the bytes. */
  lemma UnpackInjective<F(!new)>(f: Field<F>, d: Digest, e: Digest)
    requires f.Lawful() && Canonical(f, d) && Canonical(f, e)
    requires Unpack(f, d) == Unpack(f, e)
    ensures d == e
  {
    PackUnpack(f, d);
    PackUnpack(f, e);
  }

  // ----- digests that unpack alike -----

  lemma SameLimb<F(!new)>(f: Field<F>, m: nat, n: nat)
    requires f.Lawful()
    ensures f.OfInt(m) == f.OfInt(n) <==> m % f.modulus == n % f.modulus
  {
    assert f.ToInt(f.OfInt(m)) == m % f.modulus && f.ToInt(f.OfInt(n)) == n % f.modulus;
    assert f.OfInt(f.ToInt(f.OfInt(m))) == f.OfInt(m) && f.OfInt(f.ToInt(f.OfInt(n))) == f.OfInt(n);
  }

  /** Sixteen bytes leave room for a second integer with the same residue. */
  predicate Spare<F(!new)>(f: Field<F>, s: seq<Byte>)
    requires f.modulus > 0
  {
    FromLe(s) % f.modulus + f.modulus < LeBound(16)
  }

  lemma OtherResidue(n: nat, p: nat)
    requires p > 0
    ensures (n % p) % p == n % p && (n % p + p) % p == n % p
    ensures n == n % p || n >= n % p + p
  {
    var q, r := n / p, n % p;
    DivUnique(r, 0, r, p);
    DivUnique(r + p, 1, r, p);
    MulMonotone(1, q, p);
  }

  lemma OtherInteger(n: nat, p: nat) returns (m: nat)
    requires p > 0
    ensures m != n && m % p == n % p && m <= n % p + p
  {
    OtherResidue(n, p);
    m := if n == n % p then n + p else n % p;
  }

  lemma Respell<F(!new)>(f: Field<F>, s: seq<Byte>) returns (t: seq<Byte>)
    requires f.Lawful() && |s| == 16 && Spare(f, s)
    ensures |t| == 16 && t != s && f.OfInt(FromLe(t)) == f.OfInt(FromLe(s))
  {
    var m := OtherInteger(FromLe(s), f.modulus);
    SameLimb(f, m, FromLe(s));
    FromToLe(m, 16);
    t := ToLe(m, 16);
  }

  lemma RespelledIsSpare<F(!new)>(f: Field<F>, s: seq<Byte>, t: seq<Byte>)
    requires f.Lawful() && |s| == |t| == 16 && s != t
    requires f.OfInt(FromLe(t)) == f.OfInt(FromLe(s))
    ensures Spare(f, s)
  {
    SameLimb(f, FromLe(t), FromLe(s));
    OtherResidue(FromLe(s), f.modulus);
    OtherResidue(FromLe(t), f.modulus);
    FromLeBounded(s);
    FromLeBounded(t);
    ToFromLe(s);
    ToFromLe(t);
  }

  ghost predicate HasAlias<F(!new)>(f: Field<F>, d: Digest) {
    exists e: Digest :: Aliases(f, d, e)
  }

  ghost predicate Aliases<F(!new)>(f: Field<F>, d: Digest, e: Digest) {
    e != d && Unpack(f, e) == Unpack(f, d)
  }

  /** Another digest has the same limbs exactly when one limb, reduced, lies in the gap between the
      modulus and 2^128. */
  lemma {:induction false} AliasIff<F(!new)>(f: Field<F>, d: Digest)
    requires f.Lawful()
    ensures HasAlias(f, d) <==> Spare(f, d[..16]) || Spare(f, d[16..])
  {
    if Spare(f, d[..16]) {
      var lo := Respell(f, d[..16]);
      var e: Digest := lo + d[16..];
      assert e[..16] == lo && e[16..] == d[16..];
      assert Aliases(f, d, e);
    } else if Spare(f, d[16..]) {
      var hi := Respell(f, d[16..]);
      var e: Digest := d[..16] + hi;
      assert e[..16] == d[..16] && e[16..] == hi;
      assert Aliases(f, d, e);
    }
    if HasAlias(f, d) {
      var e: Digest :| Aliases(f, d, e);
      AliasSpare(f, d, e);
    }
  }

  lemma AliasSpare<F(!new)>(f: Field<F>, d: Digest, e: Digest)
    requires f.Lawful() && Aliases(f, d, e)
    ensures Spare(f, d[..16]) || Spare(f, d[16..])
  {
    assert d == d[..16] + d[16..] && e == e[..16] + e[16..];
    if d[..16] != e[..16] {
      RespelledIsSpare(f, d[..16], e[..16]);
    } else {
      RespelledIsSpare(f, d[16..], e[16..]);
    }
  }

  /** The all-zero digest, written as the packing of two zeros. */
  function ZeroDigest<F(!new)>(f: Field<F>): Digest {
    Pack(f, Limbs(f.zero, f.zero))
  }

  lemma {:induction false} ZeroBytes(i: nat)
    ensures ByteAt(0, i) == 0
  {
    if i > 0 {
      ZeroBytes(i - 1);
    }
  }

  lemma ZeroDigestIsZeros<F(!new)>(f: Field<F>)
    requires f.Lawful()
    ensures forall i :: 0 <= i < 32 ==> ZeroDigest(f)[i] == 0
  {
    assert f.ToInt(f.OfInt(0)) == 0 % f.modulus == 0;
    forall i: nat ensures ByteAt(0, i) == 0 {
      ZeroBytes(i);
    }
  }
}
