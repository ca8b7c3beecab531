/** Powers of two, shifts and little-endian bit strings. */
module Bits {

  function Pow2(n: nat): (r: nat)
    ensures r > 0
  {
    if n == 0 then 1 else 2 * Pow2(n - 1)
  }

  lemma Pow2Monotone(m: nat, n: nat)
    requires m <= n
    ensures Pow2(m) <= Pow2(n)
  {
    if m < n {
      Pow2Monotone(m, n - 1);
    }
  }

  lemma Pow2Sum(m: nat, n: nat)
    ensures Pow2(m + n) == Pow2(m) * Pow2(n)
  {
    if m > 0 {
      Pow2Sum(m - 1, n);
    }
  }

  lemma MulMonotone(a: nat, b: nat, d: nat)
    ensures a <= b ==> a * d <= b * d
  {
  }

  /** A quotient and a remainder in range are the quotient and the remainder. */
  lemma DivUnique(n: nat, q: nat, r: nat, d: nat)
    requires d > 0 && r < d && n == q * d + r
    ensures n / d == q && n % d == r
  {
    MulMonotone(n / d + 1, q, d);
    MulMonotone(q + 1, n / d, d);
  }

  const U64_BOUND: nat := 0x1_0000_0000_0000_0000

  type U64 = n: nat | n < U64_BOUND

  lemma Pow2Of64()
    ensures Pow2(64) == U64_BOUND
  {
    assert Pow2(4) == 2 * Pow2(3) == 4 * Pow2(2) == 16;
    Pow2Sum(4, 4);
    Pow2Sum(8, 8);
    Pow2Sum(16, 16);
    Pow2Sum(32, 32);
  }

  // Shift right: the index of the ancestor at level `d`.
  function Shr(n: nat, d: nat): nat {
    if d == 0 then n else Shr(n, d - 1) / 2
  }

  predicate BitSet(n: nat, d: nat) {
    Shr(n, d) % 2 == 1
  }

  lemma {:induction false} ShrHalf(n: nat, d: nat)
    ensures Shr(n, d + 1) == Shr(n / 2, d)
  {
    if d > 0 {
      ShrHalf(n, d - 1);
    }
  }

  lemma {:induction false} ShrZero(n: nat, d: nat)
    ensures Shr(n, d) == 0 <==> n < Pow2(d)
  {
    if d > 0 {
      ShrHalf(n, d - 1);
      ShrZero(n / 2, d - 1);
    }
  }

  lemma {:induction false} ShrFull(d: nat)
    ensures Shr(Pow2(d), d) == 1
  {
    if d > 0 {
      ShrHalf(Pow2(d), d - 1);
      ShrFull(d - 1);
    }
  }

  ghost predicate LowBitsSet(n: nat, d: nat) {
    forall e :: 0 <= e < d ==> BitSet(n, e)
  }

  /** Adding one ripples through the set low bits and stops at the first clear one. */
  lemma {:induction false} Carry(n: nat, d: nat)
    ensures Shr(n + 1, d) == Shr(n, d) + if LowBitsSet(n, d) then 1 else 0
  {
    if d > 0 {
      Carry(n, d - 1);
      assert LowBitsSet(n, d) <==> LowBitsSet(n, d - 1) && BitSet(n, d - 1);
    }
  }

  lemma CarryAround(n: nat, d: nat, e: nat)
    requires LowBitsSet(n, d)
    ensures e < d ==> !BitSet(n + 1, e)
    ensures e == d ==> Shr(n + 1, e) == Shr(n, e) + 1
    ensures d < e && !BitSet(n, d) ==> Shr(n + 1, e) == Shr(n, e)
  {
    Carry(n, e);
    if e < d {
      assert LowBitsSet(n, e) && BitSet(n, e);
    } else if d < e && !BitSet(n, d) {
      assert !LowBitsSet(n, e);
    }
  }

  // ----- bit strings -----

  function FromBits(bs: seq<bool>): (n: nat)
    ensures n < Pow2(|bs|)
  {
    if bs == [] then 0 else (if bs[0] then 1 else 0) + 2 * FromBits(bs[1..])
  }

  function ToBits(n: nat, len: nat): (bs: seq<bool>)
    ensures |bs| == len
    ensures forall d :: 0 <= d < len ==> bs[d] == BitSet(n, d)
  {
    seq(len, d requires 0 <= d < len => BitSet(n, d))
  }

  lemma {:induction false} FromBitsAt(bs: seq<bool>, d: nat)
    requires d < |bs|
    ensures BitSet(FromBits(bs), d) == bs[d]
  {
    if d > 0 {
      ShrHalf(FromBits(bs), d - 1);
      FromBitsAt(bs[1..], d - 1);
    }
  }

  lemma {:induction false} FromBitsAppend(bs: seq<bool>, b: bool)
    ensures FromBits(bs + [b]) == FromBits(bs) + if b then Pow2(|bs|) else 0
  {
    if bs == [] {
      assert (bs + [b])[1..] == [];
    } else {
      assert (bs + [b])[1..] == bs[1..] + [b];
      FromBitsAppend(bs[1..], b);
    }
  }

  /** Reading back the low `len` bits of a number that has no others. */
  lemma {:induction false} FromToBits(n: nat, len: nat)
    requires n < Pow2(len)
    ensures FromBits(ToBits(n, len)) == n
  {
    if len > 0 {
      forall d | 0 <= d < len - 1 ensures ToBits(n, len)[1..][d] == ToBits(n / 2, len - 1)[d] {
        ShrHalf(n, d);
      }
      assert ToBits(n, len)[1..] == ToBits(n / 2, len - 1);
      FromToBits(n / 2, len - 1);
    }
  }
}
