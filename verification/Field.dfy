/** The arithmetic that the constraint systems are written in.

    The circuits never look inside a field element: they add, subtract, multiply and embed machine
    integers. `Field` is that interface and `Lawful` is exactly what the proofs rely on. `Mod128`
    is the interface as the f128 library implements it, integers modulo a 128-bit modulus. */
module Fields {
  import opened Bits

  datatype Field<!F(!new)> = Field(
    zero: F,
    one: F,
    add: (F, F) -> F,
    sub: (F, F) -> F,
    mul: (F, F) -> F,
    modulus: nat,
    ofInt: nat -> F,  // `BaseElement::new`
    toInt: F -> nat)  // `as_int`
  {
    function Add(a: F, b: F): F { add(a, b) }
    function Sub(a: F, b: F): F { sub(a, b) }
    function Mul(a: F, b: F): F { mul(a, b) }
    function OfInt(n: nat): F { ofInt(n) }
    function ToInt(a: F): nat { toInt(a) }
    function Bit(b: bool): F { if b then one else zero }

    /** What the f128 library promises, as far as the circuits use it. */
    ghost predicate Lawful() {
      Units() && Subtracts() && Booleans() && Embeds()
    }

    ghost predicate Units() {
      && one != zero
      && (forall a :: Mul(zero, a) == zero)
      && (forall a :: Mul(one, a) == a)
      && (forall a :: Add(a, zero) == a && Add(zero, a) == a)
      && (forall a :: Sub(a, zero) == a)
    }

    ghost predicate Subtracts() {
      && (forall a, b :: Sub(a, b) == zero <==> a == b)
      && (forall a, b, c :: Sub(Sub(a, b), c) == zero <==> a == Add(b, c))
      && (forall a, b, c :: Add(Sub(a, b), Sub(b, c)) == zero <==> a == c)
    }

    // The only roots of x(x - 1) are 0 and 1: what an integral domain gives the bit constraints.
    ghost predicate Booleans() {
      forall a {:trigger Mul(a, Sub(a, one))} :: Mul(a, Sub(a, one)) == zero ==> a == zero || a == one
    }

    /** Machine integers embed with kernel exactly the multiples of the modulus, and the modulus
        leaves room for the sum of two 64-bit values but fits sixteen bytes. */
    ghost predicate Embeds() {
      && 2 * U64_BOUND < modulus <= U64_BOUND * U64_BOUND
      && OfInt(0) == zero
      && OfInt(1) == one
      && (forall m: nat, n: nat :: AddsAt(m, n))
      && (forall a {:trigger ToInt(a)} :: ToInt(a) < modulus && OfInt(ToInt(a)) == a)
      && (forall n: nat {:trigger ToInt(OfInt(n))} :: ToInt(OfInt(n)) == n % modulus)
    }

    ghost predicate AddsAt(m: nat, n: nat) {
      Add(OfInt(m), OfInt(n)) == OfInt(m + n)
    }

    /** Two integers below the modulus that embed alike are equal: the field cannot wrap them. */
    lemma OfIntInjective(m: nat, n: nat)
      requires Lawful()
      requires m < modulus && n < modulus
      requires OfInt(m) == OfInt(n)
      ensures m == n
    {
      assert ToInt(OfInt(m)) == m % modulus;
      assert ToInt(OfInt(n)) == n % modulus;
      SmallMod(m, modulus);
      SmallMod(n, modulus);
    }
  }

  /** Addition cancels, which the subtraction laws already imply. */
  lemma LeftCancels<F(!new)>(f: Field<F>, x: F, a: F, b: F)
    requires f.Lawful()
    requires f.Add(x, a) == f.Add(x, b)
    ensures a == b
  {
    var y := f.Add(x, a);
    assert f.Sub(f.Sub(y, x), a) == f.zero && f.Sub(f.Sub(y, x), b) == f.zero;
  }

  lemma SmallMod(n: nat, m: nat)
    requires n < m
    ensures n % m == n
  {
  }

  // 2^128 - 45 * 2^40 + 1, the modulus of the f128 field.
  const MODULUS: nat := 340282366920938463463374557953744961537

  lemma ModulusForm()
    ensures MODULUS == U64_BOUND * U64_BOUND - 45 * 0x100_0000_0000 + 1
  {
  }

  type F128 = x: nat | x < MODULUS

  function Reduce(n: int): (r: F128)
    ensures 0 <= n < MODULUS ==> r == n
  {
    n % MODULUS
  }

  function AddMod(a: F128, b: F128): F128 { Reduce(a + b) }
  function SubMod(a: F128, b: F128): F128 { Reduce(a - b) }
  function MulMod(a: F128, b: F128): F128 { Reduce(a * b) }

  /** The modulus is prime, as the f128 library assumes. */
  ghost predicate NoZeroDivisors() {
    forall a: F128, b: F128 :: MulMod(a, b) == 0 ==> a == 0 || b == 0
  }

  function Mod128(): Field<F128> {
    Field(0, 1,
          AddMod, SubMod, MulMod,
          MODULUS,
          (n: nat) => Reduce(n),
          (a: F128) => a as nat)
  }

  lemma ReduceUnique(n: int, q: int, r: F128)
    requires n == q * MODULUS + r
    ensures Reduce(n) == r
  {
  }

  lemma ReduceAdds(m: nat, n: nat)
    ensures Reduce(Reduce(m) + Reduce(n)) == Reduce(m + n)
  {
    var r := Reduce(m) + Reduce(n);
    ReduceUnique(m + n, m / MODULUS + n / MODULUS + r / MODULUS, Reduce(r));
  }

  /** Sums and differences of reduced integers, without the modulo. */
  lemma AddSubForms(a: F128, b: F128)
    ensures AddMod(a, b) == if a + b < MODULUS then a + b else a + b - MODULUS
    ensures SubMod(a, b) == if a >= b then a - b else a - b + MODULUS
  {
    ReduceUnique(a + b, if a + b < MODULUS then 0 else 1, if a + b < MODULUS then a + b else a + b - MODULUS);
    ReduceUnique(a - b, if a >= b then 0 else -1, if a >= b then a - b else a - b + MODULUS);
  }

  lemma SubZero(a: F128, b: F128)
    ensures SubMod(a, b) == 0 <==> a == b
  {
    AddSubForms(a, b);
  }

  lemma SubSubZero(a: F128, b: F128, c: F128)
    ensures SubMod(SubMod(a, b), c) == 0 <==> a == AddMod(b, c)
  {
    AddSubForms(a, b);
    AddSubForms(SubMod(a, b), c);
    AddSubForms(b, c);
  }

  lemma DiffsCancel(a: F128, b: F128, c: F128)
    ensures AddMod(SubMod(a, b), SubMod(b, c)) == 0 <==> a == c
  {
    AddSubForms(a, b);
    AddSubForms(b, c);
    AddSubForms(SubMod(a, b), SubMod(b, c));
  }

  lemma Mod128Adds(m: nat, n: nat)
    ensures Mod128().AddsAt(m, n)
  {
    ReduceAdds(m, n);
  }

  lemma Mod128Represents()
    ensures forall a: F128 :: Mod128().ToInt(a) < MODULUS && Mod128().OfInt(Mod128().ToInt(a)) == a
    ensures forall n: nat :: Mod128().ToInt(Mod128().OfInt(n)) == n % MODULUS
  {
  }

  lemma Mod128Embeds()
    ensures Mod128().Embeds()
  {
    Mod128Represents();
    forall m: nat, n: nat ensures Mod128().AddsAt(m, n) {
      Mod128Adds(m, n);
    }
  }

  lemma Mod128Units()
    ensures Mod128().Units()
  {
  }

  ghost predicate ModSubtracts() {
    && (forall a: F128, b: F128 :: SubMod(a, b) == 0 <==> a == b)
    && (forall a: F128, b: F128, c: F128 :: SubMod(SubMod(a, b), c) == 0 <==> a == AddMod(b, c))
    && (forall a: F128, b: F128, c: F128 :: AddMod(SubMod(a, b), SubMod(b, c)) == 0 <==> a == c)
  }

  lemma AllModSubtract()
    ensures ModSubtracts()
  {
    forall a: F128, b: F128 ensures SubMod(a, b) == 0 <==> a == b {
      SubZero(a, b);
    }
    forall a: F128, b: F128, c: F128 ensures SubMod(SubMod(a, b), c) == 0 <==> a == AddMod(b, c) {
      SubSubZero(a, b, c);
    }
    forall a: F128, b: F128, c: F128 ensures AddMod(SubMod(a, b), SubMod(b, c)) == 0 <==> a == c {
      DiffsCancel(a, b, c);
    }
  }

  lemma Mod128AllSubtract()
    ensures Mod128().Subtracts()
  {
    AllModSubtract();
  }

  lemma Mod128Booleans()
    requires NoZeroDivisors()
    ensures Mod128().Booleans()
  {
    forall a: F128 | Mod128().Mul(a, Mod128().Sub(a, 1)) == 0 ensures a == 0 || a == 1 {
      var b := Reduce(a - 1);
      assert Mod128().Sub(a, 1) == b && MulMod(a, b) == 0;
      SubZero(a, 1);
    }
  }

  /** Arithmetic modulo the f128 modulus has every law the circuits use, given that the modulus is
      prime. */
  lemma Mod128Lawful()
    requires NoZeroDivisors()
    ensures Mod128().Lawful()
  {
    Mod128Units();
    Mod128AllSubtract();
    Mod128Booleans();
    Mod128Embeds();
  }
}
