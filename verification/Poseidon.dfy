/** The Poseidon permutation and the three v2 hashes built from it. */
module Poseidon {
  import opened Fields
  import opened Encoding

  const FULL_ROUNDS: nat := 8
  const PARTIAL_ROUNDS: nat := 56
  const ROUNDS: nat := 64

  datatype State<F> = State(s0: F, s1: F, s2: F, s3: F)

  /** The field together with the constants that the code derives with BLAKE3. */
  datatype Suite<!F(!new)> = Suite(
    field: Field<F>,
    rc: (nat, nat) -> F,
    poseidonIv: F,
    noteIv: F,
    nullifierIv: F,
    merkleIv: F)
  {
    function Keys(r: nat): State<F> {
      State(rc(r, 0), rc(r, 1), rc(r, 2), rc(r, 3))
    }

    /** `poseidon_eval_round_base`. */
    function Round(s: State<F>, r: nat): State<F> {
      RoundMap(field, s, Keys(r), field.Bit(IsFullRound(r)))
    }

    function LimbsOf(d: Digest): Limbs<F> {
      Unpack(field, d)
    }

    /** `merkle_hash2` on field elements, and on bytes. */
    function NodeDigest(l: Limbs<F>, r: Limbs<F>): Limbs<F> {
      Squeeze(Perm(this, NodeAbsorb(field, Perm(this, NodeStart(this, l, r)), r.hi)))
    }

    function NodeHash(l: Digest, r: Digest): Digest {
      Pack(field, NodeDigest(Unpack(field, l), Unpack(field, r)))
    }

    function NoteOf(v: nat, b: Limbs<F>, pkd: Limbs<F>): Limbs<F> {
      NoteDigest(this, field.OfInt(v), b, pkd)
    }

    function NullifierOf(b: Limbs<F>): Limbs<F> {
      NullifierDigest(this, b)
    }
  }

  predicate IsFullRound(r: nat) {
    r < FULL_ROUNDS / 2 || r >= FULL_ROUNDS / 2 + PARTIAL_ROUNDS
  }

  function Cube<F(!new)>(f: Field<F>, x: F): F {
    f.Mul(f.Mul(x, x), x)
  }

  // The S-box of columns 1 to 3: a cube in a full round, the identity in a partial one.
  function SBox<F(!new)>(f: Field<F>, isFull: F, x: F): F {
    f.Add(f.Mul(isFull, Cube(f, x)), f.Mul(f.Sub(f.one, isFull), x))
  }

  function AddKeys<F(!new)>(f: Field<F>, s: State<F>, keys: State<F>): State<F> {
    State(f.Add(s.s0, keys.s0), f.Add(s.s1, keys.s1), f.Add(s.s2, keys.s2), f.Add(s.s3, keys.s3))
  }

  function SBoxes<F(!new)>(f: Field<F>, isFull: F, a: State<F>): State<F> {
    State(Cube(f, a.s0), SBox(f, isFull, a.s1), SBox(f, isFull, a.s2), SBox(f, isFull, a.s3))
  }

  function Sum<F(!new)>(f: Field<F>, b: State<F>): F {
    f.Add(f.Add(f.Add(b.s0, b.s1), b.s2), b.s3)
  }

  function Mix<F(!new)>(f: Field<F>, b: State<F>): State<F> {
    var t := Sum(f, b);
    State(f.Add(b.s0, t), f.Add(b.s1, t), f.Add(b.s2, t), f.Add(b.s3, t))
  }

  /** One round as a polynomial in the state, the round keys and the full-round flag. */
  function RoundMap<F(!new)>(f: Field<F>, s: State<F>, keys: State<F>, isFull: F): State<F> {
    Mix(f, SBoxes(f, isFull, AddKeys(f, s, keys)))
  }

  // `n` steps, numbered from 0. The clause names every parameter: with `n` alone the verifier would unfold
  // all the rounds of every permutation it meets.
  function Iterate<S>(step: (S, nat) -> S, s: S, n: nat): S
    decreases n, s, step
  {
    if n == 0 then s else step(Iterate(step, s, n - 1), n - 1)
  }

  // The first `n` rounds.
  function Rounds<F(!new)>(k: Suite<F>, s: State<F>, n: nat): State<F> {
    Iterate(k.Round, s, n)
  }

  function Perm<F(!new)>(k: Suite<F>, s: State<F>): State<F> {
    Rounds(k, s, ROUNDS)
  }

  function StateOf<F>(a: array<F>): State<F>
    requires a.Length == 4
    reads a
  {
    State(a[0], a[1], a[2], a[3])
  }

  method IterateInPlace<F>(round: (State<F>, nat) -> State<F>, state: array<F>, n: nat)
    requires state.Length == 4
    modifies state
    ensures StateOf(state) == Iterate(round, old(StateOf(state)), n)
  {
    for r := 0 to n
      invariant StateOf(state) == Iterate(round, old(StateOf(state)), r)
    {
      var tmp := round(StateOf(state), r);
      state[0], state[1], state[2], state[3] := tmp.s0, tmp.s1, tmp.s2, tmp.s3;
    }
  }

  /** `poseidon_perm`: sixty-four rounds in place. */
  method PermInPlace<F(!new)>(k: Suite<F>, state: array<F>)
    requires state.Length == 4
    modifies state
    ensures StateOf(state) == Perm(k, old(StateOf(state)))
  {
    IterateInPlace(k.Round, state, ROUNDS);
  }

  // ----- the hashes, on field elements -----

  function Absorb<F(!new)>(f: Field<F>, s: State<F>, l: Limbs<F>): State<F> {
    State(s.s0, f.Add(s.s1, l.lo), f.Add(s.s2, l.hi), s.s3)
  }

  function Squeeze<F(!new)>(s: State<F>): Limbs<F> {
    Limbs(s.s1, s.s2)
  }

  function NoteStart<F(!new)>(k: Suite<F>, v: F, b: Limbs<F>): State<F> {
    State(k.noteIv, v, b.lo, b.hi)
  }

  function NullifierStart<F(!new)>(k: Suite<F>, b: Limbs<F>): State<F> {
    State(k.nullifierIv, b.lo, b.hi, k.field.zero)
  }

  function NodeStart<F(!new)>(k: Suite<F>, l: Limbs<F>, r: Limbs<F>): State<F> {
    State(k.merkleIv, l.lo, l.hi, r.lo)
  }

  // The Merkle absorb adds only the high limb of the right child, to column 1.
  function NodeAbsorb<F(!new)>(f: Field<F>, s: State<F>, rHi: F): State<F> {
    State(s.s0, f.Add(s.s1, rHi), s.s2, s.s3)
  }

  function NoteDigest<F(!new)>(k: Suite<F>, v: F, b: Limbs<F>, pkd: Limbs<F>): Limbs<F> {
    Squeeze(Perm(k, Absorb(k.field, Perm(k, NoteStart(k, v, b)), pkd)))
  }

  function NullifierDigest<F(!new)>(k: Suite<F>, b: Limbs<F>): Limbs<F> {
    Squeeze(Perm(k, NullifierStart(k, b)))
  }

  /** The commitment hash `poseidon_hash` on field elements. */
  function CommitmentDigest<F(!new)>(k: Suite<F>, v: F, b: Limbs<F>): Limbs<F> {
    Squeeze(Perm(k, State(k.poseidonIv, v, b.lo, b.hi)))
  }

  // ----- the hashes, on bytes -----

  function NoteHash<F(!new)>(k: Suite<F>, v: nat, b: Digest, pkd: Digest): Digest {
    var f := k.field;
    Pack(f, NoteDigest(k, f.OfInt(v), Unpack(f, b), Unpack(f, pkd)))
  }

  function NullifierHash<F(!new)>(k: Suite<F>, b: Digest): Digest {
    Pack(k.field, NullifierDigest(k, Unpack(k.field, b)))
  }

  function CommitmentHash<F(!new)>(k: Suite<F>, v: nat, b: Digest): Digest {
    Pack(k.field, CommitmentDigest(k, k.field.OfInt(v), Unpack(k.field, b)))
  }

  /** Hashing bytes and unpacking is hashing the limbs. */
  lemma NoteHashUnpacks<F(!new)>(k: Suite<F>, v: nat, b: Digest, pkd: Digest)
    requires k.field.Lawful()
    ensures k.LimbsOf(NoteHash(k, v, b, pkd)) == NoteDigest(k, k.field.OfInt(v), k.LimbsOf(b), k.LimbsOf(pkd))
  {
    UnpackPack(k.field, NoteDigest(k, k.field.OfInt(v), k.LimbsOf(b), k.LimbsOf(pkd)));
  }

  lemma NullifierHashUnpacks<F(!new)>(k: Suite<F>, b: Digest)
    requires k.field.Lawful()
    ensures k.LimbsOf(NullifierHash(k, b)) == NullifierDigest(k, k.LimbsOf(b))
  {
    UnpackPack(k.field, NullifierDigest(k, k.LimbsOf(b)));
  }

  function Repack<F(!new)>(f: Field<F>, d: Digest): Digest {
    Pack(f, Unpack(f, d))
  }

  /** The hashes read their digests only through the field: canonicalising any input changes
      nothing. */
  lemma HashesSeeLimbsOnly<F(!new)>(k: Suite<F>, v: nat, a: Digest, b: Digest)
    requires k.field.Lawful()
    ensures NoteHash(k, v, Repack(k.field, a), Repack(k.field, b)) == NoteHash(k, v, a, b)
    ensures NullifierHash(k, Repack(k.field, a)) == NullifierHash(k, a)
    ensures k.NodeHash(Repack(k.field, a), Repack(k.field, b)) == k.NodeHash(a, b)
  {
    UnpackPack(k.field, Unpack(k.field, a));
    UnpackPack(k.field, Unpack(k.field, b));
  }

  // Absorbing loses nothing.
  lemma AbsorbCancels<F(!new)>(f: Field<F>, s: State<F>, l: Limbs<F>, m: Limbs<F>)
    requires f.Lawful()
    requires Absorb(f, s, l) == Absorb(f, s, m)
    ensures l == m
  {
    LeftCancels(f, s.s1, l.lo, m.lo);
    LeftCancels(f, s.s2, l.hi, m.hi);
  }

  // ----- the permutation loses nothing -----

  ghost predicate Commutes<F(!new)>(f: Field<F>) {
    && (forall a, b :: f.Add(a, b) == f.Add(b, a))
    && (forall a, b, c :: f.Add(f.Add(a, b), c) == f.Add(a, f.Add(b, c)))
  }

  /** Addition cancels, cubing is injective, and so is multiplying by five. */
  ghost predicate Cancels<F(!new)>(f: Field<F>) {
    && (forall a, b, c :: f.Add(a, c) == f.Add(b, c) ==> a == b)
    && CubesDiffer(f)
    && FivefoldsDiffer(f)
  }

  ghost predicate CubesDiffer<F(!new)>(f: Field<F>) {
    forall a, b :: Cube(f, a) == Cube(f, b) ==> a == b
  }

  ghost predicate FivefoldsDiffer<F(!new)>(f: Field<F>) {
    forall a, b :: Fivefold(f, a) == Fivefold(f, b) ==> a == b
  }

  ghost predicate MixSums<F(!new)>(f: Field<F>) {
    forall b :: Sum(f, Mix(f, b)) == Fivefold(f, Sum(f, b))
  }

  function Fivefold<F(!new)>(f: Field<F>, a: F): F {
    f.Add(a, f.Add(f.Add(f.Add(a, a), a), a))
  }

  lemma Interchange<F(!new)>(f: Field<F>, a: F, b: F, c: F, d: F)
    requires Commutes(f)
    ensures f.Add(f.Add(a, c), f.Add(b, d)) == f.Add(f.Add(a, b), f.Add(c, d))
  {
    assert f.Add(c, f.Add(b, d)) == f.Add(f.Add(c, b), d) == f.Add(f.Add(b, c), d) == f.Add(b, f.Add(c, d));
  }

  lemma MixSum<F(!new)>(f: Field<F>, b: State<F>)
    requires Commutes(f)
    ensures Sum(f, Mix(f, b)) == Fivefold(f, Sum(f, b))
  {
    var t := Sum(f, b);
    Interchange(f, b.s0, b.s1, t, t);
    Interchange(f, f.Add(b.s0, b.s1), b.s2, f.Add(t, t), t);
    Interchange(f, f.Add(f.Add(b.s0, b.s1), b.s2), b.s3, f.Add(f.Add(t, t), t), t);
  }

  /** Mixing multiplies the column sum by five. */
  lemma AllMixSums<F(!new)>(f: Field<F>)
    requires Commutes(f)
    ensures MixSums(f)
  {
    forall b ensures Sum(f, Mix(f, b)) == Fivefold(f, Sum(f, b)) {
      MixSum(f, b);
    }
  }

  lemma MixInjective<F(!new)>(f: Field<F>, a: State<F>, b: State<F>)
    requires Cancels(f) && MixSums(f)
    requires Mix(f, a) == Mix(f, b)
    ensures a == b
  {
    assert Sum(f, Mix(f, a)) == Sum(f, Mix(f, b));
    assert Sum(f, a) == Sum(f, b);
  }

  lemma SBoxInjective<F(!new)>(f: Field<F>, full: bool, x: F, y: F)
    requires f.Lawful() && Cancels(f)
    requires SBox(f, f.Bit(full), x) == SBox(f, f.Bit(full), y)
    ensures x == y
  {
    assert f.Sub(f.one, f.one) == f.zero;
  }

  lemma AddKeysInjective<F(!new)>(f: Field<F>, s: State<F>, t: State<F>, keys: State<F>)
    requires Cancels(f)
    requires AddKeys(f, s, keys) == AddKeys(f, t, keys)
    ensures s == t
  {
  }

  lemma RoundInjective<F(!new)>(k: Suite<F>, s: State<F>, t: State<F>, r: nat)
    requires k.field.Lawful() && Cancels(k.field) && MixSums(k.field)
    requires k.Round(s, r) == k.Round(t, r)
    ensures s == t
  {
    var f, full := k.field, IsFullRound(r);
    var a, b := AddKeys(f, s, k.Keys(r)), AddKeys(f, t, k.Keys(r));
    MixInjective(f, SBoxes(f, f.Bit(full), a), SBoxes(f, f.Bit(full), b));
    SBoxInjective(f, full, a.s1, b.s1);
    SBoxInjective(f, full, a.s2, b.s2);
    SBoxInjective(f, full, a.s3, b.s3);
    AddKeysInjective(f, s, t, k.Keys(r));
  }

  ghost predicate RoundsInvertible<F(!new)>(k: Suite<F>) {
    forall s, t, r: nat {:trigger k.Round(s, r), k.Round(t, r)} :: k.Round(s, r) == k.Round(t, r) ==> s == t
  }

  lemma FieldCancels<F(!new)>(f: Field<F>)
    requires f.Lawful() && Commutes(f) && CubesDiffer(f) && FivefoldsDiffer(f)
    ensures Cancels(f)
  {
    forall a, b, c | f.Add(a, c) == f.Add(b, c) ensures a == b {
      assert f.Add(c, a) == f.Add(c, b);
      LeftCancels(f, c, a, b);
    }
  }

  /** Every full and every partial round is injective, over any field of the suite's laws where addition
      commutes and associates, cubing is injective, and five is not a zero divisor. */
  lemma EveryRoundInjective<F(!new)>(k: Suite<F>)
    requires k.field.Lawful() && Commutes(k.field) && CubesDiffer(k.field) && FivefoldsDiffer(k.field)
    ensures RoundsInvertible(k)
  {
    FieldCancels(k.field);
    AllMixSums(k.field);
    forall s, t, r: nat | k.Round(s, r) == k.Round(t, r) ensures s == t {
      RoundInjective(k, s, t, r);
    }
  }

  /** No two states collide after any number of rounds. */
  lemma {:induction false} RoundsInjective<F(!new)>(k: Suite<F>, s: State<F>, t: State<F>, n: nat)
    requires RoundsInvertible(k)
    requires Rounds(k, s, n) == Rounds(k, t, n)
    ensures s == t
  {
    if n > 0 {
      RoundsInjective(k, s, t, n - 1);
    }
  }

  /** Hence the whole permutation is injective. */
  lemma PermInjective<F(!new)>(k: Suite<F>, s: State<F>, t: State<F>)
    requires k.field.Lawful() && Commutes(k.field) && CubesDiffer(k.field) && FivefoldsDiffer(k.field)
    requires Perm(k, s) == Perm(k, t)
    ensures s == t
  {
    EveryRoundInjective(k);
    RoundsInjective(k, s, t, ROUNDS);
  }

  // ----- over the f128 field -----

  lemma AddModAssociates(a: F128, b: F128, c: F128)
    ensures AddMod(AddMod(a, b), c) == AddMod(a, AddMod(b, c))
  {
    AddSubForms(a, b);
    AddSubForms(b, c);
    AddSubForms(AddMod(a, b), c);
    AddSubForms(a, AddMod(b, c));
  }

  lemma Mod128Commutes()
    ensures Commutes(Mod128())
  {
    forall a: F128, b: F128, c: F128 ensures AddMod(AddMod(a, b), c) == AddMod(a, AddMod(b, c)) {
      AddModAssociates(a, b, c);
    }
  }

  // Five times a reduced integer is its fivefold, up to at most four moduli.
  lemma FivefoldForm(a: F128) returns (q: nat)
    ensures q <= 4 && 5 * a == q * MODULUS + Fivefold(Mod128(), a)
  {
    var b := AddMod(a, a);
    var c := AddMod(b, a);
    var d := AddMod(c, a);
    AddSubForms(a, a);
    AddSubForms(b, a);
    AddSubForms(c, a);
    AddSubForms(a, d);
    var r := AddMod(a, d);
    assert r == Fivefold(Mod128(), a);
    q := if 5 * a == r then 0 else if 5 * a == MODULUS + r then 1
         else if 5 * a == 2 * MODULUS + r then 2 else if 5 * a == 3 * MODULUS + r then 3 else 4;
  }

  // The modulus is two modulo five.
  lemma FiveDivides(a: int, d: int)
    requires -4 <= d <= 4 && 5 * a == d * MODULUS
    ensures a == 0
  {
    var m := MODULUS / 5;
    assert MODULUS == 5 * m + 2;
    assert 5 * (a - d * m) == 2 * d;
  }

  lemma SameFivefold(a: nat, b: nat, q: nat, r: nat, x: nat)
    requires q <= 4 && r <= 4 && 5 * a == q * MODULUS + x && 5 * b == r * MODULUS + x
    ensures a == b
  {
    FiveDivides(a - b, q - r);
  }

  lemma FivefoldInjective(a: F128, b: F128)
    requires Fivefold(Mod128(), a) == Fivefold(Mod128(), b)
    ensures a == b
  {
    var q := FivefoldForm(a);
    var r := FivefoldForm(b);
    SameFivefold(a, b, q, r, Fivefold(Mod128(), a));
  }

  lemma Mod128FivefoldsDiffer()
    ensures FivefoldsDiffer(Mod128())
  {
    forall a: F128, b: F128 | Fivefold(Mod128(), a) == Fivefold(Mod128(), b) ensures a == b {
      FivefoldInjective(a, b);
    }
  }

  /** Over the f128 field only the injectivity of cubing is left to assume. */
  lemma Mod128PermInjective(k: Suite<F128>, s: State<F128>, t: State<F128>)
    requires k.field == Mod128() && NoZeroDivisors() && CubesDiffer(k.field)
    requires Perm(k, s) == Perm(k, t)
    ensures s == t
  {
    Mod128Lawful();
    Mod128Commutes();
    Mod128FivefoldsDiffer();
    PermInjective(k, s, t);
  }
}
