/** The hashes as one sponge over their input limbs, a round column by column, and what the states before
    the last squeeze still determine. */
module Sponge {
  import opened Fields
  import opened Encoding
  import opened Poseidon

  // ----- one sponge -----

  function Input<F(!new)>(f: Field<F>, xs: seq<F>, i: nat): F {
    if i < |xs| then xs[i] else f.zero
  }

  /** The inputs in order: three behind the initial value, two more added to the columns behind it after a
      permutation, and the same two columns as the result. Missing inputs are zeros. */
  function SpongeOf<F(!new)>(k: Suite<F>, iv: F, xs: seq<F>): Limbs<F> {
    var f := k.field;
    var first := Perm(k, State(iv, Input(f, xs, 0), Input(f, xs, 1), Input(f, xs, 2)));
    var last :=
      if |xs| <= 3 then first
      else Perm(k, State(first.s0, f.Add(first.s1, Input(f, xs, 3)), f.Add(first.s2, Input(f, xs, 4)), first.s3));
    Limbs(last.s1, last.s2)
  }

  lemma NoteIsSponge<F(!new)>(k: Suite<F>, v: F, b: Limbs<F>, pkd: Limbs<F>)
    ensures NoteDigest(k, v, b, pkd) == SpongeOf(k, k.noteIv, [v, b.lo, b.hi, pkd.lo, pkd.hi])
  {
  }

  lemma NullifierIsSponge<F(!new)>(k: Suite<F>, b: Limbs<F>)
    ensures NullifierDigest(k, b) == SpongeOf(k, k.nullifierIv, [b.lo, b.hi])
  {
  }

  lemma NodeIsSponge<F(!new)>(k: Suite<F>, l: Limbs<F>, r: Limbs<F>)
    requires k.field.Lawful()
    ensures k.NodeDigest(l, r) == SpongeOf(k, k.merkleIv, [l.lo, l.hi, r.lo, r.hi])
  {
    var m := Perm(k, NodeStart(k, l, r));
    assert k.field.Add(m.s2, k.field.zero) == m.s2;
  }

  lemma CommitmentIsSponge<F(!new)>(k: Suite<F>, v: F, b: Limbs<F>)
    ensures CommitmentDigest(k, v, b) == SpongeOf(k, k.poseidonIv, [v, b.lo, b.hi])
  {
  }

  /** On bytes: note, nullifier, node and commitment hash are the sponge over the limbs of their inputs, in
      order, low limb first, each under its own initial value. */
  lemma HashesAreSponges<F(!new)>(k: Suite<F>, v: nat, a: Digest, b: Digest)
    requires k.field.Lawful()
    ensures
      var f := k.field;
      var n, x, y := f.OfInt(v), Unpack(f, a), Unpack(f, b);
      && NoteHash(k, v, a, b) == Pack(f, SpongeOf(k, k.noteIv, [n, x.lo, x.hi, y.lo, y.hi]))
      && NullifierHash(k, a) == Pack(f, SpongeOf(k, k.nullifierIv, [x.lo, x.hi]))
      && k.NodeHash(a, b) == Pack(f, SpongeOf(k, k.merkleIv, [x.lo, x.hi, y.lo, y.hi]))
      && CommitmentHash(k, v, a) == Pack(f, SpongeOf(k, k.poseidonIv, [n, x.lo, x.hi]))
  {
    var f := k.field;
    NoteIsSponge(k, f.OfInt(v), Unpack(f, a), Unpack(f, b));
    NullifierIsSponge(k, Unpack(f, a));
    NodeIsSponge(k, Unpack(f, a), Unpack(f, b));
    CommitmentIsSponge(k, f.OfInt(v), Unpack(f, a));
  }

  // ----- one round, column by column -----

  function Column<F>(s: State<F>, i: nat): F
    requires i < 4
  {
    if i == 0 then s.s0 else if i == 1 then s.s1 else if i == 2 then s.s2 else s.s3
  }

  // Row `i` of the matrix with two on the diagonal and one elsewhere, times a column vector.
  function RowTimes<F(!new)>(f: Field<F>, i: nat, x: seq<F>): F
    requires i < 4 && |x| == 4
  {
    var y := x[i := f.Add(x[i], x[i])];
    f.Add(f.Add(f.Add(y[0], y[1]), y[2]), y[3])
  }

  // What round `r` makes of column `j` before the linear layer.
  function Boxed<F(!new)>(k: Suite<F>, s: State<F>, r: nat, j: nat): F
    requires j < 4
  {
    var x := k.field.Add(Column(s, j), k.rc(r, j));
    if j == 0 || r < 4 || r >= 60 then k.field.Mul(k.field.Mul(x, x), x) else x
  }

  lemma FullRounds(r: nat)
    ensures IsFullRound(r) <==> r < 4 || r >= 60
  {
  }

  lemma SBoxCases<F(!new)>(f: Field<F>, full: bool, x: F)
    requires f.Lawful()
    ensures SBox(f, f.Bit(full), x) == if full then f.Mul(f.Mul(x, x), x) else x
  {
    assert f.Sub(f.one, f.one) == f.zero;
  }

  lemma MixIsMatrix<F(!new)>(f: Field<F>, b: State<F>, i: nat)
    requires Commutes(f) && i < 4
    ensures Column(Mix(f, b), i) == RowTimes(f, i, [b.s0, b.s1, b.s2, b.s3])
  {
    var x := [b.s0, b.s1, b.s2, b.s3];
    DoubleOne(f, b.s0, b.s1, b.s2, b.s3);
  }

  lemma DoubleOne<F(!new)>(f: Field<F>, a: F, b: F, c: F, d: F)
    requires Commutes(f)
    ensures var t := f.Add(f.Add(f.Add(a, b), c), d);
      && f.Add(a, t) == f.Add(f.Add(f.Add(f.Add(a, a), b), c), d)
      && f.Add(b, t) == f.Add(f.Add(f.Add(a, f.Add(b, b)), c), d)
      && f.Add(c, t) == f.Add(f.Add(f.Add(a, b), f.Add(c, c)), d)
      && f.Add(d, t) == f.Add(f.Add(f.Add(a, b), c), f.Add(d, d))
  {
    var ab, abc := f.Add(a, b), f.Add(f.Add(a, b), c);
    assert f.Add(a, f.Add(abc, d)) == f.Add(f.Add(a, abc), d);
    assert f.Add(a, f.Add(ab, c)) == f.Add(f.Add(a, ab), c);
    assert f.Add(a, f.Add(a, b)) == f.Add(f.Add(a, a), b);
    assert f.Add(b, f.Add(abc, d)) == f.Add(f.Add(b, abc), d);
    assert f.Add(b, f.Add(ab, c)) == f.Add(f.Add(b, ab), c);
    assert f.Add(b, f.Add(a, b)) == f.Add(f.Add(b, a), b) == f.Add(f.Add(a, b), b) == f.Add(a, f.Add(b, b));
    assert f.Add(c, f.Add(abc, d)) == f.Add(f.Add(c, abc), d);
    assert f.Add(c, f.Add(ab, c)) == f.Add(f.Add(ab, c), c) == f.Add(ab, f.Add(c, c));
    assert f.Add(d, f.Add(abc, d)) == f.Add(f.Add(abc, d), d) == f.Add(abc, f.Add(d, d));
  }

  ghost predicate MatrixMixes<F(!new)>(f: Field<F>) {
    forall b, i: nat :: i < 4 ==> Column(Mix(f, b), i) == RowTimes(f, i, [b.s0, b.s1, b.s2, b.s3])
  }

  lemma AllMatrixMixes<F(!new)>(f: Field<F>)
    requires Commutes(f)
    ensures MatrixMixes(f)
  {
    forall b, i: nat | i < 4 ensures Column(Mix(f, b), i) == RowTimes(f, i, [b.s0, b.s1, b.s2, b.s3]) {
      MixIsMatrix(f, b, i);
    }
  }

  /** Round `r` adds its four constants, cubes column 0, and in the first four and the last four of the
      sixty-four rounds the others too, and multiplies by the matrix with two on the diagonal and one
      elsewhere. */
  ghost predicate RoundByColumns<F(!new)>(k: Suite<F>, s: State<F>, r: nat) {
    forall i: nat :: i < 4 ==>
      Column(k.Round(s, r), i)
      == RowTimes(k.field, i, [Boxed(k, s, r, 0), Boxed(k, s, r, 1), Boxed(k, s, r, 2), Boxed(k, s, r, 3)])
  }

  lemma RoundFromMatrix<F(!new)>(k: Suite<F>, s: State<F>, r: nat)
    requires k.field.Lawful() && MatrixMixes(k.field)
    ensures RoundByColumns(k, s, r)
  {
    var f, a, full := k.field, AddKeys(k.field, s, k.Keys(r)), IsFullRound(r);
    FullRounds(r);
    SBoxCases(f, full, a.s1);
    SBoxCases(f, full, a.s2);
    SBoxCases(f, full, a.s3);
    var b := SBoxes(f, f.Bit(full), a);
    assert b == State(Boxed(k, s, r, 0), Boxed(k, s, r, 1), Boxed(k, s, r, 2), Boxed(k, s, r, 3));
    assert k.Round(s, r) == Mix(f, b);
  }

  lemma EveryRoundByColumns<F(!new)>(k: Suite<F>, s: State<F>, r: nat)
    requires k.field.Lawful() && Commutes(k.field)
    ensures RoundByColumns(k, s, r)
  {
    AllMatrixMixes(k.field);
    RoundFromMatrix(k, s, r);
  }

  // ----- nothing is lost before the last squeeze -----

  ghost predicate PermDiffers<F(!new)>(k: Suite<F>) {
    forall s, t :: Perm(k, s) == Perm(k, t) ==> s == t
  }

  lemma RoundsMakePermDiffer<F(!new)>(k: Suite<F>)
    requires RoundsInvertible(k)
    ensures PermDiffers(k)
  {
    forall s, t | Perm(k, s) == Perm(k, t) ensures s == t {
      RoundsInjective(k, s, t, ROUNDS);
    }
  }

  /** The field laws make the permutation tell any two states apart. */
  lemma LawsMakePermDiffer<F(!new)>(k: Suite<F>)
    requires k.field.Lawful() && Commutes(k.field) && CubesDiffer(k.field) && FivefoldsDiffer(k.field)
    ensures PermDiffers(k)
  {
    EveryRoundInjective(k);
    RoundsMakePermDiffer(k);
  }

  /** Over the f128 field only the injectivity of cubing is left to assume. */
  lemma Mod128PermDiffers(k: Suite<F128>)
    requires k.field == Mod128() && NoZeroDivisors() && CubesDiffer(k.field)
    ensures PermDiffers(k)
  {
    forall s, t | Perm(k, s) == Perm(k, t) ensures s == t {
      Mod128PermInjective(k, s, t);
    }
  }

  /** The state that a nullifier is squeezed from determines the whole blinding. */
  lemma NullifierKeepsBlinding<F(!new)>(k: Suite<F>, a: Limbs<F>, b: Limbs<F>)
    requires k.field.Lawful() && PermDiffers(k)
    requires Perm(k, NullifierStart(k, a)) == Perm(k, NullifierStart(k, b))
    ensures a == b
  {
  }

  /** The state after a note's first permutation determines its value and its whole blinding, and with it
      the last state determines the key digest. */
  lemma NoteKeepsInputs<F(!new)>(k: Suite<F>, v: F, b: Limbs<F>, pkd: Limbs<F>, w: F, c: Limbs<F>, key: Limbs<F>)
    requires k.field.Lawful() && PermDiffers(k)
    requires Perm(k, NoteStart(k, v, b)) == Perm(k, NoteStart(k, w, c))
    ensures v == w && b == c
    ensures
      var mid := Perm(k, NoteStart(k, v, b));
      Perm(k, Absorb(k.field, mid, pkd)) == Perm(k, Absorb(k.field, mid, key)) ==> pkd == key
  {
    var mid := Perm(k, NoteStart(k, v, b));
    if Perm(k, Absorb(k.field, mid, pkd)) == Perm(k, Absorb(k.field, mid, key)) {
      AbsorbCancels(k.field, mid, pkd, key);
    }
  }

  /** The state after a node's first permutation determines the left child and the low limb of the right
      one, and with it the last state determines the high limb. */
  lemma NodeKeepsChildren<F(!new)>(k: Suite<F>, l: Limbs<F>, r: Limbs<F>, x: Limbs<F>, y: Limbs<F>)
    requires k.field.Lawful() && PermDiffers(k)
    requires Perm(k, NodeStart(k, l, r)) == Perm(k, NodeStart(k, x, y))
    ensures l == x && r.lo == y.lo
    ensures
      var mid := Perm(k, NodeStart(k, l, r));
      Perm(k, NodeAbsorb(k.field, mid, r.hi)) == Perm(k, NodeAbsorb(k.field, mid, y.hi)) ==> r == y
  {
    var mid := Perm(k, NodeStart(k, l, r));
    if Perm(k, NodeAbsorb(k.field, mid, r.hi)) == Perm(k, NodeAbsorb(k.field, mid, y.hi)) {
      LeftCancels(k.field, mid.s1, r.hi, y.hi);
    }
  }
}
