/** DepositV2Air: a public leaf is the note hash of the public amount. */
module DepositAir {
  import opened Fields
  import opened Encoding
  import opened Bits
  import opened Poseidon
  import opened Blocks
  import SpendAir

  const TRACE_LEN: nat := 256
  const TRACE_WIDTH: nat := 6
  const BLOCK: nat := 128
  const ROW_LEAF: nat := 193
  const CONSTRAINTS: nat := 6

  /** Columns 0-3 are `st`, 4-5 `pkd`. */
  datatype Row<F> = Row(st: State<F>, pkd: Limbs<F>)

  type Trace<F> = seq<Row<F>>

  datatype DepositInputs = DepositInputs(amount: U64, leaf: Digest)

  // ----- the circuit -----

  predicate RoundStep(s: nat) {
    s < TRACE_LEN && 1 <= s % BLOCK <= 64
  }

  predicate FreezeStep(s: nat) {
    s == 0 || (s < TRACE_LEN && s % BLOCK >= 65)
  }

  datatype Periodic<F> = Periodic(keys: State<F>, isFull: F, rnd: F, frz: F, absorb: F)

  function PeriodicAt<F(!new)>(k: Suite<F>, s: nat): Periodic<F> {
    Periodic(SpendAir.KeysAt(k, s), SpendAir.FullAt(k, s),
             k.field.Bit(RoundStep(s)), k.field.Bit(FreezeStep(s)), k.field.Bit(s == 128))
  }

  function StateConstraint<F(!new)>(f: Field<F>, p: Periodic<F>, n: F, c: F, permuted: F, absorbed: F): F {
    f.Add(f.Add(
      f.Mul(p.rnd, f.Sub(n, permuted)),
      f.Mul(p.frz, f.Sub(n, c))),
      f.Mul(p.absorb, f.Sub(f.Sub(n, c), absorbed)))
  }

  function Constraint<F(!new)>(k: Suite<F>, p: Periodic<F>, c: Row<F>, n: Row<F>, j: nat): F
    requires j < CONSTRAINTS
  {
    var f := k.field;
    var e := RoundMap(f, c.st, p.keys, p.isFull);
    match j
    case 0 => StateConstraint(f, p, n.st.s0, c.st.s0, e.s0, f.zero)
    case 1 => StateConstraint(f, p, n.st.s1, c.st.s1, e.s1, c.pkd.lo)
    case 2 => StateConstraint(f, p, n.st.s2, c.st.s2, e.s2, c.pkd.hi)
    case 3 => StateConstraint(f, p, n.st.s3, c.st.s3, e.s3, f.zero)
    case 4 => f.Sub(n.pkd.lo, c.pkd.lo)
    case 5 => f.Sub(n.pkd.hi, c.pkd.hi)
  }

  ghost predicate Zero<F(!new)>(k: Suite<F>, s: nat, c: Row<F>, n: Row<F>, j: nat)
    requires j < CONSTRAINTS
  {
    Constraint(k, PeriodicAt(k, s), c, n, j) == k.field.zero
  }

  ghost predicate Vanishes<F(!new)>(k: Suite<F>, s: nat, c: Row<F>, n: Row<F>) {
    forall j :: 0 <= j < CONSTRAINTS ==> Zero(k, s, c, n, j)
  }

  ghost predicate VanishesAt<F(!new)>(k: Suite<F>, t: Trace<F>, s: nat)
    requires s + 1 < |t|
  {
    Vanishes(k, s, t[s], t[s + 1])
  }

  ghost predicate Asserted<F(!new)>(k: Suite<F>, pi: DepositInputs, t: Trace<F>)
    requires |t| == TRACE_LEN
  {
    && t[0].st.s0 == k.noteIv
    && t[0].st.s1 == k.field.OfInt(pi.amount)
    && Squeeze(t[ROW_LEAF].st) == k.LimbsOf(pi.leaf)
  }

  ghost predicate Satisfies<F(!new)>(k: Suite<F>, pi: DepositInputs, t: Trace<F>) {
    && |t| == TRACE_LEN
    && (forall s :: 0 <= s < TRACE_LEN - 1 ==> VanishesAt(k, t, s))
    && Asserted(k, pi, t)
  }

  // ----- what the polynomials mean -----

  predicate StepOk<F(!new, ==)>(k: Suite<F>, s: nat, c: Row<F>, n: Row<F>) {
    && n.pkd == c.pkd
    && (RoundStep(s) ==> n.st == k.Round(c.st, s % BLOCK - 1))
    && (FreezeStep(s) ==> n.st == c.st)
    && (s == 128 ==> n.st == Absorb(k.field, c.st, c.pkd))
  }

  lemma StateMeaning<F(!new)>(k: Suite<F>, s: nat, c: Row<F>, n: Row<F>)
    requires k.field.Lawful()
    requires RoundStep(s) || FreezeStep(s) || s == 128
    ensures (Zero(k, s, c, n, 0) && Zero(k, s, c, n, 1) && Zero(k, s, c, n, 2) && Zero(k, s, c, n, 3))
       <==> n.st == if RoundStep(s) then k.Round(c.st, s % BLOCK - 1)
                    else if FreezeStep(s) then c.st else Absorb(k.field, c.st, c.pkd)
  {
    if RoundStep(s) {
      assert SpendAir.KeysAt(k, s) == k.Keys(s % BLOCK - 1);
    }
  }

  /** The six polynomials vanish at a step exactly when it rounds, holds or absorbs as scheduled. */
  lemma StepMeaning<F(!new)>(k: Suite<F>, t: Trace<F>, s: nat)
    requires k.field.Lawful()
    requires s + 1 < |t| == TRACE_LEN
    ensures VanishesAt(k, t, s) <==> StepOk(k, s, t[s], t[s + 1])
  {
    var c, n := t[s], t[s + 1];
    StateMeaning(k, s, c, n);
    assert Zero(k, s, c, n, 4) && Zero(k, s, c, n, 5) <==> n.pkd == c.pkd;
    if StepOk(k, s, c, n) {
      forall j | 0 <= j < CONSTRAINTS ensures Zero(k, s, c, n, j) {
      }
    }
  }

  // ----- soundness -----

  ghost predicate StepAt<F(!new)>(k: Suite<F>, t: Trace<F>, s: nat)
    requires s + 1 < |t|
  {
    StepOk(k, s, t[s], t[s + 1])
  }

  ghost predicate Runs<F(!new)>(k: Suite<F>, t: Trace<F>) {
    |t| == TRACE_LEN && forall s :: 0 <= s < TRACE_LEN - 1 ==> StepAt(k, t, s)
  }

  lemma SatisfiedRuns<F(!new)>(k: Suite<F>, pi: DepositInputs, t: Trace<F>)
    requires k.field.Lawful()
    ensures Satisfies(k, pi, t) <==> (Runs(k, t) && Asserted(k, pi, t))
  {
    if |t| == TRACE_LEN {
      forall s | 0 <= s < TRACE_LEN - 1 ensures VanishesAt(k, t, s) <==> StepAt(k, t, s) {
        StepMeaning(k, t, s);
      }
    }
  }

  lemma BlockStep<F(!new)>(k: Suite<F>, t: Trace<F>, b: nat, i: nat)
    requires Runs(k, t)
    requires b < 2 && b * BLOCK < i < b * BLOCK + 128 && i < TRACE_LEN - 1
    ensures t[i + 1].st == if i <= b * BLOCK + 64 then k.Round(t[i].st, i - b * BLOCK - 1) else t[i].st
  {
    assert StepAt(k, t, i) && i % BLOCK == i - b * BLOCK;
  }

  lemma BlockRuns<F(!new)>(k: Suite<F>, t: Trace<F>, b: nat, end: nat)
    requires Runs(k, t)
    requires b < 2 && b * BLOCK + 65 <= end <= b * BLOCK + 128 && end < TRACE_LEN
    ensures t[end].st == t[b * BLOCK + 65].st == Perm(k, t[b * BLOCK + 1].st)
  {
    var base, sts := b * BLOCK, States(t, (r: Row<F>) => r.st);
    forall i | base < i <= base + 64 ensures StepsAt(k.Round, sts, base, i) {
      BlockStep(k, t, b, i);
    }
    forall i | base + 65 <= i < end ensures SameAt(sts, i) {
      BlockStep(k, t, b, i);
    }
    BlockPermutes(k, sts, base, end);
  }

  lemma {:induction false} PkdConstant<F(!new)>(k: Suite<F>, t: Trace<F>, i: nat)
    requires Runs(k, t)
    requires i < TRACE_LEN
    ensures t[i].pkd == t[0].pkd
  {
    if i > 0 {
      PkdConstant(k, t, i - 1);
      assert StepAt(k, t, i - 1);
    }
  }

  /** The leaf row holds the two-permutation sponge of the first row and the carried key digest. */
  lemma LeafRow<F(!new)>(k: Suite<F>, t: Trace<F>)
    requires Runs(k, t)
    ensures t[ROW_LEAF].st == Perm(k, Absorb(k.field, Perm(k, t[0].st), t[0].pkd))
  {
    assert StepAt(k, t, 0) && StepAt(k, t, 128);
    BlockRuns(k, t, 0, 128);
    BlockRuns(k, t, 1, ROW_LEAF);
    PkdConstant(k, t, 128);
  }

  /** Soundness: a satisfying trace carries a blinding and a key digest that open the leaf. */
  lemma DepositSound<F(!new)>(k: Suite<F>, pi: DepositInputs, t: Trace<F>)
    requires k.field.Lawful()
    requires Satisfies(k, pi, t)
    ensures NoteDigest(k, k.field.OfInt(pi.amount), Limbs(t[0].st.s2, t[0].st.s3), t[0].pkd) == k.LimbsOf(pi.leaf)
  {
    SatisfiedRuns(k, pi, t);
    LeafRow(k, t);
  }

  // ----- the trace builder -----

  predicate Shaped<F>(cols: array2<F>) {
    cols.Length0 == TRACE_WIDTH && cols.Length1 == TRACE_LEN
  }

  function RowCells<F>(cols: array2<F>, r: nat): Row<F>
    requires Shaped(cols) && r < TRACE_LEN
    reads cols
  {
    Row(StateCell(cols, r), Limbs(cols[4, r], cols[5, r]))
  }

  // Row `r` of the honest trace, given the states that the two blocks start from.
  function RowAt<F>(
    round: (State<F>, nat) -> State<F>, first: State<F>, second: State<F>, pkd: Limbs<F>, r: nat): Row<F>
  {
    Row(if r == 0 then first
        else if r <= 128 then BlockState(round, first, r - 1)
        else BlockState(round, second, r - 129),
        pkd)
  }

  ghost predicate IsHonest<F(!new)>(
    k: Suite<F>, round: (State<F>, nat) -> State<F>, v: U64, b: Limbs<F>, pkd: Limbs<F>, t: Trace<F>)
  {
    var first := NoteStart(k, k.field.OfInt(v), b);
    var second := Absorb(k.field, Iterate(round, first, ROUNDS), pkd);
    |t| == TRACE_LEN && forall r :: 0 <= r < TRACE_LEN ==> t[r] == RowAt(round, first, second, pkd, r)
  }

  lemma RowsFollow<F(!new)>(
    round: (State<F>, nat) -> State<F>, first: State<F>, second: State<F>, pkd: Limbs<F>, s: nat)
    requires s < TRACE_LEN - 1
    ensures
      var c, n := RowAt(round, first, second, pkd, s), RowAt(round, first, second, pkd, s + 1);
      && n.pkd == c.pkd
      && (RoundStep(s) ==> n.st == round(c.st, s % BLOCK - 1))
      && (FreezeStep(s) ==> n.st == c.st)
      && (s == 128 ==> c.st == Iterate(round, first, ROUNDS) && n.st == second)
  {
    assert s % BLOCK == if s < 128 then s else s - 128;
  }

  lemma HonestStep<F(!new)>(k: Suite<F>, first: State<F>, pkd: Limbs<F>, s: nat)
    requires s < TRACE_LEN - 1
    ensures
      var second := Absorb(k.field, Iterate(k.Round, first, ROUNDS), pkd);
      StepOk(k, s, RowAt(k.Round, first, second, pkd, s), RowAt(k.Round, first, second, pkd, s + 1))
  {
    RowsFollow(k.Round, first, Absorb(k.field, Iterate(k.Round, first, ROUNDS), pkd), pkd, s);
  }

  /** Completeness: the honest trace satisfies the circuit exactly when the leaf is the note hash of
      the witness, up to unpacking. */
  lemma HonestSatisfies<F(!new)>(k: Suite<F>, pi: DepositInputs, b: Limbs<F>, pkd: Limbs<F>, t: Trace<F>)
    requires k.field.Lawful()
    requires IsHonest(k, k.Round, pi.amount, b, pkd, t)
    ensures Satisfies(k, pi, t) <==> NoteDigest(k, k.field.OfInt(pi.amount), b, pkd) == k.LimbsOf(pi.leaf)
  {
    forall s | 0 <= s < TRACE_LEN - 1 ensures StepAt(k, t, s) {
      HonestStep(k, NoteStart(k, k.field.OfInt(pi.amount), b), pkd, s);
    }
    SatisfiedRuns(k, pi, t);
    LeafRow(k, t);
  }

  method FillDeposit<F(!new)>(
    k: Suite<F>, round: (State<F>, nat) -> State<F>, v: U64, b: Limbs<F>, pkd: Limbs<F>, cols: array2<F>)
    requires Shaped(cols)
    modifies cols
    ensures
      var first := NoteStart(k, k.field.OfInt(v), b);
      var second := Absorb(k.field, Iterate(round, first, ROUNDS), pkd);
      forall r :: 0 <= r < TRACE_LEN ==> RowCells(cols, r) == RowAt(round, first, second, pkd, r)
  {
    for r := 0 to TRACE_LEN
      invariant forall i :: 0 <= i < r ==> cols[4, i] == pkd.lo && cols[5, i] == pkd.hi
    {
      cols[4, r], cols[5, r] := pkd.lo, pkd.hi;
    }
    var first := NoteStart(k, k.field.OfInt(v), b);
    SetState(cols, 0, first);
    FillBlock(round, cols, 1, first, 128);
    FillBlock(round, cols, 129, Absorb(k.field, StateCell(cols, 128), pkd), TRACE_LEN - 1);
  }

  /** `build_deposit_trace`. */
  method BuildDepositTrace<F(!new)>(k: Suite<F>, v: U64, b: Digest, pkd: Digest) returns (cols: array2<F>)
    ensures fresh(cols) && Shaped(cols)
    ensures IsHonest(k, k.Round, v, k.LimbsOf(b), k.LimbsOf(pkd),
                     seq(TRACE_LEN, r requires 0 <= r < TRACE_LEN reads cols => RowCells(cols, r)))
  {
    cols := new F[TRACE_WIDTH, TRACE_LEN]((_, _) => k.field.zero);
    FillDeposit(k, k.Round, v, k.LimbsOf(b), k.LimbsOf(pkd), cols);
  }

  /** A satisfying trace is the honest trace of the witness it carries, in every cell. */
  lemma {:induction false} RowsForced<F(!new)>(k: Suite<F>, t: Trace<F>, h: Trace<F>, r: nat)
    requires Runs(k, t) && Runs(k, h) && t[0] == h[0]
    requires r < TRACE_LEN
    ensures t[r] == h[r]
  {
    if r > 0 {
      RowsForced(k, t, h, r - 1);
      assert StepAt(k, t, r - 1) && StepAt(k, h, r - 1);
      assert RoundStep(r - 1) || FreezeStep(r - 1) || r - 1 == 128;
    }
  }

  lemma SatisfyingIsHonest<F(!new)>(k: Suite<F>, pi: DepositInputs, t: Trace<F>)
    requires k.field.Lawful() && Satisfies(k, pi, t)
    ensures t == HonestTrace(k, k.Round, pi.amount, Limbs(t[0].st.s2, t[0].st.s3), t[0].pkd)
  {
    var b, pkd := Limbs(t[0].st.s2, t[0].st.s3), t[0].pkd;
    var h := HonestTrace(k, k.Round, pi.amount, b, pkd);
    DepositSound(k, pi, t);
    HonestSatisfies(k, pi, b, pkd, h);
    SatisfiedRuns(k, pi, t);
    SatisfiedRuns(k, pi, h);
    forall r | 0 <= r < TRACE_LEN ensures t[r] == h[r] {
      RowsForced(k, t, h, r);
    }
  }

  ghost predicate TraceOpens<F(!new)>(k: Suite<F>, pi: DepositInputs, t: Trace<F>, b: Limbs<F>, pkd: Limbs<F>) {
    && |t| == 256 && t == HonestTrace(k, k.Round, pi.amount, b, pkd)
    && NoteDigest(k, k.field.OfInt(pi.amount), b, pkd) == k.LimbsOf(pi.leaf)
  }

  /** Exactly these traces satisfy the circuit: the honest ones of the openings of the leaf. */
  lemma DepositTraces<F(!new)>(k: Suite<F>, pi: DepositInputs, t: Trace<F>)
    requires k.field.Lawful()
    ensures Satisfies(k, pi, t) <==> exists b, pkd :: TraceOpens(k, pi, t, b, pkd)
  {
    if Satisfies(k, pi, t) {
      SatisfyingIsHonest(k, pi, t);
      DepositSound(k, pi, t);
      assert TraceOpens(k, pi, t, Limbs(t[0].st.s2, t[0].st.s3), t[0].pkd);
    }
    if b, pkd :| TraceOpens(k, pi, t, b, pkd) {
      HonestSatisfies(k, pi, b, pkd, t);
    }
  }

  // ----- both directions -----

  function HonestTrace<F(!new)>(
    k: Suite<F>, round: (State<F>, nat) -> State<F>, v: U64, b: Limbs<F>, pkd: Limbs<F>): (t: Trace<F>)
    ensures IsHonest(k, round, v, b, pkd, t)
  {
    var first := NoteStart(k, k.field.OfInt(v), b);
    var second := Absorb(k.field, Iterate(round, first, ROUNDS), pkd);
    seq(TRACE_LEN, r requires 0 <= r < TRACE_LEN => RowAt(round, first, second, pkd, r))
  }

  ghost predicate Satisfiable<F(!new)>(k: Suite<F>, pi: DepositInputs) {
    exists t :: Satisfies(k, pi, t)
  }

  ghost predicate Openable<F(!new)>(k: Suite<F>, pi: DepositInputs) {
    exists b: Digest, pkd: Digest :: k.LimbsOf(NoteHash(k, pi.amount, b, pkd)) == k.LimbsOf(pi.leaf)
  }

  /** The deposit circuit can be satisfied exactly when some blinding and key digest hash with the
      amount to the leaf, up to unpacking. */
  lemma DepositIff<F(!new)>(k: Suite<F>, pi: DepositInputs)
    requires k.field.Lawful()
    ensures Satisfiable(k, pi) <==> Openable(k, pi)
  {
    if Satisfiable(k, pi) {
      var t: Trace<F> :| Satisfies(k, pi, t);
      var b, pkd := Pack(k.field, Limbs(t[0].st.s2, t[0].st.s3)), Pack(k.field, t[0].pkd);
      DepositSound(k, pi, t);
      UnpackPack(k.field, Limbs(t[0].st.s2, t[0].st.s3));
      UnpackPack(k.field, t[0].pkd);
      NoteHashUnpacks(k, pi.amount, b, pkd);
    }
    if Openable(k, pi) {
      var b: Digest, pkd: Digest :| k.LimbsOf(NoteHash(k, pi.amount, b, pkd)) == k.LimbsOf(pi.leaf);
      NoteHashUnpacks(k, pi.amount, b, pkd);
      HonestSatisfies(k, pi, k.LimbsOf(b), k.LimbsOf(pkd),
                      HonestTrace(k, k.Round, pi.amount, k.LimbsOf(b), k.LimbsOf(pkd)));
    }
  }
}
