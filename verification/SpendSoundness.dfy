/** Every satisfying trace of SpendAir is the trace of an honest spend. */
module SpendSoundness {
  import opened Bits
  import opened Fields
  import opened Encoding
  import opened Poseidon
  import opened Merkle
  import opened NoteTree
  import opened Blocks
  import opened SpendAir

  /** What a spend keeps private, as the circuit sees it. */
  datatype Opening<F> = Opening(v: U64, b: Limbs<F>, index: nat, siblings: seq<Limbs<F>>, cv: U64, cb: Limbs<F>)

  /** The relation the spend is meant to prove: in purchase mode the note value is change plus price, in
      withdraw mode it is the amount and there is no change. */
  ghost predicate ValuesBalance(pi: SpendInputs, v: U64, cv: U64) {
    if pi.mode == 1 then v == cv + pi.price else v == pi.price && cv == 0
  }

  ghost predicate Opens<F(!new)>(k: Suite<F>, pi: SpendInputs, w: Opening<F>) {
    var f, st := k.field, ToElements(k.field, pi);
    && |w.siblings| == MERKLE_DEPTH && w.index < Pow2(MERKLE_DEPTH)
    && NullifierDigest(k, w.b) == st.nullifier
    && Fold(LimbHasher(k), NoteDigest(k, f.OfInt(w.v), w.b, st.pkd), w.index, w.siblings, MERKLE_DEPTH) == st.root
    && NoteDigest(k, f.OfInt(w.cv), w.cb, st.changePkd) == st.changeLeaf
    && ValuesBalance(pi, w.v, w.cv)
  }

  // ----- reading a witness out of a trace -----

  function LinkRow(d: nat): nat {
    STEP_MRK_BASE + 256 * d
  }

  predicate IsOne<F(!new, ==)>(k: Suite<F>, x: F) {
    x == k.field.one
  }

  function RowBits<F(!new, ==)>(k: Suite<F>, t: Trace<F>, from: nat, n: nat): (bs: seq<bool>)
    requires from + n <= |t|
    ensures |bs| == n
    ensures forall i :: 0 <= i < n ==> bs[i] == IsOne(k, t[from + i].bit)
  {
    seq(n, i requires 0 <= i < n => IsOne(k, t[from + i].bit))
  }

  function PathBits<F(!new, ==)>(k: Suite<F>, t: Trace<F>): (bs: seq<bool>)
    requires |t| == TRACE_LEN
    ensures |bs| == LEVELS
    ensures forall d :: 0 <= d < LEVELS ==> bs[d] == IsOne(k, t[LinkRow(d) + 1].bit)
  {
    seq(LEVELS, d requires 0 <= d < LEVELS => IsOne(k, t[LinkRow(d) + 1].bit))
  }

  function PathLimbs<F(!new)>(t: Trace<F>): (ls: seq<Limbs<F>>)
    requires |t| == TRACE_LEN
    ensures |ls| == LEVELS
    ensures forall d :: 0 <= d < LEVELS ==> ls[d] == t[LinkRow(d) + 1].aux
  {
    seq(LEVELS, d requires 0 <= d < LEVELS => t[LinkRow(d) + 1].aux)
  }

  function Extract<F(!new, ==)>(k: Suite<F>, t: Trace<F>): Opening<F>
    requires |t| == TRACE_LEN
  {
    Pow2Of64();
    Opening(FromBits(RowBits(k, t, 0, 64)), t[0].b, FromBits(PathBits(k, t)), PathLimbs(t),
            FromBits(RowBits(k, t, 64, 64)), t[STEP_LCHG + 1].aux)
  }

  // ----- the trace runs its schedule -----

  ghost predicate Runs<F(!new)>(k: Suite<F>, pi: Statement<F>, t: Trace<F>) {
    && |t| == TRACE_LEN
    && forall s :: 0 <= s < TRACE_LEN - 1 ==> StepAt(k, pi, t, s)
  }

  ghost predicate StepAt<F(!new)>(k: Suite<F>, pi: Statement<F>, t: Trace<F>, s: nat)
    requires s + 1 < |t|
  {
    StepOk(k, pi, s, t[s], t[s + 1])
  }

  lemma SatisfiedRuns<F(!new)>(k: Suite<F>, pi: Statement<F>, t: Trace<F>)
    requires k.field.Lawful()
    ensures Satisfies(k, pi, t) <==> Runs(k, pi, t) && Asserted(k, pi, t)
  {
    if |t| == TRACE_LEN {
      forall s | 0 <= s < TRACE_LEN - 1
        ensures VanishesAt(k, pi, t, s) <==> StepAt(k, pi, t, s)
      {
        StepMeaning(k, pi, s, t[s], t[s + 1]);
      }
    }
  }

  lemma BlockOps(b: nat, i: nat)
    requires b < ACTIVE_BLOCKS
    ensures b * BLOCK < i <= b * BLOCK + 64 ==> OpAt(i) == Permute && i % BLOCK == i - b * BLOCK
    ensures b * BLOCK + 65 <= i < b * BLOCK + 128 ==> OpAt(i) == Freeze
  {
    if b * BLOCK < i < b * BLOCK + 128 {
      assert i == b * BLOCK + (i - b * BLOCK) && i % BLOCK == i - b * BLOCK;
    }
  }

  lemma RowPermutes<F(!new)>(k: Suite<F>, pi: Statement<F>, t: Trace<F>, b: nat, i: nat)
    requires Runs(k, pi, t)
    requires b < ACTIVE_BLOCKS && b * BLOCK < i <= b * BLOCK + 64
    ensures t[i + 1].st == k.Round(t[i].st, i - b * BLOCK - 1)
  {
    BlockOps(b, i);
    assert StepAt(k, pi, t, i);
  }

  lemma RowFreezes<F(!new)>(k: Suite<F>, pi: Statement<F>, t: Trace<F>, b: nat, i: nat)
    requires Runs(k, pi, t)
    requires b < ACTIVE_BLOCKS && b * BLOCK + 65 <= i < b * BLOCK + 128
    ensures t[i + 1].st == t[i].st
  {
    BlockOps(b, i);
    assert StepAt(k, pi, t, i);
  }

  lemma BlockRuns<F(!new)>(k: Suite<F>, pi: Statement<F>, t: Trace<F>, b: nat)
    requires Runs(k, pi, t)
    requires b < ACTIVE_BLOCKS
    ensures t[b * BLOCK + 65].st == t[b * BLOCK + 128].st == Perm(k, t[b * BLOCK + 1].st)
  {
    var base, sts := b * BLOCK, States(t, (r: Row<F>) => r.st);
    forall i | base < i <= base + 64 ensures StepsAt(k.Round, sts, base, i) {
      RowPermutes(k, pi, t, b, i);
    }
    forall i | base + 65 <= i < base + 128 ensures SameAt(sts, i) {
      RowFreezes(k, pi, t, b, i);
    }
    BlockPermutes(k, sts, base, base + 128);
  }

  lemma {:induction false} CarriesConstant<F(!new)>(k: Suite<F>, pi: Statement<F>, t: Trace<F>, i: nat)
    requires Runs(k, pi, t)
    requires i < TRACE_LEN
    ensures t[i].b == t[0].b && t[i].v == t[0].v && t[i].cv == t[0].cv
  {
    if i > 0 {
      CarriesConstant(k, pi, t, i - 1);
      assert StepAt(k, pi, t, i - 1);
    }
  }

  // ----- the range accumulators -----

  lemma BitAccumulates<F(!new)>(f: Field<F>, row: Row<F>, seen: nat, p: nat)
    requires f.Lawful()
    requires row.bit == f.zero || row.bit == f.one
    requires row.acc == f.OfInt(seen) && row.pow == f.OfInt(p)
    ensures Accumulated(f, row) == f.OfInt(seen + if row.bit == f.one then p else 0)
  {
    assert f.AddsAt(seen, p);
  }

  lemma RangeRow<F(!new)>(k: Suite<F>, pi: Statement<F>, t: Trace<F>, s: nat)
    requires Runs(k, pi, t)
    requires s < 128
    ensures t[s].bit == k.field.zero || t[s].bit == k.field.one
    ensures RangeOk(k.field, s, t[s], t[s + 1])
  {
    assert StepAt(k, pi, t, s);
  }

  // Before row `from + n` the accumulator has seen `n` bits.
  ghost predicate Counted<F(!new)>(k: Suite<F>, t: Trace<F>, from: nat, n: nat)
    requires from + n < |t|
  {
    && t[from + n].acc == k.field.OfInt(FromBits(RowBits(k, t, from, n)))
    && t[from + n].pow == k.field.OfInt(Pow2(n))
  }

  lemma RowAccumulates<F(!new)>(k: Suite<F>, pi: Statement<F>, t: Trace<F>, from: nat, n: nat)
    requires k.field.Lawful() && Runs(k, pi, t)
    requires from + n < 128 && Counted(k, t, from, n)
    ensures Accumulated(k.field, t[from + n]) == k.field.OfInt(FromBits(RowBits(k, t, from, n + 1)))
  {
    var row, bs := t[from + n], RowBits(k, t, from, n);
    RangeRow(k, pi, t, from + n);
    BitAccumulates(k.field, row, FromBits(bs), Pow2(n));
    FromBitsAppend(bs, IsOne(k, row.bit));
    assert RowBits(k, t, from, n + 1) == bs + [IsOne(k, row.bit)];
  }

  /** From a start with accumulator 0 and power 1, the accumulator counts the bits. */
  lemma {:induction false} AccumulatorCounts<F(!new)>(k: Suite<F>, pi: Statement<F>, t: Trace<F>, from: nat, n: nat)
    requires k.field.Lawful() && Runs(k, pi, t)
    requires from == 0 || from == 64
    requires n <= 63
    requires t[from].acc == k.field.zero && t[from].pow == k.field.one
    ensures Counted(k, t, from, n)
  {
    if n > 0 {
      AccumulatorCounts(k, pi, t, from, n - 1);
      RowAccumulates(k, pi, t, from, n - 1);
      RangeRow(k, pi, t, from + n - 1);
      assert k.field.AddsAt(Pow2(n - 1), Pow2(n - 1));
    }
  }

  /** The two 64-row accumulations bind the value columns to 64-bit integers. */
  lemma ValueIsSmall<F(!new)>(k: Suite<F>, pi: Statement<F>, t: Trace<F>)
    requires k.field.Lawful() && Runs(k, pi, t)
    requires t[0].acc == k.field.zero && t[0].pow == k.field.one
    ensures t[0].v == k.field.OfInt(Extract(k, t).v)
  {
    RangeRow(k, pi, t, 63);
    AccumulatorCounts(k, pi, t, 0, 63);
    RowAccumulates(k, pi, t, 0, 63);
    CarriesConstant(k, pi, t, 63);
  }

  lemma ChangeIsSmall<F(!new)>(k: Suite<F>, pi: Statement<F>, t: Trace<F>)
    requires k.field.Lawful() && Runs(k, pi, t)
    ensures t[0].cv == k.field.OfInt(Extract(k, t).cv)
  {
    RangeRow(k, pi, t, 63);
    RangeRow(k, pi, t, 127);
    AccumulatorCounts(k, pi, t, 64, 63);
    RowAccumulates(k, pi, t, 64, 63);
    CarriesConstant(k, pi, t, 127);
  }

  /** The conservation equation over the field is the equation over the integers: nothing wraps. */
  lemma NothingWraps<F(!new)>(f: Field<F>, pi: SpendInputs, v: U64, cv: U64)
    requires f.Lawful() && pi.mode in {0, 1}
    ensures ValuesBalance(pi, v, cv)
       <==> (f.OfInt(v) == f.Add(f.Mul(f.OfInt(pi.mode), f.OfInt(cv)), f.OfInt(pi.price))
             && f.Mul(f.Sub(f.one, f.OfInt(pi.mode)), f.OfInt(cv)) == f.zero)
  {
    if pi.mode == 1 {
      assert f.Sub(f.one, f.one) == f.zero;
      assert f.AddsAt(cv, pi.price);
      if f.OfInt(v) == f.OfInt(cv + pi.price) {
        f.OfIntInjective(v, cv + pi.price);
      }
    } else {
      if f.OfInt(v) == f.OfInt(pi.price) {
        f.OfIntInjective(v, pi.price);
      }
      if f.OfInt(cv) == f.zero {
        f.OfIntInjective(cv, 0);
      }
    }
  }

  // ----- the hashes -----

  lemma NullifierRuns<F(!new)>(k: Suite<F>, pi: Statement<F>, t: Trace<F>)
    requires Runs(k, pi, t)
    ensures Squeeze(t[ROW_NF_OUT].st) == NullifierDigest(k, t[0].b)
  {
    assert StepAt(k, pi, t, 0);
    BlockRuns(k, pi, t, 0);
  }

  // The rows a two-permutation sponge goes through: link at `base`, absorb one block later.
  lemma SpongeRuns<F(!new)>(k: Suite<F>, pi: Statement<F>, t: Trace<F>, b: nat)
    requires Runs(k, pi, t)
    requires 1 <= b < ACTIVE_BLOCKS - 1
    ensures t[b * BLOCK + 128].st == Perm(k, t[b * BLOCK + 1].st)
    ensures t[b * BLOCK + 193].st == t[b * BLOCK + 256].st == Perm(k, t[b * BLOCK + 129].st)
  {
    BlockRuns(k, pi, t, b);
    BlockRuns(k, pi, t, b + 1);
  }

  lemma NoteRuns<F(!new)>(k: Suite<F>, pi: Statement<F>, t: Trace<F>)
    requires Runs(k, pi, t)
    ensures Squeeze(t[STEP_MRK_BASE].st) == NoteDigest(k, t[0].v, t[0].b, pi.pkd)
  {
    assert StepAt(k, pi, t, STEP_LNOTE);
    assert StepAt(k, pi, t, STEP_ANOTE);
    SpongeRuns(k, pi, t, 1);
    CarriesConstant(k, pi, t, STEP_LNOTE);
  }

  lemma ChangeRuns<F(!new)>(k: Suite<F>, pi: Statement<F>, t: Trace<F>)
    requires Runs(k, pi, t)
    ensures Squeeze(t[ROW_CLEAF].st) == NoteDigest(k, t[0].cv, t[STEP_LCHG + 1].aux, pi.changePkd)
  {
    assert StepAt(k, pi, t, STEP_LCHG);
    assert StepAt(k, pi, t, STEP_ACHG);
    SpongeRuns(k, pi, t, 43);
    CarriesConstant(k, pi, t, STEP_LCHG);
  }

  lemma MuxSelects<F(!new)>(f: Field<F>, bit: bool, a: Limbs<F>, b: Limbs<F>)
    requires f.Lawful()
    ensures MuxLimbs(f, f.Bit(bit), a, b) == if bit then a else b
  {
    assert f.Sub(f.one, f.one) == f.zero;
  }

  /** The 256 rows of a level hold one sibling, one index bit and one carried limb. */
  lemma {:induction false} LevelCarried<F(!new)>(k: Suite<F>, pi: Statement<F>, t: Trace<F>, d: nat, i: nat)
    requires Runs(k, pi, t)
    requires d < 20 && 1 <= i <= 256
    ensures t[LinkRow(d) + i].aux == t[LinkRow(d) + 1].aux
    ensures t[LinkRow(d) + i].bit == t[LinkRow(d) + 1].bit
    ensures t[LinkRow(d) + i].rHi == t[LinkRow(d) + 1].rHi
  {
    if i > 1 {
      LevelCarried(k, pi, t, d, i - 1);
      assert StepAt(k, pi, t, LinkRow(d) + i - 1);
    }
  }

  /** So do the rows before the first level, but for the bits, and the change rows after the last. */
  lemma {:induction false} EdgesCarried<F(!new)>(k: Suite<F>, pi: Statement<F>, t: Trace<F>, r: nat)
    requires Runs(k, pi, t) && r < TRACE_LEN
    ensures r <= 384 ==> t[r].aux == t[0].aux && t[r].rHi == t[0].rHi
    ensures r > 5504 ==> t[r].aux == t[5505].aux && t[r].rHi == t[5504].rHi
  {
    if 0 < r && r != 5505 {
      EdgesCarried(k, pi, t, r - 1);
    }
    if r > 0 {
      assert StepAt(k, pi, t, r - 1);
    }
  }

  lemma LevelOps(d: nat)
    requires d < LEVELS
    ensures OpAt(LinkRow(d)) == LinkNode && OpAt(LinkRow(d) + 128) == AbsorbNode
  {
    assert LinkRow(d) == (3 + 2 * d) * BLOCK;
  }

  // The rows of level `d` hold one node hash of the current node and the row's own sibling.
  ghost predicate LevelHashes<F(!new)>(h: Hasher<Limbs<F>>, t: Trace<F>, bits: seq<bool>, d: nat)
    requires |t| == TRACE_LEN && |bits| == LEVELS && d < LEVELS
  {
    var cur, aux, out := Squeeze(t[LinkRow(d)].st), t[LinkRow(d) + 1].aux, Squeeze(t[LinkRow(d) + 193].st);
    && out == Squeeze(t[LinkRow(d + 1)].st)
    && out == if bits[d] then h.H(aux, cur) else h.H(cur, aux)
  }

  lemma LevelLinks<F(!new)>(k: Suite<F>, pi: Statement<F>, t: Trace<F>, d: nat)
    requires k.field.Lawful() && Runs(k, pi, t)
    requires d < LEVELS
    ensures
      var cur, next := Squeeze(t[LinkRow(d)].st), t[LinkRow(d) + 1];
      var bit := IsOne(k, next.bit);
      var left, right := if bit then next.aux else cur, if bit then cur else next.aux;
      next.st == NodeStart(k, left, right) && next.rHi == right.hi
  {
    var r := LinkRow(d);
    var cur, next, bit := Squeeze(t[r].st), t[r + 1], IsOne(k, t[r + 1].bit);
    LevelOps(d);
    assert StepAt(k, pi, t, r) && StepAt(k, pi, t, r + 1);
    assert next.bit == k.field.Bit(bit);
    MuxSelects(k.field, bit, next.aux, cur);
    MuxSelects(k.field, bit, cur, next.aux);
  }

  lemma LevelAbsorbs<F(!new)>(k: Suite<F>, pi: Statement<F>, t: Trace<F>, d: nat)
    requires Runs(k, pi, t)
    requires d < LEVELS
    ensures t[LinkRow(d) + 129].st == NodeAbsorb(k.field, t[LinkRow(d) + 128].st, t[LinkRow(d) + 1].rHi)
  {
    var r := LinkRow(d);
    LevelOps(d);
    assert StepAt(k, pi, t, r + 128);
    LevelCarried(k, pi, t, d, 128);
  }

  lemma LevelSponge<F(!new)>(k: Suite<F>, pi: Statement<F>, t: Trace<F>, d: nat)
    requires Runs(k, pi, t)
    requires d < LEVELS
    ensures t[LinkRow(d) + 128].st == Perm(k, t[LinkRow(d) + 1].st)
    ensures t[LinkRow(d) + 193].st == t[LinkRow(d + 1)].st == Perm(k, t[LinkRow(d) + 129].st)
  {
    assert LinkRow(d) == (3 + 2 * d) * BLOCK;
    SpongeRuns(k, pi, t, 3 + 2 * d);
  }

  lemma HashOfPerms<F(!new)>(k: Suite<F>, left: Limbs<F>, right: Limbs<F>, mid: State<F>, out: State<F>)
    requires mid == Perm(k, NodeStart(k, left, right))
    requires out == Perm(k, NodeAbsorb(k.field, mid, right.hi))
    ensures Squeeze(out) == LimbHasher(k).H(left, right)
  {
  }

  lemma LevelPermutes<F(!new)>(
    k: Suite<F>, pi: Statement<F>, t: Trace<F>, d: nat, left: Limbs<F>, right: Limbs<F>)
    requires Runs(k, pi, t)
    requires d < LEVELS
    requires t[LinkRow(d) + 1].st == NodeStart(k, left, right) && t[LinkRow(d) + 1].rHi == right.hi
    ensures Squeeze(t[LinkRow(d) + 193].st) == Squeeze(t[LinkRow(d + 1)].st) == LimbHasher(k).H(left, right)
  {
    LevelAbsorbs(k, pi, t, d);
    LevelSponge(k, pi, t, d);
    HashOfPerms(k, left, right, t[LinkRow(d) + 128].st, t[LinkRow(d) + 193].st);
  }

  /** The link and absorb steps of level `d` compute one node hash, with the children in the order of
      the index bit. */
  lemma LevelRuns<F(!new)>(k: Suite<F>, pi: Statement<F>, t: Trace<F>, d: nat)
    requires k.field.Lawful() && Runs(k, pi, t)
    requires d < LEVELS
    ensures LevelHashes(LimbHasher(k), t, PathBits(k, t), d)
  {
    var cur, aux := Squeeze(t[LinkRow(d)].st), t[LinkRow(d) + 1].aux;
    LevelLinks(k, pi, t, d);
    if PathBits(k, t)[d] {
      LevelPermutes(k, pi, t, d, aux, cur);
    } else {
      LevelPermutes(k, pi, t, d, cur, aux);
    }
  }

  /** Level by level, the state rows hold the fold of the path that the trace itself carries. */
  lemma {:induction false} LevelsFold<F(!new)>(h: Hasher<Limbs<F>>, t: Trace<F>, bits: seq<bool>, d: nat)
    requires |t| == TRACE_LEN && |bits| == LEVELS && d <= LEVELS
    requires forall e :: 0 <= e < LEVELS ==> LevelHashes(h, t, bits, e)
    ensures Squeeze(t[LinkRow(d)].st)
         == Fold(h, Squeeze(t[STEP_MRK_BASE].st), FromBits(bits), PathLimbs(t), d)
  {
    if d > 0 {
      LevelsFold(h, t, bits, d - 1);
      assert LevelHashes(h, t, bits, d - 1);
      FromBitsAt(bits, d - 1);
    }
  }

  lemma PathRuns<F(!new)>(k: Suite<F>, pi: Statement<F>, t: Trace<F>)
    requires k.field.Lawful() && Runs(k, pi, t)
    ensures Squeeze(t[ROW_ROOT].st)
         == Fold(LimbHasher(k), Squeeze(t[STEP_MRK_BASE].st), FromBits(PathBits(k, t)), PathLimbs(t), LEVELS)
  {
    var h, bits := LimbHasher(k), PathBits(k, t);
    forall d | 0 <= d < LEVELS ensures LevelHashes(h, t, bits, d) {
      LevelRuns(k, pi, t, d);
    }
    LevelsFold(h, t, bits, LEVELS);
    assert LevelHashes(h, t, bits, LEVELS - 1);
  }

  lemma ValuesSound<F(!new)>(k: Suite<F>, pi: SpendInputs, t: Trace<F>)
    requires k.field.Lawful() && pi.mode in {0, 1}
    requires Satisfies(k, ToElements(k.field, pi), t)
    ensures ValuesBalance(pi, Extract(k, t).v, Extract(k, t).cv)
  {
    var st, w := ToElements(k.field, pi), Extract(k, t);
    SatisfiedRuns(k, st, t);
    ValueIsSmall(k, st, t);
    ChangeIsSmall(k, st, t);
    assert StepAt(k, st, t, 0);
    NothingWraps(k.field, pi, w.v, w.cv);
  }

  /** Soundness: any satisfying trace carries an opening of the intended relation, with the values as
      integers. */
  lemma SpendSound<F(!new)>(k: Suite<F>, pi: SpendInputs, t: Trace<F>)
    requires k.field.Lawful() && pi.mode in {0, 1}
    requires Satisfies(k, ToElements(k.field, pi), t)
    ensures Opens(k, pi, Extract(k, t))
  {
    var st, w := ToElements(k.field, pi), Extract(k, t);
    SatisfiedRuns(k, st, t);
    ValueIsSmall(k, st, t);
    ChangeIsSmall(k, st, t);
    ValuesSound(k, pi, t);
    NullifierRuns(k, st, t);
    NoteRuns(k, st, t);
    PathRuns(k, st, t);
    ChangeRuns(k, st, t);
  }
}
