/** The honest trace satisfies SpendAir, exactly when the values balance. */
module SpendCompleteness {
  import opened Bits
  import opened Fields
  import opened Encoding
  import opened Poseidon
  import opened Merkle
  import opened NoteTree
  import opened SpendAir
  import opened SpendSoundness
  import opened SpendTrace

  // ----- the state columns -----

  // The honest rows `s` and `s + 1` hold what instruction `s` computes.
  ghost predicate StateFollows<F(!new)>(k: Suite<F>, pi: Statement<F>, plan: Plan<F>, s: nat)
    requires plan.Sized() && s < TRACE_LEN - 1
  {
    plan.states[s + 1] == NextState(k, pi, s, RowAt(k, plan, s), RowAt(k, plan, s + 1))
  }

  // Just before a boundary step the block before it has ended, and just after it the next one starts.
  ghost predicate Bounded<F(!new)>(plan: Plan<F>, b: nat)
    requires plan.Sized() && 1 <= b < ACTIVE_BLOCKS
  {
    plan.states[b * BLOCK] == plan.ends[b - 1] && plan.states[b * BLOCK + 1] == plan.starts[b]
  }

  ghost predicate AllBounded<F(!new)>(plan: Plan<F>) {
    && plan.Sized()
    && forall b :: 1 <= b < ACTIVE_BLOCKS ==> Bounded(plan, b)
  }

  lemma Boundaries<F(!new)>(round: (State<F>, nat) -> State<F>, plan: Plan<F>)
    requires Simulated(round, plan)
    ensures AllBounded(plan)
  {
    forall b | 1 <= b < ACTIVE_BLOCKS ensures Bounded(plan, b) {
      BoundaryRows(round, plan.starts, b);
    }
  }

  lemma NotesFollowRows<F(!new)>(k: Suite<F>, pi: Statement<F>, plan: Plan<F>)
    requires Linked(k, plan) && pi.pkd == plan.p.pkd && pi.changePkd == plan.p.cpkd
    requires Bounded(plan, 1) && Bounded(plan, 2) && Bounded(plan, 43) && Bounded(plan, 44)
    ensures StateFollows(k, pi, plan, STEP_LNOTE) && StateFollows(k, pi, plan, STEP_LCHG)
    ensures StateFollows(k, pi, plan, STEP_ANOTE) && StateFollows(k, pi, plan, STEP_ACHG)
  {
  }

  lemma LinkRowCells<F(!new)>(k: Suite<F>, plan: Plan<F>, d: nat)
    requires plan.Sized()
    requires d < LEVELS
    ensures RowAt(k, plan, LinkRow(d) + 1).bit == k.field.Bit(BitSet(plan.p.index, d))
    ensures RowAt(k, plan, LinkRow(d) + 1).aux == plan.p.siblings[d]
    ensures RowAt(k, plan, LinkRow(d) + 1).rHi == RowAt(k, plan, LinkRow(d) + 128).rHi == plan.children[d].right.hi
  {
    assert LevelOf(LinkRow(d) + 1) == LevelOf(LinkRow(d) + 128) == d;
  }

  // The muxes at the link row of level `d` put the current node and the sibling in order.
  lemma LinkNodeMuxes<F(!new)>(k: Suite<F>, plan: Plan<F>, d: nat)
    requires k.field.Lawful() && Linked(k, plan)
    requires d < LEVELS && Bounded(plan, 3 + 2 * d)
    ensures
      var cur, n, c := Squeeze(plan.states[LinkRow(d)]), RowAt(k, plan, LinkRow(d) + 1), plan.children[d];
      MuxLimbs(k.field, n.bit, n.aux, cur) == c.left && MuxLimbs(k.field, n.bit, cur, n.aux) == c.right
  {
    assert LinkRow(d) == (3 + 2 * d) * BLOCK;
    var cur, sibling := Squeeze(plan.ends[2 + 2 * d]), plan.p.siblings[d];
    assert LevelFollows(k, plan, d);
    LinkRowCells(k, plan, d);
    MuxSelects(k.field, BitSet(plan.p.index, d), sibling, cur);
    MuxSelects(k.field, BitSet(plan.p.index, d), cur, sibling);
  }

  lemma LinkNodeFollows<F(!new)>(k: Suite<F>, pi: Statement<F>, plan: Plan<F>, d: nat)
    requires k.field.Lawful() && Linked(k, plan)
    requires d < LEVELS && Bounded(plan, 3 + 2 * d)
    ensures StateFollows(k, pi, plan, LinkRow(d))
  {
    assert LinkRow(d) == (3 + 2 * d) * BLOCK;
    LevelOps(d);
    assert LevelFollows(k, plan, d);
    LinkNodeMuxes(k, plan, d);
  }

  lemma AbsorbNodeFollows<F(!new)>(k: Suite<F>, pi: Statement<F>, plan: Plan<F>, d: nat)
    requires Linked(k, plan)
    requires d < LEVELS && Bounded(plan, 4 + 2 * d)
    ensures StateFollows(k, pi, plan, LinkRow(d) + 128)
  {
    assert LinkRow(d) + 128 == (4 + 2 * d) * BLOCK;
    LevelOps(d);
    assert LevelFollows(k, plan, d);
    LinkRowCells(k, plan, d);
  }

  lemma InsideFollows<F(!new)>(k: Suite<F>, pi: Statement<F>, plan: Plan<F>, s: nat)
    requires Simulated(k.Round, plan)
    requires OpAt(s) in {Permute, Freeze, Idle} && s < TRACE_LEN - 1
    ensures StateFollows(k, pi, plan, s)
  {
    if OpAt(s) != Idle {
      BlockFollows(k.Round, plan.starts, s);
    }
  }

  // The level of a boundary step in the Merkle region.
  function LevelAt(s: nat): nat {
    if InMerkle(s) then (s - STEP_MRK_BASE) / 256 else 0
  }

  lemma OpPlaces(s: nat)
    ensures OpAt(s) == LinkNote ==> s == STEP_LNOTE
    ensures OpAt(s) == AbsorbNote ==> s == STEP_ANOTE
    ensures OpAt(s) == LinkChange ==> s == STEP_LCHG
    ensures OpAt(s) == AbsorbChange ==> s == STEP_ACHG
    ensures OpAt(s) == LinkNode ==> LevelAt(s) < LEVELS && s == LinkRow(LevelAt(s))
    ensures OpAt(s) == AbsorbNode ==> LevelAt(s) < LEVELS && s == LinkRow(LevelAt(s)) + 128
  {
    if OpAt(s) == AbsorbNode {
      assert (s - STEP_MRK_BASE) % 256 == 128;
    }
  }

  lemma BoundaryFollows<F(!new)>(k: Suite<F>, pi: Statement<F>, plan: Plan<F>, s: nat)
    requires k.field.Lawful() && Linked(k, plan) && AllBounded(plan)
    requires pi.pkd == plan.p.pkd && pi.changePkd == plan.p.cpkd
    requires OpAt(s) !in {Permute, Freeze, Idle}
    ensures s < TRACE_LEN - 1 && StateFollows(k, pi, plan, s)
  {
    OpPlaces(s);
    if OpAt(s) == LinkNode {
      LinkNodeFollows(k, pi, plan, LevelAt(s));
    } else if OpAt(s) == AbsorbNode {
      AbsorbNodeFollows(k, pi, plan, LevelAt(s));
    } else {
      NotesFollowRows(k, pi, plan);
    }
  }

  /** Every row of the honest trace holds what the scheduled instruction computes. */
  lemma EveryStateFollows<F(!new)>(k: Suite<F>, pi: Statement<F>, plan: Plan<F>, s: nat)
    requires k.field.Lawful() && Linked(k, plan) && Simulated(k.Round, plan)
    requires pi.pkd == plan.p.pkd && pi.changePkd == plan.p.cpkd
    requires s < TRACE_LEN - 1
    ensures StateFollows(k, pi, plan, s)
  {
    if OpAt(s) in {Permute, Freeze, Idle} {
      InsideFollows(k, pi, plan, s);
    } else {
      Boundaries(k.Round, plan);
      BoundaryFollows(k, pi, plan, s);
    }
  }

  // ----- the other columns -----

  lemma LevelSteady(s: nat)
    requires InMerkle(s) && OpAt(s) != LinkNode
    ensures STEP_MRK_BASE < s && LevelOf(s) == LevelOf(s + 1)
  {
  }

  lemma LinkNodeCarries<F(!new)>(k: Suite<F>, plan: Plan<F>, d: nat)
    requires k.field.Lawful() && Linked(k, plan)
    requires d < LEVELS && Bounded(plan, 3 + 2 * d)
    ensures CarriesOk(k, LinkRow(d), RowAt(k, plan, LinkRow(d)), RowAt(k, plan, LinkRow(d) + 1))
  {
    LevelOps(d);
    LinkNodeMuxes(k, plan, d);
    LinkRowCells(k, plan, d);
  }

  lemma OtherCarries<F(!new)>(k: Suite<F>, plan: Plan<F>, s: nat)
    requires plan.Sized()
    requires OpAt(s) != LinkNode && s < TRACE_LEN - 1
    ensures CarriesOk(k, s, RowAt(k, plan, s), RowAt(k, plan, s + 1))
  {
    if InMerkle(s) {
      LevelSteady(s);
    }
  }

  lemma CarriesFollow<F(!new)>(k: Suite<F>, plan: Plan<F>, s: nat)
    requires k.field.Lawful() && Linked(k, plan) && AllBounded(plan)
    requires s < TRACE_LEN - 1
    ensures CarriesOk(k, s, RowAt(k, plan, s), RowAt(k, plan, s + 1))
  {
    if OpAt(s) == LinkNode {
      OpPlaces(s);
      LinkNodeCarries(k, plan, LevelAt(s));
    } else {
      OtherCarries(k, plan, s);
    }
  }

  /** Before row `from + n` the honest accumulator holds the low `n` bits of the value. */
  lemma {:induction false} AccCounts<F(!new)>(k: Suite<F>, p: Private<F>, from: nat, value: U64, n: nat)
    requires k.field.Lawful()
    requires (from == 0 && value == p.v) || (from == 64 && value == p.cv)
    requires n <= 63
    ensures AccAt(k.field, p, from + n) == k.field.OfInt(FromBits(ToBits(value, n)))
    ensures PowAt(k.field, from + n) == k.field.OfInt(Pow2(n))
  {
    if n > 0 {
      AccCounts(k, p, from, value, n - 1);
      NextBit(k, p, from, value, n - 1);
      assert k.field.AddsAt(Pow2(n - 1), Pow2(n - 1));
    }
  }

  lemma NextBit<F(!new)>(k: Suite<F>, p: Private<F>, from: nat, value: U64, n: nat)
    requires k.field.Lawful()
    requires (from == 0 && value == p.v) || (from == 64 && value == p.cv)
    requires n < 64
    requires AccAt(k.field, p, from + n) == k.field.OfInt(FromBits(ToBits(value, n)))
    requires PowAt(k.field, from + n) == k.field.OfInt(Pow2(n))
    ensures k.field.Add(AccAt(k.field, p, from + n),
                        k.field.Mul(k.field.Bit(BitAt(p, from + n)), PowAt(k.field, from + n)))
         == k.field.OfInt(FromBits(ToBits(value, n + 1)))
  {
    assert ToBits(value, n + 1) == ToBits(value, n) + [BitSet(value, n)];
    FromBitsAppend(ToBits(value, n), BitSet(value, n));
    assert k.field.AddsAt(FromBits(ToBits(value, n)), Pow2(n));
  }

  lemma AccTotals<F(!new)>(k: Suite<F>, plan: Plan<F>, from: nat, value: U64)
    requires k.field.Lawful() && plan.Sized()
    requires (from == 0 && value == plan.p.v) || (from == 64 && value == plan.p.cv)
    ensures Accumulated(k.field, RowAt(k, plan, from + 63)) == k.field.OfInt(value)
  {
    AccCounts(k, plan.p, from, value, 63);
    NextBit(k, plan.p, from, value, 63);
    Pow2Of64();
    FromToBits(value, 64);
  }

  lemma RangeFollows<F(!new)>(k: Suite<F>, plan: Plan<F>, s: nat)
    requires k.field.Lawful() && plan.Sized()
    requires s < TRACE_LEN - 1
    ensures RangeOk(k.field, s, RowAt(k, plan, s), RowAt(k, plan, s + 1))
  {
    if s == 63 {
      AccTotals(k, plan, 0, plan.p.v);
    } else if s == 127 {
      AccTotals(k, plan, 64, plan.p.cv);
    }
  }

  // ----- the whole trace -----

  ghost predicate FieldBalance<F(!new)>(f: Field<F>, pi: Statement<F>, v: U64, cv: U64) {
    && f.OfInt(v) == f.Add(f.Mul(pi.mode, f.OfInt(cv)), pi.price)
    && f.Mul(f.Sub(f.one, pi.mode), f.OfInt(cv)) == f.zero
  }

  lemma ValuesFollow<F(!new)>(k: Suite<F>, pi: Statement<F>, plan: Plan<F>, s: nat)
    requires Linked(k, plan) && Simulated(k.Round, plan)
    requires s < TRACE_LEN - 1
    ensures ValuesOk(k, pi, s, RowAt(k, plan, s)) <==> FieldBalance(k.field, pi, plan.p.v, plan.p.cv)
  {
    if s == 0 {
      assert plan.states[0] == plan.starts[0];
    }
  }

  lemma HonestStep<F(!new)>(k: Suite<F>, pi: Statement<F>, plan: Plan<F>, s: nat)
    requires k.field.Lawful() && Linked(k, plan) && Simulated(k.Round, plan) && AllBounded(plan)
    requires pi.pkd == plan.p.pkd && pi.changePkd == plan.p.cpkd
    requires s < TRACE_LEN - 1
    ensures StepOk(k, pi, s, RowAt(k, plan, s), RowAt(k, plan, s + 1))
       <==> FieldBalance(k.field, pi, plan.p.v, plan.p.cv)
  {
    EveryStateFollows(k, pi, plan, s);
    RangeFollows(k, plan, s);
    CarriesFollow(k, plan, s);
    ValuesFollow(k, pi, plan, s);
  }

  ghost predicate IsHonest<F(!new)>(k: Suite<F>, plan: Plan<F>, t: Trace<F>) {
    && plan.Sized() && |t| == TRACE_LEN
    && forall r :: 0 <= r < TRACE_LEN ==> t[r] == RowAt(k, plan, r)
  }

  lemma HonestRuns<F(!new)>(k: Suite<F>, pi: Statement<F>, plan: Plan<F>, t: Trace<F>)
    requires k.field.Lawful() && Linked(k, plan) && Simulated(k.Round, plan) && IsHonest(k, plan, t)
    requires pi.pkd == plan.p.pkd && pi.changePkd == plan.p.cpkd
    ensures Runs(k, pi, t) <==> FieldBalance(k.field, pi, plan.p.v, plan.p.cv)
  {
    Boundaries(k.Round, plan);
    forall s | 0 <= s < TRACE_LEN - 1
      ensures StepAt(k, pi, t, s) <==> FieldBalance(k.field, pi, plan.p.v, plan.p.cv)
    {
      HonestStep(k, pi, plan, s);
    }
    if Runs(k, pi, t) {
      assert StepAt(k, pi, t, 0);
    }
  }

  // The public outputs that a witness leads to.
  ghost predicate Outputs<F(!new)>(k: Suite<F>, pi: Statement<F>, p: Private<F>)
    requires p.Valid()
  {
    var f := k.field;
    && NullifierDigest(k, p.b) == pi.nullifier
    && Fold(LimbHasher(k), NoteDigest(k, f.OfInt(p.v), p.b, p.pkd), p.index, p.siblings, LEVELS) == pi.root
    && NoteDigest(k, f.OfInt(p.cv), p.cb, p.cpkd) == pi.changeLeaf
  }

  lemma OutputRows<F(!new)>(round: (State<F>, nat) -> State<F>, plan: Plan<F>)
    requires Simulated(round, plan)
    ensures plan.states[ROW_NF_OUT] == plan.ends[0]
    ensures plan.states[ROW_ROOT] == plan.ends[42]
    ensures plan.states[ROW_CLEAF] == plan.ends[44]
  {
    assert BlockOf(ROW_NF_OUT) == 0 && BlockOf(ROW_ROOT) == 42 && BlockOf(ROW_CLEAF) == 44;
  }

  lemma HonestAsserts<F(!new)>(k: Suite<F>, pi: Statement<F>, plan: Plan<F>, t: Trace<F>)
    requires Linked(k, plan) && Simulated(k.Round, plan) && IsHonest(k, plan, t)
    ensures Asserted(k, pi, t) <==> Outputs(k, pi, plan.p)
  {
    OutputRows(k.Round, plan);
    NoteEnds(k, plan);
    PathEnds(k, plan);
    assert t[0] == RowAt(k, plan, 0);
    assert t[ROW_NF_OUT] == RowAt(k, plan, ROW_NF_OUT);
    assert t[ROW_ROOT] == RowAt(k, plan, ROW_ROOT);
    assert t[ROW_CLEAF] == RowAt(k, plan, ROW_CLEAF);
  }

  /** The two absorb steps tie the public key digests to those of the witness. */
  lemma HonestKeys<F(!new)>(k: Suite<F>, pi: Statement<F>, plan: Plan<F>, t: Trace<F>)
    requires k.field.Lawful() && Linked(k, plan) && AllBounded(plan) && IsHonest(k, plan, t)
    requires Runs(k, pi, t)
    ensures pi.pkd == plan.p.pkd && pi.changePkd == plan.p.cpkd
  {
    assert Bounded(plan, 2) && Bounded(plan, 44);
    assert StepAt(k, pi, t, STEP_ANOTE) && StepAt(k, pi, t, STEP_ACHG);
    AbsorbCancels(k.field, plan.ends[1], pi.pkd, plan.p.pkd);
    AbsorbCancels(k.field, plan.ends[43], pi.changePkd, plan.p.cpkd);
  }

  ghost predicate KeysMatch<F(!new)>(pi: Statement<F>, p: Private<F>) {
    pi.pkd == p.pkd && pi.changePkd == p.cpkd
  }

  /** The honest trace satisfies the circuit exactly when the public key digests are the witness's, the
      values balance in the field and the public outputs are the ones the witness leads to. */
  lemma HonestSatisfies<F(!new)>(k: Suite<F>, pi: Statement<F>, plan: Plan<F>, t: Trace<F>)
    requires k.field.Lawful() && Linked(k, plan) && Simulated(k.Round, plan) && IsHonest(k, plan, t)
    ensures Satisfies(k, pi, t)
       <==> (KeysMatch(pi, plan.p) && FieldBalance(k.field, pi, plan.p.v, plan.p.cv) && Outputs(k, pi, plan.p))
  {
    SatisfiedRuns(k, pi, t);
    HonestAsserts(k, pi, plan, t);
    Boundaries(k.Round, plan);
    if KeysMatch(pi, plan.p) {
      HonestRuns(k, pi, plan, t);
    } else if Runs(k, pi, t) {
      HonestKeys(k, pi, plan, t);
    }
  }

  function HonestRows<F(!new)>(k: Suite<F>, plan: Plan<F>, n: nat): (t: Trace<F>)
    requires plan.Sized() && n <= TRACE_LEN
    ensures |t| == n
    ensures forall r :: 0 <= r < n ==> t[r] == RowAt(k, plan, r)
  {
    if n == 0 then [] else HonestRows(k, plan, n - 1) + [RowAt(k, plan, n - 1)]
  }

  function HonestTrace<F(!new)>(k: Suite<F>, p: Private<F>): (t: Trace<F>)
    requires p.Valid()
    ensures IsHonest(k, PlanFor(k, p), t)
  {
    HonestRows(k, PlanFor(k, p), TRACE_LEN)
  }

  lemma TraceSatisfies<F(!new)>(k: Suite<F>, pi: SpendInputs, p: Private<F>, t: Trace<F>)
    requires k.field.Lawful() && pi.mode in {0, 1} && p.Valid()
    requires IsHonest(k, PlanFor(k, p), t)
    ensures var st := ToElements(k.field, pi);
      Satisfies(k, st, t) <==> (KeysMatch(st, p) && ValuesBalance(pi, p.v, p.cv) && Outputs(k, st, p))
  {
    PlanLinked(k, p);
    PlanSimulated(k, p);
    NothingWraps(k.field, pi, p.v, p.cv);
    HonestSatisfies(k, ToElements(k.field, pi), PlanFor(k, p), t);
  }

  /** The trace for an opening. */
  function OpeningTrace<F(!new)>(k: Suite<F>, pi: SpendInputs, w: Opening<F>): Trace<F>
    requires |w.siblings| == LEVELS
  {
    HonestTrace(k, Private(w.v, w.b, k.LimbsOf(pi.pkd), w.index, w.siblings, w.cv, w.cb, k.LimbsOf(pi.changePkd)))
  }

  lemma OpeningSatisfies<F(!new)>(k: Suite<F>, pi: SpendInputs, w: Opening<F>)
    requires k.field.Lawful() && pi.mode in {0, 1}
    requires Opens(k, pi, w)
    ensures Satisfies(k, ToElements(k.field, pi), OpeningTrace(k, pi, w))
  {
    var p := Private(w.v, w.b, k.LimbsOf(pi.pkd), w.index, w.siblings, w.cv, w.cb, k.LimbsOf(pi.changePkd));
    TraceSatisfies(k, pi, p, HonestTrace(k, p));
  }

  ghost predicate Satisfiable<F(!new)>(k: Suite<F>, pi: SpendInputs) {
    exists t :: Satisfies(k, ToElements(k.field, pi), t)
  }

  ghost predicate Openable<F(!new)>(k: Suite<F>, pi: SpendInputs) {
    exists w :: Opens(k, pi, w)
  }

  /** Soundness and completeness together: the circuit can be satisfied exactly when the relation has
      an opening. */
  lemma SpendIff<F(!new)>(k: Suite<F>, pi: SpendInputs)
    requires k.field.Lawful() && pi.mode in {0, 1}
    ensures Satisfiable(k, pi) <==> Openable(k, pi)
  {
    if Satisfiable(k, pi) {
      var t :| Satisfies(k, ToElements(k.field, pi), t);
      SpendSound(k, pi, t);
    }
    if Openable(k, pi) {
      var w :| Opens(k, pi, w);
      OpeningSatisfies(k, pi, w);
    }
  }

  // ----- prove_spend -----

  function ZeroChangeLeaf<F(!new)>(k: Suite<F>): Digest {
    NoteHash(k, 0, ZeroDigest(k.field), ZeroDigest(k.field))
  }

  /** The public inputs that `prove_spend` computes for a witness. */
  function ProveInputs<F(!new)>(k: Suite<F>, w: SpendWitness, price: U64, mode: nat): SpendInputs
    requires |w.siblings| == LEVELS
  {
    SpendInputs(
      Fold(ByteHasher(k), NoteHash(k, w.v, w.b, w.pkd), w.index, w.siblings, LEVELS),
      NullifierHash(k, w.b),
      w.pkd,
      price,
      if mode == 1 then NoteHash(k, w.cv, w.cb, w.cpkd) else ZeroChangeLeaf(k),
      if mode == 1 then w.cpkd else ZeroDigest(k.field),
      mode)
  }

  function NoLimbs<F(!new)>(f: Field<F>): Limbs<F> {
    Limbs(f.zero, f.zero)
  }

  /** What a withdrawal asks of the change fields of its witness: the key digest unpacks to zero and the
      blinding opens the zero change leaf. */
  ghost predicate NoChange<F(!new)>(k: Suite<F>, cb: Limbs<F>, cpkd: Limbs<F>) {
    var f := k.field;
    && cpkd == NoLimbs(f)
    && NoteDigest(k, f.zero, cb, NoLimbs(f)) == NoteDigest(k, f.zero, NoLimbs(f), NoLimbs(f))
  }

  lemma ProvedRoot<F(!new)>(k: Suite<F>, w: SpendWitness)
    requires k.field.Lawful() && w.Valid()
    ensures k.LimbsOf(Fold(ByteHasher(k), NoteHash(k, w.v, w.b, w.pkd), w.index, w.siblings, LEVELS))
         == Fold(LimbHasher(k), NoteDigest(k, k.field.OfInt(w.v), k.LimbsOf(w.b), k.LimbsOf(w.pkd)),
                 w.index, Map(k.LimbsOf, w.siblings), LEVELS)
  {
    UnpackCarries(k);
    FoldCarried(ByteHasher(k), LimbHasher(k), k.LimbsOf, NoteHash(k, w.v, w.b, w.pkd), w.index, w.siblings, LEVELS);
    NoteHashUnpacks(k, w.v, w.b, w.pkd);
  }

  ghost predicate ChangeOutput<F(!new)>(k: Suite<F>, pi: SpendInputs, w: SpendWitness) {
    NoteDigest(k, k.field.OfInt(w.cv), k.LimbsOf(w.cb), k.LimbsOf(w.cpkd)) == k.LimbsOf(pi.changeLeaf)
  }

  /** The nullifier and the root that `prove_spend` computes always fit the trace. Only the change leaf
      may not. */
  lemma ProvedOutputs<F(!new)>(k: Suite<F>, pi: SpendInputs, w: SpendWitness, price: U64, mode: nat)
    requires k.field.Lawful() && w.Valid() && pi == ProveInputs(k, w, price, mode)
    ensures Outputs(k, ToElements(k.field, pi), Unpacked(k, w)) <==> ChangeOutput(k, pi, w)
  {
    var st, p := ToElements(k.field, pi), Unpacked(k, w);
    assert NullifierDigest(k, p.b) == st.nullifier by {
      NullifierHashUnpacks(k, w.b);
    }
    assert Fold(LimbHasher(k), NoteDigest(k, k.field.OfInt(p.v), p.b, p.pkd), p.index, p.siblings, LEVELS)
        == st.root by {
      ProvedRoot(k, w);
    }
  }

  lemma ProvedKeys<F(!new)>(k: Suite<F>, pi: SpendInputs, w: SpendWitness, price: U64, mode: nat)
    requires k.field.Lawful() && w.Valid() && pi == ProveInputs(k, w, price, mode)
    ensures pi.mode == mode && pi.price == price
    ensures Unpacked(k, w).v == w.v && Unpacked(k, w).cv == w.cv && Unpacked(k, w).Valid()
    ensures KeysMatch(ToElements(k.field, pi), Unpacked(k, w))
       <==> (mode == 1 || k.LimbsOf(w.cpkd) == NoLimbs(k.field))
  {
    UnpackPack(k.field, NoLimbs(k.field));
  }

  lemma ZeroLeafUnpacks<F(!new)>(k: Suite<F>)
    requires k.field.Lawful()
    ensures k.LimbsOf(ZeroChangeLeaf(k)) == NoteDigest(k, k.field.zero, NoLimbs(k.field), NoLimbs(k.field))
  {
    UnpackPack(k.field, NoLimbs(k.field));
    NoteHashUnpacks(k, 0, ZeroDigest(k.field), ZeroDigest(k.field));
  }

  lemma ProvedChange<F(!new)>(k: Suite<F>, pi: SpendInputs, w: SpendWitness, price: U64, mode: nat)
    requires k.field.Lawful() && w.Valid() && pi == ProveInputs(k, w, price, mode)
    ensures mode == 1 ==> ChangeOutput(k, pi, w)
    ensures mode != 1 && w.cv == 0 && k.LimbsOf(w.cpkd) == NoLimbs(k.field) ==>
      (ChangeOutput(k, pi, w) <==> NoChange(k, k.LimbsOf(w.cb), k.LimbsOf(w.cpkd)))
  {
    NoteHashUnpacks(k, w.cv, w.cb, w.cpkd);
    ZeroLeafUnpacks(k);
  }

  lemma ProvedSatisfies<F(!new)>(
    k: Suite<F>, pi: SpendInputs, w: SpendWitness, price: U64, mode: nat, t: Trace<F>)
    requires k.field.Lawful() && w.Valid() && mode in {0, 1} && pi == ProveInputs(k, w, price, mode)
    requires IsHonest(k, PlanFor(k, Unpacked(k, w)), t)
    ensures pi.mode == mode && pi.price == price
    ensures Satisfies(k, ToElements(k.field, pi), t)
       <==> ((mode == 1 || k.LimbsOf(w.cpkd) == NoLimbs(k.field))
             && ValuesBalance(pi, w.v, w.cv) && ChangeOutput(k, pi, w))
  {
    ProvedKeys(k, pi, w, price, mode);
    ProvedOutputs(k, pi, w, price, mode);
    TraceSatisfies(k, pi, Unpacked(k, w), t);
  }

  /** What balances: the values, and in a withdrawal there is no change at all. */
  predicate WitnessFits(v: U64, cv: U64, price: U64, mode: nat, noChange: bool) {
    if mode == 1 then v == cv + price else v == price && cv == 0 && noChange
  }

  lemma FitParts(
    pi: SpendInputs, v: U64, cv: U64, price: U64, mode: nat, keyZero: bool, output: bool, noChange: bool)
    requires mode in {0, 1} && pi.mode == mode && pi.price == price
    requires (mode == 1 ==> output) && (mode == 0 && cv == 0 && keyZero ==> (output <==> noChange))
    requires noChange ==> keyZero
    ensures WitnessFits(v, cv, price, mode, noChange)
       <==> ((mode == 1 || keyZero) && ValuesBalance(pi, v, cv) && output)
  {
  }

  /** Completeness of `prove_spend`, for every witness: its trace satisfies the circuit for the public
      inputs it computes exactly when the note value is change plus price, or, in withdraw mode, exactly
      the amount with no change. */
  lemma ProveSpendComplete<F(!new)>(k: Suite<F>, pi: SpendInputs, w: SpendWitness, price: U64, mode: nat, t: Trace<F>)
    requires k.field.Lawful() && w.Valid() && mode in {0, 1} && pi == ProveInputs(k, w, price, mode)
    requires IsHonest(k, PlanFor(k, Unpacked(k, w)), t)
    ensures Satisfies(k, ToElements(k.field, pi), t)
       <==> WitnessFits(w.v, w.cv, price, mode, NoChange(k, k.LimbsOf(w.cb), k.LimbsOf(w.cpkd)))
  {
    ProvedSatisfies(k, pi, w, price, mode, t);
    ProvedChange(k, pi, w, price, mode);
    FitParts(pi, w.v, w.cv, price, mode, k.LimbsOf(w.cpkd) == NoLimbs(k.field), ChangeOutput(k, pi, w),
             NoChange(k, k.LimbsOf(w.cb), k.LimbsOf(w.cpkd)));
  }

  /** A fitting witness is itself an opening of the public inputs computed for it. */
  lemma FittingOpens<F(!new)>(k: Suite<F>, pi: SpendInputs, w: SpendWitness, price: U64, mode: nat)
    requires k.field.Lawful() && w.Valid() && w.index < Pow2(LEVELS)
    requires mode in {0, 1} && pi == ProveInputs(k, w, price, mode)
    requires WitnessFits(w.v, w.cv, price, mode, NoChange(k, k.LimbsOf(w.cb), k.LimbsOf(w.cpkd)))
    ensures Opens(k, pi, OpeningOf(Unpacked(k, w)))
  {
    ProvedKeys(k, pi, w, price, mode);
    ProvedOutputs(k, pi, w, price, mode);
    ProvedChange(k, pi, w, price, mode);
    FitParts(pi, w.v, w.cv, price, mode, k.LimbsOf(w.cpkd) == NoLimbs(k.field), ChangeOutput(k, pi, w),
             NoChange(k, k.LimbsOf(w.cb), k.LimbsOf(w.cpkd)));
    OutputsOpen(k, pi, Unpacked(k, w));
  }

  function OpeningOf<F>(p: Private<F>): Opening<F> {
    Opening(p.v, p.b, p.index, p.siblings, p.cv, p.cb)
  }

  lemma OutputsOpen<F(!new)>(k: Suite<F>, pi: SpendInputs, p: Private<F>)
    requires p.Valid() && p.index < Pow2(LEVELS)
    requires KeysMatch(ToElements(k.field, pi), p) && Outputs(k, ToElements(k.field, pi), p)
    requires ValuesBalance(pi, p.v, p.cv)
    ensures Opens(k, pi, OpeningOf(p))
  {
  }

  /** Zero change fields, as the wallet sets them, are no change. */
  lemma ZeroIsNoChange<F(!new)>(k: Suite<F>)
    requires k.field.Lawful()
    ensures NoChange(k, k.LimbsOf(ZeroDigest(k.field)), k.LimbsOf(ZeroDigest(k.field)))
  {
    UnpackPack(k.field, NoLimbs(k.field));
  }
}
