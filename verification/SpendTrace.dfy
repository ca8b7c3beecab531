/** The trace that an honest prover fills in, row by row, and the proof that it satisfies SpendAir. */
module SpendTrace {
  import opened Bits
  import opened Fields
  import opened Encoding
  import opened Poseidon
  import opened Merkle
  import opened NoteTree
  import opened Blocks
  import opened SpendAir
  import opened SpendSoundness

  /** `SpendWitness`. */
  datatype SpendWitness = SpendWitness(
    v: U64, b: Digest, pkd: Digest, index: nat, siblings: seq<Digest>, cv: U64, cb: Digest, cpkd: Digest)
  {
    ghost predicate Valid() {
      |siblings| == LEVELS
    }
  }

  /** The witness as the trace builder sees it, with every digest unpacked. */
  datatype Private<F> = Private(
    v: U64, b: Limbs<F>, pkd: Limbs<F>, index: nat, siblings: seq<Limbs<F>>, cv: U64, cb: Limbs<F>, cpkd: Limbs<F>)
  {
    ghost predicate Valid() {
      |siblings| == LEVELS
    }
  }

  function Unpacked<F(!new)>(k: Suite<F>, w: SpendWitness): Private<F> {
    Private(w.v, k.LimbsOf(w.b), k.LimbsOf(w.pkd), w.index, Map(k.LimbsOf, w.siblings), w.cv,
            k.LimbsOf(w.cb), k.LimbsOf(w.cpkd))
  }

  // ----- the plan -----

  /** What the prover works out on the way: the state each block starts and ends with, the ordered inputs of
      each node hash, and the state column of every row. */
  datatype Plan<F> = Plan(
    p: Private<F>, starts: seq<State<F>>, ends: seq<State<F>>, children: seq<Pair<Limbs<F>>>, states: seq<State<F>>)
  {
    ghost predicate Sized() {
      && p.Valid()
      && |starts| == |ends| == ACTIVE_BLOCKS
      && |children| == LEVELS
      && |states| == TRACE_LEN
    }
  }

  // The current node and its sibling, left child first.
  function Ordered<F>(bit: bool, cur: Limbs<F>, sibling: Limbs<F>): Pair<Limbs<F>> {
    if bit then Pair(sibling, cur) else Pair(cur, sibling)
  }

  ghost predicate NotesFollow<F(!new)>(k: Suite<F>, plan: Plan<F>)
    requires plan.Sized()
  {
    var f, p := k.field, plan.p;
    && plan.starts[0] == NullifierStart(k, p.b)
    && plan.starts[1] == NoteStart(k, f.OfInt(p.v), p.b)
    && plan.starts[2] == Absorb(f, plan.ends[1], p.pkd)
    && plan.starts[43] == NoteStart(k, f.OfInt(p.cv), p.cb)
    && plan.starts[44] == Absorb(f, plan.ends[43], p.cpkd)
  }

  ghost predicate LevelFollows<F(!new)>(k: Suite<F>, plan: Plan<F>, d: nat)
    requires plan.Sized() && d < LEVELS
  {
    var c := plan.children[d];
    && c == Ordered(BitSet(plan.p.index, d), Squeeze(plan.ends[2 + 2 * d]), plan.p.siblings[d])
    && plan.starts[3 + 2 * d] == NodeStart(k, c.left, c.right)
    && plan.starts[4 + 2 * d] == NodeAbsorb(k.field, plan.ends[3 + 2 * d], c.right.hi)
  }

  /** Each block starts where the schedule says, given where the earlier ones ended. */
  ghost predicate Linked<F(!new)>(k: Suite<F>, plan: Plan<F>) {
    && plan.Sized()
    && NotesFollow(k, plan)
    && forall d :: 0 <= d < LEVELS ==> LevelFollows(k, plan, d)
  }

  /** Each block runs the rounds from its start to its end. */
  ghost predicate Simulated<F(!new)>(round: (State<F>, nat) -> State<F>, plan: Plan<F>) {
    && plan.Sized()
    && (forall b :: 0 <= b < ACTIVE_BLOCKS ==> plan.ends[b] == Iterate(round, plan.starts[b], 64))
    && (forall r :: 0 <= r < TRACE_LEN ==> plan.states[r] == StateIn(round, plan.starts, r))
  }

  // The state in the row after the boundary step of block `b`, computed block by block.
  function StartOf<F(!new)>(k: Suite<F>, p: Private<F>, b: nat): State<F>
    requires p.Valid() && b < ACTIVE_BLOCKS
    decreases k, p, b, 0
  {
    var f := k.field;
    if b == 0 then NullifierStart(k, p.b)
    else if b == 1 then NoteStart(k, f.OfInt(p.v), p.b)
    else if b == 2 then Absorb(f, EndOf(k, p, 1), p.pkd)
    else if b == 43 then NoteStart(k, f.OfInt(p.cv), p.cb)
    else if b == 44 then Absorb(f, EndOf(k, p, 43), p.cpkd)
    else if b % 2 == 1 then var c := ChildrenOf(k, p, (b - 3) / 2); NodeStart(k, c.left, c.right)
    else NodeAbsorb(f, EndOf(k, p, b - 1), ChildrenOf(k, p, (b - 4) / 2).right.hi)
  }

  function EndOf<F(!new)>(k: Suite<F>, p: Private<F>, b: nat): State<F>
    requires p.Valid() && b < ACTIVE_BLOCKS
    decreases k, p, b, 1
  {
    Perm(k, StartOf(k, p, b))
  }

  function ChildrenOf<F(!new)>(k: Suite<F>, p: Private<F>, d: nat): Pair<Limbs<F>>
    requires p.Valid() && d < LEVELS
    decreases k, p, 2 + 2 * d, 2
  {
    Ordered(BitSet(p.index, d), Squeeze(EndOf(k, p, 2 + 2 * d)), p.siblings[d])
  }

  function PlanFor<F(!new)>(k: Suite<F>, p: Private<F>): (plan: Plan<F>)
    requires p.Valid()
    ensures plan.p == p && plan.Sized()
    ensures forall b :: 0 <= b < ACTIVE_BLOCKS ==> plan.starts[b] == StartOf(k, p, b) && plan.ends[b] == EndOf(k, p, b)
    ensures forall d :: 0 <= d < LEVELS ==> plan.children[d] == ChildrenOf(k, p, d)
    ensures forall r :: 0 <= r < TRACE_LEN ==> plan.states[r] == StateIn(k.Round, plan.starts, r)
  {
    var starts := seq(ACTIVE_BLOCKS, b requires 0 <= b < ACTIVE_BLOCKS => StartOf(k, p, b));
    Plan(p, starts,
         seq(ACTIVE_BLOCKS, b requires 0 <= b < ACTIVE_BLOCKS => EndOf(k, p, b)),
         seq(LEVELS, d requires 0 <= d < LEVELS => ChildrenOf(k, p, d)),
         seq(TRACE_LEN, r requires 0 <= r < TRACE_LEN => StateIn(k.Round, starts, r)))
  }

  lemma PlanSimulated<F(!new)>(k: Suite<F>, p: Private<F>)
    requires p.Valid()
    ensures Simulated(k.Round, PlanFor(k, p))
  {
  }

  lemma LevelStarts<F(!new)>(k: Suite<F>, p: Private<F>, d: nat)
    requires p.Valid() && d < LEVELS
    ensures
      var c := ChildrenOf(k, p, d);
      && StartOf(k, p, 3 + 2 * d) == NodeStart(k, c.left, c.right)
      && StartOf(k, p, 4 + 2 * d) == NodeAbsorb(k.field, EndOf(k, p, 3 + 2 * d), c.right.hi)
  {
    var b := 3 + 2 * d;
    assert 3 <= b < 42 && (b - 3) / 2 == d && b % 2 == 1;
    assert (b + 1 - 4) / 2 == d && (b + 1) % 2 == 0;
  }

  lemma PlanLevel<F(!new)>(k: Suite<F>, p: Private<F>, d: nat)
    requires p.Valid()
    requires d < LEVELS
    ensures LevelFollows(k, PlanFor(k, p), d)
  {
    LevelStarts(k, p, d);
  }

  lemma PlanLinked<F(!new)>(k: Suite<F>, p: Private<F>)
    requires p.Valid()
    ensures Linked(k, PlanFor(k, p))
  {
    forall d | 0 <= d < LEVELS ensures LevelFollows(k, PlanFor(k, p), d) {
      PlanLevel(k, p, d);
    }
  }

  lemma PlanReady<F(!new)>(k: Suite<F>, p: Private<F>, plan: Plan<F>)
    requires p.Valid() && plan == PlanFor(k, p)
    ensures plan.p == p && Linked(k, plan) && Simulated(k.Round, plan)
  {
    PlanLinked(k, p);
    PlanSimulated(k, p);
  }

  // ----- the cells -----

  // The block that row `r` belongs to; the last block's result fills the rest of the trace.
  function BlockOf(r: nat): nat {
    if r == 0 then 0 else if (r - 1) / BLOCK < ACTIVE_BLOCKS then (r - 1) / BLOCK else ACTIVE_BLOCKS - 1
  }

  function OffsetOf(r: nat): nat {
    if r == 0 then 0 else r - 1 - BlockOf(r) * BLOCK
  }

  // The state of row `r` when each block starts from its entry of `starts`.
  function StateIn<S>(round: (S, nat) -> S, starts: seq<S>, r: nat): S
    requires |starts| == ACTIVE_BLOCKS
  {
    BlockState(round, starts[BlockOf(r)], OffsetOf(r))
  }

  // The level whose rows hold row `r`, for rows 385 to 5504.
  function LevelOf(r: nat): nat
    requires STEP_MRK_BASE < r <= STEP_LCHG
  {
    (r - STEP_MRK_BASE - 1) / 256
  }

  function BitAt<F(!new)>(p: Private<F>, r: nat): bool {
    if r < 64 then BitSet(p.v, r)
    else if r < 128 then BitSet(p.cv, r - 64)
    else if STEP_MRK_BASE < r <= STEP_LCHG then BitSet(p.index, LevelOf(r))
    else false
  }

  function PowAt<F(!new)>(f: Field<F>, r: nat): F {
    if r == 0 || r == 64 then f.one
    else if r < 128 then f.Add(PowAt(f, r - 1), PowAt(f, r - 1))
    else PowAt(f, 127)
  }

  function AccAt<F(!new)>(f: Field<F>, p: Private<F>, r: nat): F {
    if r == 0 || r == 64 then f.zero
    else if r < 128 then f.Add(AccAt(f, p, r - 1), f.Mul(f.Bit(BitAt(p, r - 1)), PowAt(f, r - 1)))
    else AccAt(f, p, 127)
  }

  function AuxAt<F(!new)>(f: Field<F>, p: Private<F>, r: nat): Limbs<F>
    requires p.Valid()
  {
    if r <= STEP_MRK_BASE then Limbs(f.zero, f.zero)
    else if r <= STEP_LCHG then p.siblings[LevelOf(r)]
    else p.cb
  }

  function RHiAt<F(!new)>(f: Field<F>, children: seq<Pair<Limbs<F>>>, r: nat): F
    requires |children| == LEVELS
  {
    if r <= STEP_MRK_BASE then f.zero
    else children[if r <= STEP_LCHG then LevelOf(r) else LEVELS - 1].right.hi
  }

  /** Row `r` of the honest trace. */
  function RowAt<F(!new)>(k: Suite<F>, plan: Plan<F>, r: nat): Row<F>
    requires plan.Sized() && r < TRACE_LEN
  {
    var f, p := k.field, plan.p;
    Row(plan.states[r], f.Bit(BitAt(p, r)), AccAt(f, p, r), PowAt(f, r), p.b, AuxAt(f, p, r),
        RHiAt(f, plan.children, r), f.OfInt(p.v), f.OfInt(p.cv))
  }

  // ----- the state columns follow the schedule -----

  lemma RowPlace(s: nat)
    requires 1 <= s < ACTIVE_BLOCKS * BLOCK
    ensures s % BLOCK > 0 ==>
      BlockOf(s) == BlockOf(s + 1) == s / BLOCK && OffsetOf(s) + 1 == OffsetOf(s + 1) == s % BLOCK
    ensures s % BLOCK == 0 ==>
      BlockOf(s) == s / BLOCK - 1 && OffsetOf(s) == 127 && BlockOf(s + 1) == s / BLOCK && OffsetOf(s + 1) == 0
  {
    var b, j := s / BLOCK, s % BLOCK;
    assert s == b * BLOCK + j;
    if j > 0 {
      assert (s - 1) / BLOCK == b;
    } else {
      assert s - 1 == (b - 1) * BLOCK + 127;
      assert (s - 1) / BLOCK == b - 1;
    }
  }

  /** Inside a block the rows apply the rounds and then hold still. */
  lemma BlockFollows<S(!new)>(round: (S, nat) -> S, starts: seq<S>, s: nat)
    requires |starts| == ACTIVE_BLOCKS
    requires OpAt(s) == Permute || OpAt(s) == Freeze
    ensures OpAt(s) == Permute ==>
      s % BLOCK >= 1 && StateIn(round, starts, s + 1) == round(StateIn(round, starts, s), s % BLOCK - 1)
    ensures OpAt(s) == Freeze ==> StateIn(round, starts, s + 1) == StateIn(round, starts, s)
  {
    if s > 0 {
      RowPlace(s);
    }
  }

  /** Just before a boundary step the state is the output of the block before it, and just after it
      is the start of the next block. */
  lemma BoundaryRows<S(!new)>(round: (S, nat) -> S, starts: seq<S>, b: nat)
    requires |starts| == ACTIVE_BLOCKS
    requires 1 <= b < ACTIVE_BLOCKS
    ensures StateIn(round, starts, b * BLOCK) == Iterate(round, starts[b - 1], 64)
    ensures StateIn(round, starts, b * BLOCK + 1) == starts[b]
  {
    assert (b * BLOCK) % BLOCK == 0 && (b * BLOCK) / BLOCK == b;
    RowPlace(b * BLOCK);
  }

  // Level `d` of the plan hashes the node that entered it with its sibling.
  ghost predicate LevelHash<F(!new)>(h: Hasher<Limbs<F>>, plan: Plan<F>, d: nat)
    requires plan.Sized() && d < LEVELS
  {
    var c := Ordered(BitSet(plan.p.index, d), Squeeze(plan.ends[2 + 2 * d]), plan.p.siblings[d]);
    Squeeze(plan.ends[4 + 2 * d]) == h.H(c.left, c.right)
  }

  lemma LevelEnds<F(!new)>(k: Suite<F>, plan: Plan<F>, d: nat)
    requires Linked(k, plan) && Simulated(k.Round, plan)
    requires d < LEVELS
    ensures LevelHash(LimbHasher(k), plan, d)
  {
    assert LevelFollows(k, plan, d);
    HashOfPerms(k, plan.children[d].left, plan.children[d].right, plan.ends[3 + 2 * d], plan.ends[4 + 2 * d]);
  }

  lemma {:induction false} HashesFold<F(!new)>(h: Hasher<Limbs<F>>, plan: Plan<F>, d: nat)
    requires plan.Sized() && d <= LEVELS
    requires forall e :: 0 <= e < LEVELS ==> LevelHash(h, plan, e)
    ensures Squeeze(plan.ends[2 + 2 * d]) == Fold(h, Squeeze(plan.ends[2]), plan.p.index, plan.p.siblings, d)
  {
    if d > 0 {
      HashesFold(h, plan, d - 1);
      assert LevelHash(h, plan, d - 1);
    }
  }

  lemma NoteEnds<F(!new)>(k: Suite<F>, plan: Plan<F>)
    requires Linked(k, plan) && Simulated(k.Round, plan)
    ensures Squeeze(plan.ends[0]) == NullifierDigest(k, plan.p.b)
    ensures Squeeze(plan.ends[2]) == NoteDigest(k, k.field.OfInt(plan.p.v), plan.p.b, plan.p.pkd)
    ensures Squeeze(plan.ends[44]) == NoteDigest(k, k.field.OfInt(plan.p.cv), plan.p.cb, plan.p.cpkd)
  {
  }

  /** The last Merkle block ends with the fold of the witness path. */
  lemma PathEnds<F(!new)>(k: Suite<F>, plan: Plan<F>)
    requires Linked(k, plan) && Simulated(k.Round, plan)
    ensures Squeeze(plan.ends[42]) == Fold(LimbHasher(k), Squeeze(plan.ends[2]), plan.p.index, plan.p.siblings, LEVELS)
  {
    forall d | 0 <= d < LEVELS ensures LevelHash(LimbHasher(k), plan, d) {
      LevelEnds(k, plan, d);
    }
    HashesFold(LimbHasher(k), plan, LEVELS);
  }
}
