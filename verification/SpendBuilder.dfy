/** `build_spend_trace`: filling the fourteen columns in place. */
module SpendBuilder {
  import opened Bits
  import opened Fields
  import opened Encoding
  import opened Poseidon
  import opened Merkle
  import opened Blocks
  import opened SpendAir
  import opened SpendSoundness
  import opened SpendTrace
  import opened SpendCompleteness

  const TRACE_WIDTH: nat := 14

  predicate Shaped<F>(cols: array2<F>) {
    cols.Length0 == TRACE_WIDTH && cols.Length1 == TRACE_LEN
  }

  function RowCells<F>(cols: array2<F>, r: nat): Row<F>
    requires Shaped(cols) && r < TRACE_LEN
    reads cols
  {
    Row(StateCell(cols, r), cols[4, r], cols[5, r], cols[6, r], Limbs(cols[7, r], cols[8, r]),
        Limbs(cols[9, r], cols[10, r]), cols[11, r], cols[12, r], cols[13, r])
  }

  /** Sets rows `from` to `to` of one column. */
  method SetRows<F>(cols: array2<F>, c: nat, from: nat, to: nat, value: F)
    requires Shaped(cols) && c < TRACE_WIDTH && from <= to + 1 <= TRACE_LEN
    modifies cols
    ensures forall r :: from <= r <= to ==> cols[c, r] == value
    ensures forall e, r :: 0 <= e < TRACE_WIDTH && 0 <= r < TRACE_LEN && (e != c || r < from || r > to) ==>
      cols[e, r] == old(cols[e, r])
  {
    for r := from to to + 1
      invariant forall i :: from <= i < r ==> cols[c, i] == value
      invariant forall e, i :: 0 <= e < TRACE_WIDTH && 0 <= i < TRACE_LEN && (e != c || i < from || i >= r) ==>
        cols[e, i] == old(cols[e, i])
    {
      cols[c, r] := value;
    }
  }

  method FillCarries<F(!new)>(f: Field<F>, p: Private<F>, cols: array2<F>)
    requires Shaped(cols)
    modifies cols
    ensures forall r :: 0 <= r < TRACE_LEN ==>
      cols[7, r] == p.b.lo && cols[8, r] == p.b.hi && cols[12, r] == f.OfInt(p.v) && cols[13, r] == f.OfInt(p.cv)
    ensures forall c, r :: 0 <= c < TRACE_WIDTH && c !in {7, 8, 12, 13} && 0 <= r < TRACE_LEN ==>
      cols[c, r] == old(cols[c, r])
  {
    SetRows(cols, 7, 0, TRACE_LEN - 1, p.b.lo);
    SetRows(cols, 8, 0, TRACE_LEN - 1, p.b.hi);
    SetRows(cols, 12, 0, TRACE_LEN - 1, f.OfInt(p.v));
    SetRows(cols, 13, 0, TRACE_LEN - 1, f.OfInt(p.cv));
  }

  lemma LevelRowsOf(d: nat, r: nat)
    requires d < LEVELS && 385 + 256 * d <= r <= 384 + 256 * (d + 1)
    ensures STEP_MRK_BASE < r <= STEP_LCHG && LevelOf(r) == d
  {
  }

  method FillBits<F(!new)>(f: Field<F>, p: Private<F>, cols: array2<F>)
    requires Shaped(cols)
    requires forall r :: 0 <= r < TRACE_LEN ==> cols[4, r] == f.zero
    modifies cols
    ensures forall r :: 0 <= r < TRACE_LEN ==> cols[4, r] == f.Bit(BitAt(p, r))
    ensures forall c, r :: 0 <= c < TRACE_WIDTH && c != 4 && 0 <= r < TRACE_LEN ==> cols[c, r] == old(cols[c, r])
  {
    for i := 0 to 64
      invariant forall r :: 0 <= r < i || 64 <= r < 64 + i ==> cols[4, r] == f.Bit(BitAt(p, r))
      invariant forall r :: i <= r < 64 || 64 + i <= r < TRACE_LEN ==> cols[4, r] == f.zero
      invariant forall c, r :: 0 <= c < TRACE_WIDTH && c != 4 && 0 <= r < TRACE_LEN ==> cols[c, r] == old(cols[c, r])
    {
      cols[4, i] := f.Bit(BitSet(p.v, i));
      cols[4, 64 + i] := f.Bit(BitSet(p.cv, i));
    }
    for d := 0 to LEVELS
      invariant forall r :: 0 <= r <= STEP_MRK_BASE + 256 * d ==> cols[4, r] == f.Bit(BitAt(p, r))
      invariant forall r :: STEP_MRK_BASE + 256 * d < r < TRACE_LEN ==> cols[4, r] == f.zero
      invariant forall c, r :: 0 <= c < TRACE_WIDTH && c != 4 && 0 <= r < TRACE_LEN ==> cols[c, r] == old(cols[c, r])
    {
      SetRows(cols, 4, 385 + 256 * d, 384 + 256 * (d + 1), f.Bit(BitSet(p.index, d)));
      forall r | 385 + 256 * d <= r <= 384 + 256 * (d + 1) ensures cols[4, r] == f.Bit(BitAt(p, r)) {
        LevelRowsOf(d, r);
      }
    }
  }

  method FillAux<F(!new)>(f: Field<F>, p: Private<F>, cols: array2<F>)
    requires Shaped(cols) && |p.siblings| == LEVELS
    requires forall r :: 0 <= r < TRACE_LEN ==> cols[9, r] == f.zero && cols[10, r] == f.zero
    modifies cols
    ensures forall r :: 0 <= r < TRACE_LEN ==> Limbs(cols[9, r], cols[10, r]) == AuxAt(f, p, r)
    ensures forall c, r :: 0 <= c < TRACE_WIDTH && c !in {9, 10} && 0 <= r < TRACE_LEN ==> cols[c, r] == old(cols[c, r])
  {
    for d := 0 to LEVELS
      invariant forall r :: 0 <= r <= STEP_MRK_BASE + 256 * d ==> Limbs(cols[9, r], cols[10, r]) == AuxAt(f, p, r)
      invariant forall c, r :: 0 <= c < TRACE_WIDTH && c !in {9, 10} && 0 <= r < TRACE_LEN ==>
        cols[c, r] == old(cols[c, r])
    {
      SetRows(cols, 9, 385 + 256 * d, 384 + 256 * (d + 1), p.siblings[d].lo);
      SetRows(cols, 10, 385 + 256 * d, 384 + 256 * (d + 1), p.siblings[d].hi);
      forall r | 385 + 256 * d <= r <= 384 + 256 * (d + 1) ensures Limbs(cols[9, r], cols[10, r]) == AuxAt(f, p, r) {
        LevelRowsOf(d, r);
      }
    }
    SetRows(cols, 9, 5505, TRACE_LEN - 1, p.cb.lo);
    SetRows(cols, 10, 5505, TRACE_LEN - 1, p.cb.hi);
  }

  // The columns that the range rows should hold: the running sum adds each bit at its power.
  ghost predicate CountsAt<F(!new)>(f: Field<F>, bit: nat -> F, acc: nat -> F, pow: nat -> F, s: nat) {
    && acc(s + 1) == f.Add(acc(s), f.Mul(bit(s), pow(s)))
    && pow(s + 1) == f.Add(pow(s), pow(s))
  }

  // Rows `from` to `from + 63`: the running sum and the doubling power, from a fresh start.
  method FillRangeRows<F(!new)>(
    f: Field<F>, ghost bit: nat -> F, ghost acc: nat -> F, ghost pow: nat -> F, cols: array2<F>, from: nat)
    requires Shaped(cols) && from + 64 <= TRACE_LEN
    requires acc(from) == f.zero && pow(from) == f.one
    requires forall s :: from <= s < from + 63 ==> CountsAt(f, bit, acc, pow, s)
    requires forall r :: from <= r < from + 64 ==> cols[4, r] == bit(r)
    modifies cols
    ensures forall r :: from <= r < from + 64 ==> cols[5, r] == acc(r) && cols[6, r] == pow(r)
    ensures forall c, r ::
      0 <= c < TRACE_WIDTH && 0 <= r < TRACE_LEN && (c !in {5, 6} || r < from || r >= from + 64) ==>
      cols[c, r] == old(cols[c, r])
  {
    cols[5, from] := f.zero;
    cols[6, from] := f.one;
    for s := from to from + 63
      invariant forall r :: from <= r <= s ==> cols[5, r] == acc(r) && cols[6, r] == pow(r)
      invariant forall c, r ::
        0 <= c < TRACE_WIDTH && 0 <= r < TRACE_LEN && (c !in {5, 6} || r < from || r >= from + 64) ==>
        cols[c, r] == old(cols[c, r])
    {
      assert CountsAt(f, bit, acc, pow, s);
      cols[5, s + 1] := f.Add(cols[5, s], f.Mul(cols[4, s], cols[6, s]));
      cols[6, s + 1] := f.Add(cols[6, s], cols[6, s]);
    }
  }

  lemma RangeCounts<F(!new)>(f: Field<F>, p: Private<F>, s: nat)
    requires s < 127 && s != 63
    ensures CountsAt(f, (r: nat) => f.Bit(BitAt(p, r)), (r: nat) => AccAt(f, p, r), (r: nat) => PowAt(f, r), s)
  {
  }

  method FillRange<F(!new)>(f: Field<F>, p: Private<F>, cols: array2<F>)
    requires Shaped(cols)
    requires forall r :: 0 <= r < TRACE_LEN ==> cols[4, r] == f.Bit(BitAt(p, r))
    modifies cols
    ensures forall r :: 0 <= r < TRACE_LEN ==> cols[5, r] == AccAt(f, p, r) && cols[6, r] == PowAt(f, r)
    ensures forall c, r :: 0 <= c < TRACE_WIDTH && c !in {5, 6} && 0 <= r < TRACE_LEN ==> cols[c, r] == old(cols[c, r])
  {
    ghost var bit, acc, pow := (r: nat) => f.Bit(BitAt(p, r)), (r: nat) => AccAt(f, p, r), (r: nat) => PowAt(f, r);
    forall s | 0 <= s < 127 && s != 63 ensures CountsAt(f, bit, acc, pow, s) {
      RangeCounts(f, p, s);
    }
    FillRangeRows(f, bit, acc, pow, cols, 0);
    FillRangeRows(f, bit, acc, pow, cols, 64);
    SetRows(cols, 5, 128, TRACE_LEN - 1, cols[5, 127]);
    SetRows(cols, 6, 128, TRACE_LEN - 1, cols[6, 127]);
  }

  // ----- the state columns -----

  lemma BlockRowsOf<F(!new)>(round: (State<F>, nat) -> State<F>, plan: Plan<F>, b: nat, r: nat)
    requires Simulated(round, plan)
    requires b < ACTIVE_BLOCKS && b * BLOCK < r < TRACE_LEN
    requires b < ACTIVE_BLOCKS - 1 ==> r <= b * BLOCK + 128
    ensures plan.states[r] == BlockState(round, plan.starts[b], r - (b * BLOCK + 1))
  {
    assert r - 1 == b * BLOCK + (r - 1 - b * BLOCK);
    if r <= b * BLOCK + 128 {
      assert (r - 1) / BLOCK == b;
    }
  }

  // The rows down to `last` hold the planned states, and the planned high limbs.
  ghost predicate StatesDone<F(!new)>(cols: array2<F>, plan: Plan<F>, last: nat)
    requires Shaped(cols) && plan.Sized() && last < TRACE_LEN
    reads cols
  {
    forall r :: 0 <= r <= last ==> StateCell(cols, r) == plan.states[r]
  }

  ghost predicate RHiDone<F(!new)>(f: Field<F>, cols: array2<F>, plan: Plan<F>, last: nat)
    requires Shaped(cols) && plan.Sized() && last < TRACE_LEN
    reads cols
  {
    forall r :: 0 <= r <= last ==> cols[11, r] == RHiAt(f, plan.children, r)
  }

  /** Fills block `b` with the planned states, down to row `end`. */
  method FillPlanned<F(!new)>(
    round: (State<F>, nat) -> State<F>, ghost plan: Plan<F>, cols: array2<F>, b: nat, start: State<F>, end: nat)
    requires Shaped(cols) && Simulated(round, plan)
    requires b < ACTIVE_BLOCKS && start == plan.starts[b]
    requires end == if b < ACTIVE_BLOCKS - 1 then b * BLOCK + 128 else TRACE_LEN - 1
    requires StatesDone(cols, plan, b * BLOCK)
    modifies cols
    ensures StatesDone(cols, plan, end)
    ensures forall c, r :: 4 <= c < TRACE_WIDTH && 0 <= r < TRACE_LEN ==> cols[c, r] == old(cols[c, r])
  {
    FillBlock(round, cols, b * BLOCK + 1, start, end);
    forall r | b * BLOCK < r <= end ensures StateCell(cols, r) == plan.states[r] {
      BlockRowsOf(round, plan, b, r);
    }
  }

  lemma RHiOfLevel<F(!new)>(f: Field<F>, plan: Plan<F>, d: nat, r: nat)
    requires plan.Sized() && d < LEVELS
    requires LinkRow(d) < r <= LinkRow(d + 1) || (d == LEVELS - 1 && LinkRow(d) < r)
    ensures RHiAt(f, plan.children, r) == plan.children[d].right.hi
  {
    if r <= LinkRow(d + 1) {
      LevelRowsOf(d, r);
    }
  }

  method FillRHi<F(!new)>(f: Field<F>, ghost plan: Plan<F>, cols: array2<F>, d: nat, rHi: F, end: nat)
    requires Shaped(cols) && plan.Sized()
    requires d < LEVELS && rHi == plan.children[d].right.hi
    requires end == LinkRow(d + 1) || (d == LEVELS - 1 && end == TRACE_LEN - 1)
    requires RHiDone(f, cols, plan, LinkRow(d))
    modifies cols
    ensures RHiDone(f, cols, plan, end)
    ensures forall c, r :: 0 <= c < TRACE_WIDTH && c != 11 && 0 <= r < TRACE_LEN ==> cols[c, r] == old(cols[c, r])
  {
    SetRows(cols, 11, LinkRow(d) + 1, end, rHi);
    forall r | LinkRow(d) < r <= end ensures cols[11, r] == RHiAt(f, plan.children, r) {
      RHiOfLevel(f, plan, d, r);
    }
  }

  // What the rows at the boundaries of level `d` hold, in terms of the plan.
  ghost predicate LevelReady<F(!new)>(k: Suite<F>, plan: Plan<F>, d: nat)
    requires plan.Sized() && d < LEVELS
  {
    var c := plan.children[d];
    && c == Ordered(BitSet(plan.p.index, d), Squeeze(plan.states[LinkRow(d)]), plan.p.siblings[d])
    && plan.starts[3 + 2 * d] == NodeStart(k, c.left, c.right)
    && plan.starts[4 + 2 * d] == NodeAbsorb(k.field, plan.states[LinkRow(d) + 128], c.right.hi)
  }

  lemma LevelsReady<F(!new)>(k: Suite<F>, plan: Plan<F>, d: nat)
    requires Linked(k, plan) && AllBounded(plan)
    requires d < LEVELS
    ensures LevelReady(k, plan, d)
  {
    assert LinkRow(d) == (3 + 2 * d) * BLOCK && LinkRow(d) + 128 == (4 + 2 * d) * BLOCK;
    assert Bounded(plan, 3 + 2 * d) && Bounded(plan, 4 + 2 * d) && LevelFollows(k, plan, d);
  }

  lemma LevelPlaces(d: nat)
    requires d < LEVELS
    ensures LinkRow(d) == (3 + 2 * d) * BLOCK && LinkRow(d) + 128 == (4 + 2 * d) * BLOCK
    ensures LinkRow(d) + 256 == LinkRow(d + 1) && 4 + 2 * d < ACTIVE_BLOCKS - 1
  {
  }

  method FillLevelStates<F(!new)>(
    k: Suite<F>, round: (State<F>, nat) -> State<F>, ghost plan: Plan<F>, cols: array2<F>, d: nat, c: Pair<Limbs<F>>)
    requires Shaped(cols) && Simulated(round, plan)
    requires d < LEVELS && c == plan.children[d] && LevelReady(k, plan, d)
    requires StatesDone(cols, plan, LinkRow(d))
    modifies cols
    ensures StatesDone(cols, plan, LinkRow(d + 1))
    ensures forall c, r :: 4 <= c < TRACE_WIDTH && 0 <= r < TRACE_LEN ==> cols[c, r] == old(cols[c, r])
  {
    var base := LinkRow(d);
    LevelPlaces(d);
    FillPlanned(round, plan, cols, 3 + 2 * d, NodeStart(k, c.left, c.right), base + 128);
    var absorbed := NodeAbsorb(k.field, StateCell(cols, base + 128), c.right.hi);
    assert absorbed == plan.starts[4 + 2 * d];
    FillPlanned(round, plan, cols, 4 + 2 * d, absorbed, base + 256);
  }

  /** The two blocks of Merkle level `d`, and the carried high limb. */
  method FillLevel<F(!new)>(
    k: Suite<F>, round: (State<F>, nat) -> State<F>, p: Private<F>, ghost plan: Plan<F>, cols: array2<F>, d: nat)
    requires Shaped(cols) && plan.p == p && Simulated(round, plan)
    requires d < LEVELS && LevelReady(k, plan, d)
    requires StatesDone(cols, plan, LinkRow(d)) && RHiDone(k.field, cols, plan, LinkRow(d))
    modifies cols
    ensures StatesDone(cols, plan, LinkRow(d + 1))
    ensures RHiDone(k.field, cols, plan, if d == LEVELS - 1 then TRACE_LEN - 1 else LinkRow(d + 1))
    ensures forall c, r :: 4 <= c < TRACE_WIDTH && c != 11 && 0 <= r < TRACE_LEN ==> cols[c, r] == old(cols[c, r])
  {
    var c := Ordered(BitSet(p.index, d), Squeeze(StateCell(cols, LinkRow(d))), p.siblings[d]);
    var end := if d == LEVELS - 1 then TRACE_LEN - 1 else LinkRow(d + 1);
    FillRHi(k.field, plan, cols, d, c.right.hi, end);
    assert StatesDone(cols, plan, LinkRow(d)) by {
      assert forall r :: 0 <= r < TRACE_LEN ==> StateCell(cols, r) == old(StateCell(cols, r));
    }
    label rHi:
    FillLevelStates(k, round, plan, cols, d, c);
    assert forall r :: 0 <= r <= end ==> cols[11, r] == old@rHi(cols[11, r]);
  }

  /** The state columns and the carried high limb, block by block. */
  method FillStates<F(!new)>(
    k: Suite<F>, round: (State<F>, nat) -> State<F>, p: Private<F>, ghost plan: Plan<F>, cols: array2<F>)
    requires Shaped(cols) && plan.p == p && Linked(k, plan) && Simulated(round, plan)
    requires forall r :: 0 <= r < TRACE_LEN ==> cols[11, r] == k.field.zero
    modifies cols
    ensures StatesDone(cols, plan, TRACE_LEN - 1) && RHiDone(k.field, cols, plan, TRACE_LEN - 1)
    ensures forall c, r :: 4 <= c < TRACE_WIDTH && c != 11 && 0 <= r < TRACE_LEN ==> cols[c, r] == old(cols[c, r])
  {
    var f := k.field;
    Boundaries(round, plan);
    var v, cv := f.OfInt(p.v), f.OfInt(p.cv);
    SetState(cols, 0, NullifierStart(k, p.b));
    FillPlanned(round, plan, cols, 0, NullifierStart(k, p.b), 128);
    FillPlanned(round, plan, cols, 1, NoteStart(k, v, p.b), 256);
    assert Bounded(plan, 2);
    FillPlanned(round, plan, cols, 2, Absorb(f, StateCell(cols, 256), p.pkd), 384);
    for d := 0 to LEVELS
      invariant StatesDone(cols, plan, LinkRow(d))
      invariant RHiDone(f, cols, plan, if d == LEVELS then TRACE_LEN - 1 else LinkRow(d))
      invariant forall c, r :: 4 <= c < TRACE_WIDTH && c != 11 && 0 <= r < TRACE_LEN ==> cols[c, r] == old(cols[c, r])
    {
      LevelsReady(k, plan, d);
      FillLevel(k, round, p, plan, cols, d);
    }
    FillChange(k, round, p, plan, cols);
  }

  method FillChange<F(!new)>(
    k: Suite<F>, round: (State<F>, nat) -> State<F>, p: Private<F>, ghost plan: Plan<F>, cols: array2<F>)
    requires Shaped(cols) && plan.p == p && Linked(k, plan) && Simulated(round, plan) && AllBounded(plan)
    requires StatesDone(cols, plan, STEP_LCHG)
    modifies cols
    ensures StatesDone(cols, plan, TRACE_LEN - 1)
    ensures forall c, r :: 4 <= c < TRACE_WIDTH && 0 <= r < TRACE_LEN ==> cols[c, r] == old(cols[c, r])
  {
    FillPlanned(round, plan, cols, 43, NoteStart(k, k.field.OfInt(p.cv), p.cb), STEP_ACHG);
    assert Bounded(plan, 44);
    FillPlanned(round, plan, cols, 44, Absorb(k.field, StateCell(cols, STEP_ACHG), p.cpkd), TRACE_LEN - 1);
  }

  method FillColumns<F(!new)>(
    k: Suite<F>, round: (State<F>, nat) -> State<F>, p: Private<F>, ghost plan: Plan<F>, cols: array2<F>)
    requires Shaped(cols) && plan.p == p && Linked(k, plan) && Simulated(round, plan)
    requires forall c, r :: 0 <= c < TRACE_WIDTH && 0 <= r < TRACE_LEN ==> cols[c, r] == k.field.zero
    modifies cols
    ensures forall r :: 0 <= r < TRACE_LEN ==> RowCells(cols, r) == RowAt(k, plan, r)
  {
    FillCarries(k.field, p, cols);
    FillBits(k.field, p, cols);
    FillRange(k.field, p, cols);
    FillAux(k.field, p, cols);
    FillStates(k, round, p, plan, cols);
  }

  method NewTrace<F(!new)>(k: Suite<F>, round: (State<F>, nat) -> State<F>, p: Private<F>, ghost plan: Plan<F>)
    returns (cols: array2<F>)
    requires plan.p == p && Linked(k, plan) && Simulated(round, plan)
    ensures fresh(cols) && Shaped(cols)
    ensures forall r :: 0 <= r < TRACE_LEN ==> RowCells(cols, r) == RowAt(k, plan, r)
  {
    cols := new F[TRACE_WIDTH, TRACE_LEN]((_, _) => k.field.zero);
    FillColumns(k, round, p, plan, cols);
  }

  /** Filling the columns in place leaves exactly the honest trace of the witness. */
  method BuildSpendTrace<F(!new)>(k: Suite<F>, w: SpendWitness) returns (cols: array2<F>)
    requires w.Valid()
    ensures fresh(cols) && Shaped(cols)
    ensures forall r :: 0 <= r < TRACE_LEN ==> RowCells(cols, r) == RowAt(k, PlanFor(k, Unpacked(k, w)), r)
  {
    var p := Unpacked(k, w);
    ghost var plan := PlanFor(k, p);
    PlanReady(k, p, plan);
    cols := NewTrace(k, k.Round, p, plan);
  }
}
