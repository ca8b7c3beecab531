/** SpendAir v2: the schedule, the twenty-two transition polynomials and the assertions, and what
    the polynomials mean one step at a time. */
module SpendAir {
  import opened Bits
  import opened Fields
  import opened Encoding
  import opened Poseidon

  const TRACE_LEN: nat := 8192
  const BLOCK: nat := 128
  const LEVELS: nat := 20
  const STEP_LNOTE: nat := 128
  const STEP_ANOTE: nat := 256
  const STEP_MRK_BASE: nat := 384
  const STEP_LCHG: nat := 5504
  const STEP_ACHG: nat := 5632
  const ROW_NF_OUT: nat := 65
  const ROW_ROOT: nat := 5441
  const ROW_CLEAF: nat := 5697
  const ACTIVE_BLOCKS: nat := 45
  const CONSTRAINTS: nat := 22

  /** Columns 0-3 are `st`, 4 `bit`, 5 `acc`, 6 `pow`, 7-8 `b`, 9-10 `aux`, 11 `rHi`, 12 `v`, 13 `cv`. */
  datatype Row<F> = Row(
    st: State<F>, bit: F, acc: F, pow: F, b: Limbs<F>, aux: Limbs<F>, rHi: F, v: F, cv: F)

  type Trace<F> = seq<Row<F>>

  /** `SpendPI`. */
  datatype SpendInputs = SpendInputs(
    root: Digest, nullifier: Digest, pkd: Digest, price: U64, changeLeaf: Digest, changePkd: Digest, mode: nat)

  /** The public inputs as the circuit sees them. */
  datatype Statement<F> = Statement(
    root: Limbs<F>, nullifier: Limbs<F>, pkd: Limbs<F>, price: F, changeLeaf: Limbs<F>, changePkd: Limbs<F>, mode: F)

  function ToElements<F(!new)>(f: Field<F>, pi: SpendInputs): Statement<F> {
    Statement(Unpack(f, pi.root), Unpack(f, pi.nullifier), Unpack(f, pi.pkd), f.OfInt(pi.price),
              Unpack(f, pi.changeLeaf), Unpack(f, pi.changePkd), f.OfInt(pi.mode))
  }

  // ----- the schedule -----

  // What a step does to the state columns.
  datatype Op = Permute | Freeze | LinkNote | AbsorbNote | LinkNode | AbsorbNode | LinkChange | AbsorbChange | Idle

  predicate InMerkle(s: nat) {
    STEP_MRK_BASE <= s < STEP_LCHG
  }

  function OpAt(s: nat): Op {
    if s >= ACTIVE_BLOCKS * BLOCK then Idle
    else if 1 <= s % BLOCK <= 64 then Permute
    else if s % BLOCK >= 65 || s == 0 then Freeze
    else if s == STEP_LNOTE then LinkNote
    else if s == STEP_ANOTE then AbsorbNote
    else if s == STEP_LCHG then LinkChange
    else if s == STEP_ACHG then AbsorbChange
    else if (s - STEP_MRK_BASE) % 256 == 0 then LinkNode
    else AbsorbNode
  }

  predicate RangeStep(s: nat) {
    s < 63 || 64 <= s < 127
  }

  predicate AuxFrozen(s: nat) {
    OpAt(s) != LinkNode && OpAt(s) != LinkChange
  }

  predicate BitFrozen(s: nat) {
    InMerkle(s) && OpAt(s) != LinkNode
  }

  /** The periodic columns at one step: the round keys and the fifteen masks. */
  datatype Periodic<F> = Periodic(
    keys: State<F>, isFull: F,
    rnd: F, frz: F, lnote: F, anote: F, lmrk: F, amrk: F, lchg: F, achg: F,
    rstep: F, rst: F, chk2: F, row0: F, auxfrz: F, bitfrz: F, rhifrz: F)

  function KeysAt<F(!new)>(k: Suite<F>, s: nat): State<F> {
    if 1 <= s % BLOCK <= 64 then k.Keys(s % BLOCK - 1)
    else State(k.field.zero, k.field.zero, k.field.zero, k.field.zero)
  }

  function FullAt<F(!new)>(k: Suite<F>, s: nat): F {
    k.field.Bit(1 <= s % BLOCK <= 64 && IsFullRound(s % BLOCK - 1))
  }

  function PeriodicAt<F(!new)>(k: Suite<F>, s: nat): Periodic<F> {
    var f, op := k.field, OpAt(s);
    Periodic(KeysAt(k, s), FullAt(k, s),
             f.Bit(op == Permute), f.Bit(op == Freeze), f.Bit(op == LinkNote), f.Bit(op == AbsorbNote),
             f.Bit(op == LinkNode), f.Bit(op == AbsorbNode), f.Bit(op == LinkChange), f.Bit(op == AbsorbChange),
             f.Bit(RangeStep(s)), f.Bit(s == 63), f.Bit(s == 127), f.Bit(s == 0),
             f.Bit(AuxFrozen(s)), f.Bit(BitFrozen(s)), f.Bit(op != LinkNode))
  }

  // ----- the polynomials -----

  function Mux<F(!new)>(f: Field<F>, bit: F, a: F, b: F): F {
    f.Add(f.Mul(bit, a), f.Mul(f.Sub(f.one, bit), b))
  }

  function MuxLimbs<F(!new)>(f: Field<F>, bit: F, a: Limbs<F>, b: Limbs<F>): Limbs<F> {
    Limbs(Mux(f, bit, a.lo, b.lo), Mux(f, bit, a.hi, b.hi))
  }

  // Constraints 0 to 3: one state column.
  function StateConstraint<F(!new)>(
    f: Field<F>, p: Periodic<F>, n: F, c: F, permuted: F, note: F, node: F, change: F, absorbed: F): F
  {
    f.Sub(
      f.Add(f.Add(f.Add(f.Add(f.Add(
        f.Mul(p.rnd, f.Sub(n, permuted)),
        f.Mul(p.frz, f.Sub(n, c))),
        f.Mul(p.lnote, f.Sub(n, note))),
        f.Mul(p.lmrk, f.Sub(n, node))),
        f.Mul(p.lchg, f.Sub(n, change))),
        f.Mul(f.Add(f.Add(p.anote, p.amrk), p.achg), f.Sub(n, c))),
      absorbed)
  }

  function AbsorbedLo<F(!new)>(f: Field<F>, pi: Statement<F>, p: Periodic<F>, c: Row<F>): F {
    f.Add(f.Add(f.Mul(p.anote, pi.pkd.lo), f.Mul(p.amrk, c.rHi)), f.Mul(p.achg, pi.changePkd.lo))
  }

  function AbsorbedHi<F(!new)>(f: Field<F>, pi: Statement<F>, p: Periodic<F>): F {
    f.Add(f.Mul(p.anote, pi.pkd.hi), f.Mul(p.achg, pi.changePkd.hi))
  }

  // The running value of the range accumulator after the current bit.
  function Accumulated<F(!new)>(f: Field<F>, c: Row<F>): F {
    f.Add(c.acc, f.Mul(c.bit, c.pow))
  }

  /** `evaluate_transition`: the `j`-th constraint on two consecutive rows. */
  function Constraint<F(!new)>(k: Suite<F>, pi: Statement<F>, p: Periodic<F>, c: Row<F>, n: Row<F>, j: nat): F
    requires j < CONSTRAINTS
  {
    var f := k.field;
    var e := RoundMap(f, c.st, p.keys, p.isFull);
    var cur := Squeeze(c.st);
    var l := MuxLimbs(f, n.bit, n.aux, cur);
    var r := MuxLimbs(f, n.bit, cur, n.aux);
    match j
    case 0 => StateConstraint(f, p, n.st.s0, c.st.s0, e.s0, k.noteIv, k.merkleIv, k.noteIv, f.zero)
    case 1 => StateConstraint(f, p, n.st.s1, c.st.s1, e.s1, c.v, l.lo, c.cv, AbsorbedLo(f, pi, p, c))
    case 2 => StateConstraint(f, p, n.st.s2, c.st.s2, e.s2, c.b.lo, l.hi, n.aux.lo, AbsorbedHi(f, pi, p))
    case 3 => StateConstraint(f, p, n.st.s3, c.st.s3, e.s3, c.b.hi, r.lo, n.aux.hi, f.zero)
    case 4 => f.Mul(c.bit, f.Sub(c.bit, f.one))
    case 5 => f.Add(f.Mul(p.rstep, f.Sub(f.Sub(n.acc, c.acc), f.Mul(c.bit, c.pow))), f.Mul(p.rst, n.acc))
    case 6 => f.Add(f.Mul(p.rstep, f.Sub(n.pow, f.Add(c.pow, c.pow))), f.Mul(p.rst, f.Sub(n.pow, f.one)))
    case 7 => f.Add(f.Mul(p.rst, f.Sub(Accumulated(f, c), c.v)), f.Mul(p.chk2, f.Sub(Accumulated(f, c), c.cv)))
    case 8 => f.Sub(n.b.lo, c.b.lo)
    case 9 => f.Sub(n.b.hi, c.b.hi)
    case 10 => f.Sub(n.v, c.v)
    case 11 => f.Sub(n.cv, c.cv)
    case 12 => f.Mul(p.auxfrz, f.Sub(n.aux.lo, c.aux.lo))
    case 13 => f.Mul(p.auxfrz, f.Sub(n.aux.hi, c.aux.hi))
    case 14 => f.Mul(p.bitfrz, f.Sub(n.bit, c.bit))
    case 15 => f.Add(f.Mul(p.lmrk, f.Sub(n.rHi, r.hi)), f.Mul(p.rhifrz, f.Sub(n.rHi, c.rHi)))
    case 16 => f.Sub(f.Sub(c.v, f.Mul(pi.mode, c.cv)), pi.price)
    case 17 => f.Mul(f.Sub(f.one, pi.mode), c.cv)
    case 18 => f.Mul(p.row0, f.Sub(c.st.s0, k.nullifierIv))
    case 19 => f.Mul(p.row0, f.Sub(c.st.s1, c.b.lo))
    case 20 => f.Mul(p.row0, f.Sub(c.st.s2, c.b.hi))
    case 21 => f.Mul(p.row0, c.st.s3)
  }

  ghost predicate Zero<F(!new)>(k: Suite<F>, pi: Statement<F>, s: nat, c: Row<F>, n: Row<F>, j: nat)
    requires j < CONSTRAINTS
  {
    Constraint(k, pi, PeriodicAt(k, s), c, n, j) == k.field.zero
  }

  ghost predicate Vanishes<F(!new)>(k: Suite<F>, pi: Statement<F>, s: nat, c: Row<F>, n: Row<F>) {
    forall j :: 0 <= j < CONSTRAINTS ==> Zero(k, pi, s, c, n, j)
  }

  /** The eight assertions. */
  ghost predicate Asserted<F(!new)>(k: Suite<F>, pi: Statement<F>, t: Trace<F>)
    requires |t| == TRACE_LEN
  {
    && t[0].acc == k.field.zero
    && t[0].pow == k.field.one
    && Squeeze(t[ROW_NF_OUT].st) == pi.nullifier
    && Squeeze(t[ROW_ROOT].st) == pi.root
    && Squeeze(t[ROW_CLEAF].st) == pi.changeLeaf
  }

  /** A trace satisfies the circuit: every constraint vanishes on every pair of consecutive rows and
      the assertions hold. */
  ghost predicate Satisfies<F(!new)>(k: Suite<F>, pi: Statement<F>, t: Trace<F>) {
    && |t| == TRACE_LEN
    && (forall s :: 0 <= s < TRACE_LEN - 1 ==> VanishesAt(k, pi, t, s))
    && Asserted(k, pi, t)
  }

  ghost predicate VanishesAt<F(!new)>(k: Suite<F>, pi: Statement<F>, t: Trace<F>, s: nat)
    requires s + 1 < |t|
  {
    Vanishes(k, pi, s, t[s], t[s + 1])
  }

  // ----- what the polynomials mean -----

  // The value a link or absorb step leaves in the state.
  function NextState<F(!new)>(k: Suite<F>, pi: Statement<F>, s: nat, c: Row<F>, n: Row<F>): State<F> {
    var cur := Squeeze(c.st);
    match OpAt(s)
    case Permute => k.Round(c.st, s % BLOCK - 1)
    case Freeze => c.st
    case LinkNote => NoteStart(k, c.v, c.b)
    case AbsorbNote => Absorb(k.field, c.st, pi.pkd)
    case LinkNode => NodeStart(k, MuxLimbs(k.field, n.bit, n.aux, cur), MuxLimbs(k.field, n.bit, cur, n.aux))
    case AbsorbNode => NodeAbsorb(k.field, c.st, c.rHi)
    case LinkChange => NoteStart(k, c.cv, n.aux)
    case AbsorbChange => Absorb(k.field, c.st, pi.changePkd)
    case Idle => n.st
  }

  predicate RangeOk<F(!new, ==)>(f: Field<F>, s: nat, c: Row<F>, n: Row<F>) {
    && (RangeStep(s) ==> n.acc == Accumulated(f, c) && n.pow == f.Add(c.pow, c.pow))
    && (s == 63 ==> n.acc == f.zero && n.pow == f.one && Accumulated(f, c) == c.v)
    && (s == 127 ==> Accumulated(f, c) == c.cv)
  }

  predicate CarriesOk<F(!new, ==)>(k: Suite<F>, s: nat, c: Row<F>, n: Row<F>) {
    && n.b == c.b && n.v == c.v && n.cv == c.cv
    && (AuxFrozen(s) ==> n.aux == c.aux)
    && (BitFrozen(s) ==> n.bit == c.bit)
    && n.rHi == (if OpAt(s) == LinkNode then Mux(k.field, n.bit, c.st.s2, n.aux.hi) else c.rHi)
  }

  predicate ValuesOk<F(!new, ==)>(k: Suite<F>, pi: Statement<F>, s: nat, c: Row<F>) {
    && (c.bit == k.field.zero || c.bit == k.field.one)
    && c.v == k.field.Add(k.field.Mul(pi.mode, c.cv), pi.price)
    && k.field.Mul(k.field.Sub(k.field.one, pi.mode), c.cv) == k.field.zero
    && (s == 0 ==> c.st == NullifierStart(k, c.b))
  }

  /** One step read as an instruction, without polynomials. */
  predicate StepOk<F(!new, ==)>(k: Suite<F>, pi: Statement<F>, s: nat, c: Row<F>, n: Row<F>) {
    n.st == NextState(k, pi, s, c, n) && RangeOk(k.field, s, c, n) && CarriesOk(k, s, c, n) && ValuesOk(k, pi, s, c)
  }

  // What one state column must hold after the step.
  function NextColumn<F(!new)>(
    f: Field<F>, op: Op, n: F, c: F, permuted: F, note: F, node: F, change: F, absorbed: F): F
  {
    match op
    case Permute => permuted
    case Freeze => c
    case LinkNote => note
    case LinkNode => node
    case LinkChange => change
    case Idle => n
    case _ => f.Add(c, absorbed)
  }

  /** The masks are one-hot, so a state constraint vanishes exactly when its column takes the value
      of the scheduled instruction. */
  lemma StateConstraintSelects<F(!new)>(
    k: Suite<F>, s: nat, n: F, c: F, permuted: F, note: F, node: F, change: F, absorbed: F)
    requires k.field.Lawful()
    requires OpAt(s) in {AbsorbNote, AbsorbNode, AbsorbChange} || absorbed == k.field.zero
    ensures StateConstraint(k.field, PeriodicAt(k, s), n, c, permuted, note, node, change, absorbed) == k.field.zero
       <==> n == NextColumn(k.field, OpAt(s), n, c, permuted, note, node, change, absorbed)
  {
  }

  lemma AbsorbedSelects<F(!new)>(k: Suite<F>, pi: Statement<F>, s: nat, c: Row<F>)
    requires k.field.Lawful()
    ensures AbsorbedLo(k.field, pi, PeriodicAt(k, s), c)
         == match OpAt(s)
            case AbsorbNote => pi.pkd.lo
            case AbsorbNode => c.rHi
            case AbsorbChange => pi.changePkd.lo
            case _ => k.field.zero
    ensures AbsorbedHi(k.field, pi, PeriodicAt(k, s))
         == match OpAt(s)
            case AbsorbNote => pi.pkd.hi
            case AbsorbChange => pi.changePkd.hi
            case _ => k.field.zero
  {
  }

  lemma KeysSelect<F(!new)>(k: Suite<F>, s: nat, c: State<F>)
    requires OpAt(s) == Permute
    ensures RoundMap(k.field, c, KeysAt(k, s), FullAt(k, s)) == k.Round(c, s % BLOCK - 1)
  {
  }

  lemma StateMeaning<F(!new)>(k: Suite<F>, pi: Statement<F>, s: nat, c: Row<F>, n: Row<F>)
    requires k.field.Lawful()
    ensures (Zero(k, pi, s, c, n, 0) && Zero(k, pi, s, c, n, 1) && Zero(k, pi, s, c, n, 2) && Zero(k, pi, s, c, n, 3))
       <==> n.st == NextState(k, pi, s, c, n)
  {
    var f, p, cur := k.field, PeriodicAt(k, s), Squeeze(c.st);
    var e := RoundMap(f, c.st, p.keys, p.isFull);
    var l, r := MuxLimbs(f, n.bit, n.aux, cur), MuxLimbs(f, n.bit, cur, n.aux);
    AbsorbedSelects(k, pi, s, c);
    StateConstraintSelects(k, s, n.st.s0, c.st.s0, e.s0, k.noteIv, k.merkleIv, k.noteIv, f.zero);
    StateConstraintSelects(k, s, n.st.s1, c.st.s1, e.s1, c.v, l.lo, c.cv, AbsorbedLo(f, pi, p, c));
    StateConstraintSelects(k, s, n.st.s2, c.st.s2, e.s2, c.b.lo, l.hi, n.aux.lo, AbsorbedHi(f, pi, p));
    StateConstraintSelects(k, s, n.st.s3, c.st.s3, e.s3, c.b.hi, r.lo, n.aux.hi, f.zero);
    if OpAt(s) == Permute {
      KeysSelect(k, s, c.st);
    }
  }

  lemma RangeMeaning<F(!new)>(k: Suite<F>, pi: Statement<F>, s: nat, c: Row<F>, n: Row<F>)
    requires k.field.Lawful()
    ensures (Zero(k, pi, s, c, n, 5) && Zero(k, pi, s, c, n, 6) && Zero(k, pi, s, c, n, 7))
       <==> RangeOk(k.field, s, c, n)
  {
  }

  lemma CarriesMeaning<F(!new)>(k: Suite<F>, pi: Statement<F>, s: nat, c: Row<F>, n: Row<F>)
    requires k.field.Lawful()
    ensures (Zero(k, pi, s, c, n, 8) && Zero(k, pi, s, c, n, 9) && Zero(k, pi, s, c, n, 10) && Zero(k, pi, s, c, n, 11)
      && Zero(k, pi, s, c, n, 12) && Zero(k, pi, s, c, n, 13) && Zero(k, pi, s, c, n, 14) && Zero(k, pi, s, c, n, 15))
       <==> CarriesOk(k, s, c, n)
  {
  }

  lemma ValuesMeaning<F(!new)>(k: Suite<F>, pi: Statement<F>, s: nat, c: Row<F>, n: Row<F>)
    requires k.field.Lawful()
    ensures (Zero(k, pi, s, c, n, 4) && Zero(k, pi, s, c, n, 16) && Zero(k, pi, s, c, n, 17)
      && Zero(k, pi, s, c, n, 18) && Zero(k, pi, s, c, n, 19) && Zero(k, pi, s, c, n, 20) && Zero(k, pi, s, c, n, 21))
       <==> ValuesOk(k, pi, s, c)
  {
  }

  /** The twenty-two polynomials vanish at a step exactly when the scheduled instruction was carried
      out there. */
  lemma StepMeaning<F(!new)>(k: Suite<F>, pi: Statement<F>, s: nat, c: Row<F>, n: Row<F>)
    requires k.field.Lawful()
    ensures Vanishes(k, pi, s, c, n) <==> StepOk(k, pi, s, c, n)
  {
    StateMeaning(k, pi, s, c, n);
    RangeMeaning(k, pi, s, c, n);
    CarriesMeaning(k, pi, s, c, n);
    ValuesMeaning(k, pi, s, c, n);
  }
}
