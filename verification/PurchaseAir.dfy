/** The legacy PurchaseAir: what its seven polynomials mean step by step, and exactly when they can be
    satisfied. The bridge step switches every constraint off, so the input commitment and the change
    commitment are opened independently of each other. */
module PurchaseAir {
  import opened Bits
  import opened Fields
  import opened Encoding
  import opened Poseidon
  import opened Blocks

  const TRACE_LEN: nat := 512
  const RANGE_ROWS: nat := 64
  const BRIDGE_STEP: nat := 191
  const ROW_COMMITMENT: nat := 128
  const ROW_CHANGE_START: nat := 192
  const ROW_CHANGE: nat := 256
  const CONSTRAINTS: nat := 7

  /** Columns 0-3 are `st`, 4 `bit`, 5 `acc`, 6 `pow`. */
  datatype Row<F> = Row(st: State<F>, bit: F, acc: F, pow: F)

  type Trace<F> = seq<Row<F>>

  predicate PermuteStep(s: nat) {
    64 <= s < 128 || 192 <= s < 256
  }

  // The round keys repeat every 64 steps.
  datatype Periodic<F> = Periodic(pos: F, rng: F, lnk: F, bridge: F, keys: State<F>, isFull: F)

  function PeriodicAt<F(!new)>(k: Suite<F>, s: nat): Periodic<F> {
    Periodic(k.field.Bit(PermuteStep(s)), k.field.Bit(s < 64), k.field.Bit(s == 63), k.field.Bit(s == BRIDGE_STEP),
             k.Keys(s % ROUNDS), k.field.Bit(IsFullRound(s % ROUNDS)))
  }

  // Columns 0, 2 and 3.
  function HoldOrPermute<F(!new)>(f: Field<F>, p: Periodic<F>, n: F, c: F, permuted: F): F {
    f.Add(f.Sub(n, c), f.Mul(p.pos, f.Sub(c, permuted)))
  }

  // Column 1, which the link step sets to the accumulator plus the price.
  function ValueConstraint<F(!new)>(f: Field<F>, price: F, p: Periodic<F>, n: Row<F>, c: F, permuted: F): F {
    f.Add(f.Mul(p.pos, f.Sub(n.st.s1, permuted)),
          f.Mul(f.Sub(f.one, p.pos),
                f.Add(f.Mul(f.Sub(f.one, p.lnk), f.Sub(n.st.s1, c)),
                      f.Mul(p.lnk, f.Sub(f.Sub(n.st.s1, n.acc), price)))))
  }

  function RangeOrHold<F(!new)>(f: Field<F>, p: Periodic<F>, ranged: F, held: F): F {
    f.Add(f.Mul(p.rng, ranged), f.Mul(f.Sub(f.one, p.rng), held))
  }

  function Constraint<F(!new)>(k: Suite<F>, price: F, p: Periodic<F>, c: Row<F>, n: Row<F>, j: nat): F
    requires j < CONSTRAINTS
  {
    var f := k.field;
    var e := RoundMap(f, c.st, p.keys, p.isFull);
    f.Mul(f.Sub(f.one, p.bridge),
      match j
      case 0 => HoldOrPermute(f, p, n.st.s0, c.st.s0, e.s0)
      case 1 => ValueConstraint(f, price, p, n, c.st.s1, e.s1)
      case 2 => HoldOrPermute(f, p, n.st.s2, c.st.s2, e.s2)
      case 3 => HoldOrPermute(f, p, n.st.s3, c.st.s3, e.s3)
      case 4 => RangeOrHold(f, p, f.Mul(c.bit, f.Sub(c.bit, f.one)), f.Sub(n.bit, c.bit))
      case 5 => RangeOrHold(f, p, f.Sub(n.acc, f.Add(c.acc, f.Mul(c.bit, c.pow))), f.Sub(n.acc, c.acc))
      case 6 => RangeOrHold(f, p, f.Sub(n.pow, f.Add(c.pow, c.pow)), f.Sub(n.pow, c.pow)))
  }

  ghost predicate Zero<F(!new)>(k: Suite<F>, price: F, s: nat, c: Row<F>, n: Row<F>, j: nat)
    requires j < CONSTRAINTS
  {
    Constraint(k, price, PeriodicAt(k, s), c, n, j) == k.field.zero
  }

  ghost predicate Vanishes<F(!new)>(k: Suite<F>, price: F, s: nat, c: Row<F>, n: Row<F>) {
    forall j :: 0 <= j < CONSTRAINTS ==> Zero(k, price, s, c, n, j)
  }

  ghost predicate VanishesAt<F(!new)>(k: Suite<F>, price: F, t: Trace<F>, s: nat)
    requires s + 1 < |t|
  {
    Vanishes(k, price, s, t[s], t[s + 1])
  }

  function ZeroBytes(): Digest {
    seq(32, _ => 0)
  }

  /** The commitment that the change side is checked against: that of the value 0 under the zero blinding
      when there is no change note. */
  function ChangeTarget<F(!new)>(k: Suite<F>, change: Digest): Digest {
    if change == ZeroBytes() then CommitmentHash(k, 0, ZeroBytes()) else change
  }

  /** The eight assertions. */
  ghost predicate Asserted<F(!new)>(k: Suite<F>, commitment: Digest, change: Digest, t: Trace<F>)
    requires |t| == TRACE_LEN
  {
    && t[0].acc == k.field.zero && t[0].pow == k.field.one
    && t[RANGE_ROWS].st.s0 == k.poseidonIv
    && Squeeze(t[ROW_COMMITMENT].st) == k.LimbsOf(commitment)
    && t[ROW_CHANGE_START].st.s0 == k.poseidonIv
    && Squeeze(t[ROW_CHANGE].st) == k.LimbsOf(ChangeTarget(k, change))
  }

  ghost predicate Satisfies<F(!new)>(k: Suite<F>, commitment: Digest, change: Digest, price: U64, t: Trace<F>) {
    && |t| == TRACE_LEN
    && (forall s :: 0 <= s < TRACE_LEN - 1 ==> VanishesAt(k, k.field.OfInt(price), t, s))
    && Asserted(k, commitment, change, t)
  }

  // ----- what the polynomials mean -----

  predicate StateOk<F(!new, ==)>(k: Suite<F>, price: F, s: nat, c: Row<F>, n: Row<F>) {
    if 64 <= s < 128 || 192 <= s < 256 then n.st == k.Round(c.st, s % 64)
    else n.st == c.st.(s1 := if s == 63 then k.field.Add(n.acc, price) else c.st.s1)
  }

  predicate RangeOk<F(!new, ==)>(f: Field<F>, s: nat, c: Row<F>, n: Row<F>) {
    if s < 64 then
      && (c.bit == f.zero || c.bit == f.one)
      && n.acc == f.Add(c.acc, f.Mul(c.bit, c.pow))
      && n.pow == f.Add(c.pow, c.pow)
    else n.bit == c.bit && n.acc == c.acc && n.pow == c.pow
  }

  /** One step without polynomials: 64 bits are accumulated, the price is added to them, a permutation
      runs, one step does nothing at all, and another permutation runs. */
  predicate StepOk<F(!new, ==)>(k: Suite<F>, price: F, s: nat, c: Row<F>, n: Row<F>) {
    s == 191 || (StateOk(k, price, s, c, n) && RangeOk(k.field, s, c, n))
  }

  lemma BridgeFree<F(!new)>(k: Suite<F>, price: F, c: Row<F>, n: Row<F>)
    requires k.field.Lawful()
    ensures Vanishes(k, price, 191, c, n)
  {
    assert k.field.Sub(k.field.one, k.field.one) == k.field.zero;
    forall j | 0 <= j < CONSTRAINTS ensures Zero(k, price, 191, c, n, j) {
    }
  }

  lemma HoldMeaning<F(!new)>(f: Field<F>, p: Periodic<F>, permutes: bool, n: F, c: F, permuted: F)
    requires f.Lawful() && p.pos == f.Bit(permutes)
    ensures HoldOrPermute(f, p, n, c, permuted) == f.zero <==> n == if permutes then permuted else c
  {
  }

  lemma ValueMeaning<F(!new)>(
    f: Field<F>, price: F, p: Periodic<F>, permutes: bool, links: bool, n: Row<F>, c: F, permuted: F)
    requires f.Lawful() && p.pos == f.Bit(permutes) && p.lnk == f.Bit(links)
    ensures ValueConstraint(f, price, p, n, c, permuted) == f.zero
       <==> n.st.s1 == if permutes then permuted else if links then f.Add(n.acc, price) else c
  {
    assert f.Sub(f.one, f.one) == f.zero;
  }

  lemma StateMeaning<F(!new)>(k: Suite<F>, price: F, s: nat, c: Row<F>, n: Row<F>)
    requires k.field.Lawful() && s != 191
    ensures (Zero(k, price, s, c, n, 0) && Zero(k, price, s, c, n, 1)
          && Zero(k, price, s, c, n, 2) && Zero(k, price, s, c, n, 3)) <==> StateOk(k, price, s, c, n)
  {
    var f, p := k.field, PeriodicAt(k, s);
    var e := RoundMap(f, c.st, p.keys, p.isFull);
    assert e == k.Round(c.st, s % 64);
    HoldMeaning(f, p, PermuteStep(s), n.st.s0, c.st.s0, e.s0);
    ValueMeaning(f, price, p, PermuteStep(s), s == 63, n, c.st.s1, e.s1);
    HoldMeaning(f, p, PermuteStep(s), n.st.s2, c.st.s2, e.s2);
    HoldMeaning(f, p, PermuteStep(s), n.st.s3, c.st.s3, e.s3);
  }

  lemma RangeMeaning<F(!new)>(k: Suite<F>, price: F, s: nat, c: Row<F>, n: Row<F>)
    requires k.field.Lawful() && s != 191
    ensures (Zero(k, price, s, c, n, 4) && Zero(k, price, s, c, n, 5) && Zero(k, price, s, c, n, 6))
       <==> RangeOk(k.field, s, c, n)
  {
    assert k.field.Sub(k.field.one, k.field.one) == k.field.zero;
  }

  /** The seven polynomials vanish at a step exactly when it did what the schedule says. */
  lemma StepMeaning<F(!new)>(k: Suite<F>, price: F, s: nat, c: Row<F>, n: Row<F>)
    requires k.field.Lawful()
    ensures Vanishes(k, price, s, c, n) <==> StepOk(k, price, s, c, n)
  {
    if s == 191 {
      BridgeFree(k, price, c, n);
    } else {
      StateMeaning(k, price, s, c, n);
      RangeMeaning(k, price, s, c, n);
    }
  }

  ghost predicate StepAt<F(!new)>(k: Suite<F>, price: F, t: Trace<F>, s: nat)
    requires s + 1 < |t|
  {
    StepOk(k, price, s, t[s], t[s + 1])
  }

  ghost predicate Runs<F(!new)>(k: Suite<F>, price: F, t: Trace<F>) {
    |t| == TRACE_LEN && forall s :: 0 <= s < TRACE_LEN - 1 ==> StepAt(k, price, t, s)
  }

  lemma SatisfiedRuns<F(!new)>(k: Suite<F>, commitment: Digest, change: Digest, price: U64, t: Trace<F>)
    requires k.field.Lawful()
    ensures Satisfies(k, commitment, change, price, t)
       <==> (Runs(k, k.field.OfInt(price), t) && Asserted(k, commitment, change, t))
  {
    var pf := k.field.OfInt(price);
    if |t| == TRACE_LEN {
      forall s | 0 <= s < TRACE_LEN - 1 ensures VanishesAt(k, pf, t, s) <==> StepAt(k, pf, t, s) {
        StepMeaning(k, pf, s, t[s], t[s + 1]);
      }
    }
  }

  // ----- soundness -----

  function RowBits<F(!new, ==)>(f: Field<F>, t: Trace<F>, n: nat): (bs: seq<bool>)
    requires n <= |t|
    ensures |bs| == n && forall i :: 0 <= i < n ==> bs[i] == (t[i].bit == f.one)
  {
    seq(n, i requires 0 <= i < n => t[i].bit == f.one)
  }

  // The integer whose bits the first `n` rows hold.
  function RowsValue<F(!new, ==)>(f: Field<F>, t: Trace<F>, n: nat): nat
    requires n <= |t|
  {
    FromBits(RowBits(f, t, n))
  }

  lemma BitCounts<F(!new)>(f: Field<F>, c: Row<F>, n: Row<F>, seen: nat, p: nat)
    requires f.Lawful() && RangeOk(f, 0, c, n)
    requires c.acc == f.OfInt(seen) && c.pow == f.OfInt(p)
    ensures n.acc == f.OfInt(seen + if c.bit == f.one then p else 0) && n.pow == f.OfInt(2 * p)
  {
    assert f.AddsAt(seen, p) && f.AddsAt(p, p);
  }

  lemma {:induction false} AccumulatorCounts<F(!new)>(k: Suite<F>, price: F, t: Trace<F>, n: nat)
    requires k.field.Lawful() && Runs(k, price, t)
    requires t[0].acc == k.field.zero && t[0].pow == k.field.one
    requires n <= 64
    ensures t[n].acc == k.field.OfInt(RowsValue(k.field, t, n)) && t[n].pow == k.field.OfInt(Pow2(n))
  {
    if n > 0 {
      var bs := RowBits(k.field, t, n - 1);
      AccumulatorCounts(k, price, t, n - 1);
      assert StepAt(k, price, t, n - 1);
      assert RowBits(k.field, t, n) == bs + [t[n - 1].bit == k.field.one];
      FromBitsAppend(bs, t[n - 1].bit == k.field.one);
      BitCounts(k.field, t[n - 1], t[n], FromBits(bs), Pow2(n - 1));
    }
  }

  lemma PermuteRow<F(!new)>(k: Suite<F>, price: F, t: Trace<F>, base: nat, i: nat)
    requires Runs(k, price, t)
    requires base in {63, 191} && base < i <= base + 64
    ensures t[i + 1].st == k.Round(t[i].st, i - base - 1)
  {
    assert StepAt(k, price, t, i);
    assert i % 64 == i - base - 1;
  }

  // The sixty-four steps after `base` run the permutation.
  lemma RoundsRun<F(!new)>(k: Suite<F>, price: F, t: Trace<F>, base: nat)
    requires Runs(k, price, t) && base in {63, 191}
    ensures t[base + 65].st == Perm(k, t[base + 1].st)
  {
    var sts := States(t, (r: Row<F>) => r.st);
    forall i | base < i <= base + 64 ensures StepsAt(k.Round, sts, base, i) {
      PermuteRow(k, price, t, base, i);
    }
    RunSteps(k.Round, sts, base, ROUNDS);
  }

  /** The link step adds the price to the accumulated 64-bit remainder. */
  lemma LinkedValue<F(!new)>(k: Suite<F>, price: U64, t: Trace<F>)
    requires k.field.Lawful() && Runs(k, k.field.OfInt(price), t)
    requires t[0].acc == k.field.zero && t[0].pow == k.field.one
    ensures RowsValue(k.field, t, 64) < U64_BOUND
    ensures t[RANGE_ROWS].st.s1 == k.field.OfInt(RowsValue(k.field, t, 64) + price)
  {
    var pf, rest := k.field.OfInt(price), RowsValue(k.field, t, 64);
    assert rest < Pow2(64);
    AccumulatorCounts(k, pf, t, 64);
    Pow2Of64();
    assert StepAt(k, pf, t, 63) && k.field.AddsAt(rest, price);
  }

  lemma DigestOfState<F(!new)>(k: Suite<F>, s: State<F>)
    requires s.s0 == k.poseidonIv
    ensures CommitmentDigest(k, s.s1, Limbs(s.s2, s.s3)) == Squeeze(Perm(k, s))
  {
    assert s == State(k.poseidonIv, s.s1, s.s2, s.s3);
  }

  // The rows from `base + 1` open the commitment with whatever they hold behind the initial value.
  lemma CommitmentRow<F(!new)>(k: Suite<F>, price: F, t: Trace<F>, base: nat)
    requires Runs(k, price, t) && base in {63, 191}
    requires t[base + 1].st.s0 == k.poseidonIv
    ensures CommitmentDigest(k, t[base + 1].st.s1, Limbs(t[base + 1].st.s2, t[base + 1].st.s3))
         == Squeeze(t[base + 65].st)
  {
    RoundsRun(k, price, t, base);
    DigestOfState(k, t[base + 1].st);
  }

  lemma InputOpened<F(!new)>(k: Suite<F>, price: U64, t: Trace<F>)
    requires k.field.Lawful() && Runs(k, k.field.OfInt(price), t)
    requires t[0].acc == k.field.zero && t[0].pow == k.field.one && t[RANGE_ROWS].st.s0 == k.poseidonIv
    ensures var w := Extract(k, price, t);
      && price <= w.v < price + U64_BOUND
      && CommitmentDigest(k, k.field.OfInt(w.v), w.b) == Squeeze(t[ROW_COMMITMENT].st)
  {
    LinkedValue(k, price, t);
    CommitmentRow(k, k.field.OfInt(price), t, 63);
  }

  /** Any satisfying trace contains an opening of the input commitment under the fixed IV, with a value
      that lies between the price and the price plus 2^64 as integers, and some opening of the change. */
  lemma InputOpens<F(!new)>(k: Suite<F>, commitment: Digest, change: Digest, price: U64, t: Trace<F>)
    requires k.field.Lawful()
    requires Satisfies(k, commitment, change, price, t)
    ensures Opens(k, commitment, change, price, Extract(k, price, t))
  {
    SatisfiedRuns(k, commitment, change, price, t);
    InputOpened(k, price, t);
    CommitmentRow(k, k.field.OfInt(price), t, 191);
  }

  // ----- the traces -----

  // The integer below 2^64 that the value exceeds the price by, up to the bits that row `r` has counted.
  function LowBits(rest: U64, r: nat): nat {
    FromBits(ToBits(rest, if r < 64 then r else 64))
  }

  /** The cells that a prover may choose freely: the value column before the link, the bit after the range
      rows, and the range columns after the bridge. */
  datatype Free<F> = Free(value: F, bit: F, lastBit: F, lastAcc: F, lastPow: F)

  /** Row `r` of the trace that starts its permutations from `first` and `second`. */
  function RowAt<F(!new)>(
    f: Field<F>, round: (State<F>, nat) -> State<F>, first: State<F>, second: State<F>, rest: U64, free: Free<F>,
    r: nat): Row<F>
  {
    if r < 64 then Row(first.(s1 := free.value), f.Bit(BitSet(rest, r)), f.OfInt(LowBits(rest, r)), f.OfInt(Pow2(r)))
    else if r < 192 then
      Row(BlockState(round, first, r - 64), free.bit, f.OfInt(LowBits(rest, 64)), f.OfInt(Pow2(64)))
    else Row(BlockState(round, second, r - 192), free.lastBit, free.lastAcc, free.lastPow)
  }

  lemma RowsCount<F(!new)>(
    f: Field<F>, round: (State<F>, nat) -> State<F>, first: State<F>, second: State<F>, rest: U64, free: Free<F>,
    s: nat)
    requires f.Lawful() && s != 191
    ensures RangeOk(f, s, RowAt(f, round, first, second, rest, free, s),
                    RowAt(f, round, first, second, rest, free, s + 1))
  {
    if s < 64 {
      assert ToBits(rest, s + 1) == ToBits(rest, s) + [BitSet(rest, s)];
      FromBitsAppend(ToBits(rest, s), BitSet(rest, s));
      assert f.AddsAt(FromBits(ToBits(rest, s)), Pow2(s)) && f.AddsAt(Pow2(s), Pow2(s));
    }
  }

  lemma RestCounted<F(!new)>(f: Field<F>, rest: U64, price: U64)
    requires f.Lawful()
    ensures f.Add(f.OfInt(LowBits(rest, 64)), f.OfInt(price)) == f.OfInt(rest + price)
  {
    Pow2Of64();
    FromToBits(rest, 64);
    assert f.AddsAt(rest, price);
  }

  lemma RowsPermute<F(!new)>(
    f: Field<F>, round: (State<F>, nat) -> State<F>, first: State<F>, second: State<F>, rest: U64, free: Free<F>,
    s: nat)
    requires 64 <= s < 128 || 192 <= s < 256
    ensures RowAt(f, round, first, second, rest, free, s + 1).st
         == round(RowAt(f, round, first, second, rest, free, s).st, s % 64)
  {
    assert s % 64 == if s < 128 then s - 64 else s - 192;
  }

  lemma RowsHold<F(!new)>(
    f: Field<F>, round: (State<F>, nat) -> State<F>, first: State<F>, second: State<F>, rest: U64, free: Free<F>,
    price: U64, s: nat)
    requires f.Lawful() && first.s1 == f.OfInt(rest + price)
    requires s < 64 || 128 <= s < 191 || 256 <= s
    ensures
      var c, n := RowAt(f, round, first, second, rest, free, s), RowAt(f, round, first, second, rest, free, s + 1);
      n.st == c.st.(s1 := if s == 63 then f.Add(n.acc, f.OfInt(price)) else c.st.s1)
  {
    if s == 63 {
      RestCounted(f, rest, price);
    }
  }

  function HonestTrace<F(!new)>(
    f: Field<F>, round: (State<F>, nat) -> State<F>, first: State<F>, second: State<F>, rest: U64, free: Free<F>)
    : (t: Trace<F>)
    ensures |t| == TRACE_LEN
    ensures forall r :: 0 <= r < TRACE_LEN ==> t[r] == RowAt(f, round, first, second, rest, free, r)
  {
    seq(TRACE_LEN, r requires 0 <= r < TRACE_LEN => RowAt(f, round, first, second, rest, free, r))
  }

  lemma HonestRuns<F(!new)>(k: Suite<F>, price: U64, first: State<F>, second: State<F>, rest: U64, free: Free<F>)
    requires k.field.Lawful() && first.s1 == k.field.OfInt(rest + price)
    ensures Runs(k, k.field.OfInt(price), HonestTrace(k.field, k.Round, first, second, rest, free))
  {
    var pf, t := k.field.OfInt(price), HonestTrace(k.field, k.Round, first, second, rest, free);
    forall s | 0 <= s < TRACE_LEN - 1 ensures StepAt(k, pf, t, s) {
      if s != 191 {
        if 64 <= s < 128 || 192 <= s < 256 {
          RowsPermute(k.field, k.Round, first, second, rest, free, s);
        } else {
          RowsHold(k.field, k.Round, first, second, rest, free, price, s);
        }
        RowsCount(k.field, k.Round, first, second, rest, free, s);
      }
    }
  }

  lemma HonestAsserts<F(!new)>(
    k: Suite<F>, commitment: Digest, change: Digest, first: State<F>, second: State<F>, rest: U64, free: Free<F>)
    requires k.field.Lawful() && first.s0 == second.s0 == k.poseidonIv
    requires Squeeze(Perm(k, first)) == k.LimbsOf(commitment)
    requires Squeeze(Perm(k, second)) == k.LimbsOf(ChangeTarget(k, change))
    ensures Asserted(k, commitment, change, HonestTrace(k.field, k.Round, first, second, rest, free))
  {
  }

  lemma StatesSatisfy<F(!new)>(
    k: Suite<F>, commitment: Digest, change: Digest, price: U64, first: State<F>, second: State<F>, rest: U64,
    free: Free<F>)
    requires k.field.Lawful() && first.s0 == second.s0 == k.poseidonIv && first.s1 == k.field.OfInt(rest + price)
    requires Squeeze(Perm(k, first)) == k.LimbsOf(commitment)
    requires Squeeze(Perm(k, second)) == k.LimbsOf(ChangeTarget(k, change))
    ensures Satisfies(k, commitment, change, price, HonestTrace(k.field, k.Round, first, second, rest, free))
  {
    HonestRuns(k, price, first, second, rest, free);
    HonestAsserts(k, commitment, change, first, second, rest, free);
    SatisfiedRuns(k, commitment, change, price, HonestTrace(k.field, k.Round, first, second, rest, free));
  }

  /** What a purchase opens: the input note, and whatever the change commitment hides. */
  datatype Opening<F> = Opening(v: nat, b: Limbs<F>, change: F, cb: Limbs<F>)

  ghost predicate Opens<F(!new)>(k: Suite<F>, commitment: Digest, change: Digest, price: U64, w: Opening<F>) {
    && price <= w.v < price + 0x1_0000_0000_0000_0000
    && CommitmentDigest(k, k.field.OfInt(w.v), w.b) == k.LimbsOf(commitment)
    && CommitmentDigest(k, w.change, w.cb) == k.LimbsOf(ChangeTarget(k, change))
  }

  function Extract<F(!new, ==)>(k: Suite<F>, price: U64, t: Trace<F>): Opening<F>
    requires |t| == TRACE_LEN
  {
    var first, second := t[RANGE_ROWS].st, t[ROW_CHANGE_START].st;
    Opening(RowsValue(k.field, t, 64) + price, Limbs(first.s2, first.s3), second.s1, Limbs(second.s2, second.s3))
  }

  /** The trace of an opening, with the free cells as given. */
  function TraceOf<F(!new)>(k: Suite<F>, price: U64, w: Opening<F>, free: Free<F>): Trace<F>
    requires price <= w.v < price + U64_BOUND
  {
    HonestTrace(k.field, k.Round, State(k.poseidonIv, k.field.OfInt(w.v), w.b.lo, w.b.hi),
                State(k.poseidonIv, w.change, w.cb.lo, w.cb.hi), w.v - price, free)
  }

  /** Every opening gives satisfying traces, whatever the free cells hold. */
  lemma OpeningSatisfies<F(!new)>(
    k: Suite<F>, commitment: Digest, change: Digest, price: U64, w: Opening<F>, free: Free<F>)
    requires k.field.Lawful() && Opens(k, commitment, change, price, w)
    ensures Satisfies(k, commitment, change, price, TraceOf(k, price, w, free))
  {
    StatesSatisfy(k, commitment, change, price, State(k.poseidonIv, k.field.OfInt(w.v), w.b.lo, w.b.hi),
                  State(k.poseidonIv, w.change, w.cb.lo, w.cb.hi), w.v - price, free);
  }

  // The free cells that a trace chose.
  function Chosen<F>(t: Trace<F>): Free<F>
    requires |t| == TRACE_LEN
  {
    Free(t[0].st.s1, t[RANGE_ROWS].bit, t[ROW_CHANGE_START].bit, t[ROW_CHANGE_START].acc, t[ROW_CHANGE_START].pow)
  }

  lemma {:induction false} StartHeld<F(!new)>(k: Suite<F>, price: F, t: Trace<F>, r: nat)
    requires Runs(k, price, t) && r <= 64
    ensures t[r].st == t[0].st.(s1 := t[r].st.s1) && (r < 64 ==> t[r].st == t[0].st)
  {
    if r > 0 {
      StartHeld(k, price, t, r - 1);
      assert StepAt(k, price, t, r - 1);
    }
  }

  // The cells that a row fixes freely: a bit in the rows up to the link, and all of the row after the bridge.
  ghost predicate SameChoice<F(!new)>(t: Trace<F>, h: Trace<F>, r: nat)
    requires r < |t| && r < |h|
  {
    && (r <= 64 ==> t[r].bit == h[r].bit)
    && (r == 192 ==> t[r] == h[r])
  }

  lemma {:induction false} RowsForced<F(!new)>(k: Suite<F>, price: F, t: Trace<F>, h: Trace<F>, r: nat)
    requires Runs(k, price, t) && Runs(k, price, h) && t[0] == h[0]
    requires forall i :: 0 <= i < TRACE_LEN ==> SameChoice(t, h, i)
    requires r < TRACE_LEN
    ensures t[r] == h[r]
  {
    if r > 0 {
      RowsForced(k, price, t, h, r - 1);
      assert StepAt(k, price, t, r - 1) && StepAt(k, price, h, r - 1) && SameChoice(t, h, r);
    }
  }

  lemma BitsRead<F(!new)>(k: Suite<F>, price: F, t: Trace<F>, r: nat)
    requires k.field.Lawful() && Runs(k, price, t) && r < 64
    ensures t[r].bit == k.field.Bit(BitSet(RowsValue(k.field, t, 64), r))
  {
    assert StepAt(k, price, t, r);
    FromBitsAt(RowBits(k.field, t, 64), r);
  }

  lemma ChoicesSame<F(!new)>(k: Suite<F>, price: U64, t: Trace<F>, h: Trace<F>, r: nat)
    requires k.field.Lawful() && Runs(k, k.field.OfInt(price), t)
    requires t[0].acc == k.field.zero && t[0].pow == k.field.one
    requires t[RANGE_ROWS].st.s0 == t[ROW_CHANGE_START].st.s0 == k.poseidonIv
    requires RowsValue(k.field, t, 64) < U64_BOUND && h == TraceOf(k, price, Extract(k, price, t), Chosen(t))
    requires r < TRACE_LEN
    ensures SameChoice(t, h, r)
  {
    if r < 64 {
      BitsRead(k, k.field.OfInt(price), t, r);
    }
  }

  lemma FirstSame<F(!new)>(k: Suite<F>, price: U64, t: Trace<F>, h: Trace<F>)
    requires k.field.Lawful() && Runs(k, k.field.OfInt(price), t)
    requires t[0].acc == k.field.zero && t[0].pow == k.field.one && t[RANGE_ROWS].st.s0 == k.poseidonIv
    requires RowsValue(k.field, t, 64) < U64_BOUND && h == TraceOf(k, price, Extract(k, price, t), Chosen(t))
    ensures t[0] == h[0]
  {
    BitsRead(k, k.field.OfInt(price), t, 0);
    StartHeld(k, k.field.OfInt(price), t, 64);
  }

  /** A satisfying trace is the trace of the opening that it carries, in every cell. */
  lemma SatisfyingIsHonest<F(!new)>(k: Suite<F>, commitment: Digest, change: Digest, price: U64, t: Trace<F>)
    requires k.field.Lawful()
    requires Satisfies(k, commitment, change, price, t)
    ensures Opens(k, commitment, change, price, Extract(k, price, t))
    ensures t == TraceOf(k, price, Extract(k, price, t), Chosen(t))
  {
    var pf := k.field.OfInt(price);
    InputOpens(k, commitment, change, price, t);
    var h := TraceOf(k, price, Extract(k, price, t), Chosen(t));
    OpeningSatisfies(k, commitment, change, price, Extract(k, price, t), Chosen(t));
    SatisfiedRuns(k, commitment, change, price, t);
    SatisfiedRuns(k, commitment, change, price, h);
    LinkedValue(k, price, t);
    FirstSame(k, price, t, h);
    forall i | 0 <= i < TRACE_LEN ensures SameChoice(t, h, i) {
      ChoicesSame(k, price, t, h, i);
    }
    forall r | 0 <= r < TRACE_LEN ensures t[r] == h[r] {
      RowsForced(k, pf, t, h, r);
    }
  }

  ghost predicate OpenedBy<F(!new)>(
    k: Suite<F>, commitment: Digest, change: Digest, price: U64, t: Trace<F>, w: Opening<F>, free: Free<F>)
  {
    Opens(k, commitment, change, price, w) && |t| == 512 && t == TraceOf(k, price, w, free)
  }

  /** Exactly these traces satisfy the circuit. */
  lemma PurchaseTraces<F(!new)>(k: Suite<F>, commitment: Digest, change: Digest, price: U64, t: Trace<F>)
    requires k.field.Lawful()
    ensures Satisfies(k, commitment, change, price, t)
       <==> exists w, free :: OpenedBy(k, commitment, change, price, t, w, free)
  {
    if Satisfies(k, commitment, change, price, t) {
      SatisfyingIsHonest(k, commitment, change, price, t);
      assert OpenedBy(k, commitment, change, price, t, Extract(k, price, t), Chosen(t));
    }
    if w, free :| OpenedBy(k, commitment, change, price, t, w, free) {
      OpeningSatisfies(k, commitment, change, price, w, free);
    }
  }

  // ----- both directions -----

  ghost predicate Satisfiable<F(!new)>(k: Suite<F>, commitment: Digest, change: Digest, price: U64) {
    exists t :: Satisfies(k, commitment, change, price, t)
  }

  ghost predicate InputOpenable<F(!new)>(k: Suite<F>, commitment: Digest, price: U64) {
    exists v: nat, b :: InputOpensWith(k, commitment, price, v, b)
  }

  ghost predicate InputOpensWith<F(!new)>(k: Suite<F>, commitment: Digest, price: U64, v: nat, b: Limbs<F>) {
    && price <= v < price + 0x1_0000_0000_0000_0000
    && CommitmentDigest(k, k.field.OfInt(v), b) == k.LimbsOf(commitment)
  }

  ghost predicate ChangeOpenable<F(!new)>(k: Suite<F>, change: Digest) {
    exists x, b :: ChangeOpensWith(k, change, x, b)
  }

  ghost predicate ChangeOpensWith<F(!new)>(k: Suite<F>, change: Digest, x: F, b: Limbs<F>) {
    CommitmentDigest(k, x, b) == k.LimbsOf(ChangeTarget(k, change))
  }

  /** The circuit can be satisfied exactly when the input commitment opens to a value from the price to
      below the price plus 2^64 and the change commitment opens to anything. */
  lemma PurchaseIff<F(!new)>(k: Suite<F>, commitment: Digest, change: Digest, price: U64)
    requires k.field.Lawful()
    ensures Satisfiable(k, commitment, change, price)
       <==> (InputOpenable(k, commitment, price) && ChangeOpenable(k, change))
  {
    if Satisfiable(k, commitment, change, price) {
      var t :| Satisfies(k, commitment, change, price, t);
      var w := Extract(k, price, t);
      InputOpens(k, commitment, change, price, t);
      assert InputOpensWith(k, commitment, price, w.v, w.b) && ChangeOpensWith(k, change, w.change, w.cb);
    }
    if InputOpenable(k, commitment, price) && ChangeOpenable(k, change) {
      var v: nat, b :| InputOpensWith(k, commitment, price, v, b);
      var x, cb :| ChangeOpensWith(k, change, x, cb);
      var f := k.field;
      OpeningSatisfies(k, commitment, change, price, Opening(v, b, x, cb),
                       Free(f.zero, f.zero, f.zero, f.zero, f.zero));
    }
  }

  lemma HashOpens<F(!new)>(k: Suite<F>, v: U64, b: Digest)
    requires k.field.Lawful()
    ensures CommitmentDigest(k, k.field.OfInt(v), k.LimbsOf(b)) == k.LimbsOf(CommitmentHash(k, v, b))
  {
    UnpackPack(k.field, CommitmentDigest(k, k.field.OfInt(v), k.LimbsOf(b)));
  }

  /** The relation that the circuit's description states, with the change worth the value less the price,
      is sufficient but not necessary: whatever the change is worth, a commitment to it will do, and so will
      no change at all. */
  lemma AnyChangeSatisfies<F(!new)>(k: Suite<F>, price: U64, v: U64, b: Digest, cv: U64, cb: Digest)
    requires k.field.Lawful() && price <= v && CommitmentHash(k, cv, cb) != ZeroBytes()
    ensures Satisfiable(k, CommitmentHash(k, v, b), CommitmentHash(k, cv, cb), price)
    ensures Satisfiable(k, CommitmentHash(k, v, b), ZeroBytes(), price)
  {
    HashOpens(k, v, b);
    HashOpens(k, 0, ZeroBytes());
    HashOpens(k, cv, cb);
    assert InputOpensWith(k, CommitmentHash(k, v, b), price, v, k.LimbsOf(b));
    assert ChangeOpensWith(k, CommitmentHash(k, cv, cb), k.field.OfInt(cv), k.LimbsOf(cb));
    assert ChangeOpensWith(k, ZeroBytes(), k.field.OfInt(0), k.LimbsOf(ZeroBytes()));
    PurchaseIff(k, CommitmentHash(k, v, b), CommitmentHash(k, cv, cb), price);
    PurchaseIff(k, CommitmentHash(k, v, b), ZeroBytes(), price);
  }
}
