/** Exactly which traces satisfy SpendAir: the prover's trace of some opening, in every cell but those that
    no constraint ties. */
module SpendTraces {
  import opened Bits
  import opened Fields
  import opened Encoding
  import opened Poseidon
  import opened SpendAir
  import opened SpendSoundness
  import opened SpendTrace
  import opened SpendCompleteness

  /** The cells of row `r` that a satisfying trace shares with the prover's: the carried columns
      everywhere, the states up to the end of the last block, the range rows, and in the Merkle rows and
      after them bit, sibling and carried limb. */
  predicate Pinned<F(!new, ==)>(r: nat, c: Row<F>, h: Row<F>) {
    && c.b == h.b && c.v == h.v && c.cv == h.cv
    && (r <= 5760 ==> c.st == h.st)
    && (r < 128 ==> c.acc == h.acc && c.pow == h.pow)
    && (r < 128 || 384 < r <= 5504 ==> c.bit == h.bit)
    && (384 < r ==> c.aux == h.aux && c.rHi == h.rHi)
  }

  /** What the constraints still ask of the other cells: bits everywhere, and a constant sibling and limb
      before the first level. */
  predicate FreeOk<F(!new, ==)>(f: Field<F>, s: nat, c: Row<F>, n: Row<F>) {
    && (c.bit == f.zero || c.bit == f.one)
    && (s < 384 ==> n.aux == c.aux && n.rHi == c.rHi)
  }

  // The cells of row `s + 1` that the prover is free to choose at step `s`.
  predicate SameChoice<F(!new, ==)>(s: nat, n: Row<F>, h: Row<F>) {
    && (s + 1 < 128 || OpAt(s) == LinkNode ==> n.bit == h.bit)
    && (OpAt(s) == LinkNode || OpAt(s) == LinkChange ==> n.aux == h.aux)
  }

  /** A step turns pinned cells and equal choices into pinned cells. */
  lemma StepPins<F(!new)>(k: Suite<F>, pi: Statement<F>, s: nat, c: Row<F>, n: Row<F>, hc: Row<F>, hn: Row<F>)
    requires StepOk(k, pi, s, c, n) && StepOk(k, pi, s, hc, hn)
    requires Pinned(s, c, hc) && SameChoice(s, n, hn)
    ensures Pinned(s + 1, n, hn)
  {
    assert s < 5760 ==> OpAt(s) != Idle;
    assert OpAt(384) == LinkNode;
  }

  lemma PinnedSteps<F(!new)>(k: Suite<F>, pi: Statement<F>, s: nat, c: Row<F>, n: Row<F>, hc: Row<F>, hn: Row<F>)
    requires StepOk(k, pi, s, hc, hn)
    requires Pinned(s, c, hc) && Pinned(s + 1, n, hn) && FreeOk(k.field, s, c, n)
    ensures StepOk(k, pi, s, c, n)
  {
    assert s >= 5760 ==> OpAt(s) == Idle;
    assert OpAt(384) == LinkNode;
  }

  lemma StepFree<F(!new)>(k: Suite<F>, pi: Statement<F>, s: nat, c: Row<F>, n: Row<F>)
    requires StepOk(k, pi, s, c, n)
    ensures FreeOk(k.field, s, c, n)
  {
  }

  // ----- the whole trace -----

  ghost predicate PinnedAt<F(!new)>(t: Trace<F>, h: Trace<F>, r: nat)
    requires r < |t| && r < |h|
  {
    Pinned(r, t[r], h[r])
  }

  ghost predicate FreeAt<F(!new)>(f: Field<F>, t: Trace<F>, s: nat)
    requires s + 1 < |t|
  {
    FreeOk(f, s, t[s], t[s + 1])
  }

  ghost predicate ChoiceAt<F(!new)>(t: Trace<F>, h: Trace<F>, s: nat)
    requires s + 1 < |t| && s + 1 < |h|
  {
    SameChoice(s, t[s + 1], h[s + 1])
  }

  /** The trace is the prover's trace of the opening, up to the free cells. */
  ghost predicate TraceOf<F(!new)>(k: Suite<F>, pi: SpendInputs, t: Trace<F>, w: Opening<F>)
    requires |w.siblings| == LEVELS
  {
    && |t| == |OpeningTrace(k, pi, w)| == 8192
    && (forall r :: 0 <= r < TRACE_LEN ==> PinnedAt(t, OpeningTrace(k, pi, w), r))
    && (forall s :: 0 <= s < TRACE_LEN - 1 ==> FreeAt(k.field, t, s))
  }

  lemma {:induction false} RowsPinned<F(!new)>(k: Suite<F>, pi: Statement<F>, t: Trace<F>, h: Trace<F>, r: nat)
    requires Runs(k, pi, t) && Runs(k, pi, h) && PinnedAt(t, h, 0)
    requires forall s :: 0 <= s < TRACE_LEN - 1 ==> ChoiceAt(t, h, s)
    requires r < TRACE_LEN
    ensures PinnedAt(t, h, r)
  {
    if r > 0 {
      RowsPinned(k, pi, t, h, r - 1);
      assert StepAt(k, pi, t, r - 1) && StepAt(k, pi, h, r - 1) && ChoiceAt(t, h, r - 1);
      StepPins(k, pi, r - 1, t[r - 1], t[r], h[r - 1], h[r]);
    }
  }

  // The witness that a trace carries, with the public key digests.
  function Carried<F(!new)>(k: Suite<F>, pi: SpendInputs, w: Opening<F>): (p: Private<F>)
    requires |w.siblings| == LEVELS
    ensures p.Valid()
  {
    Private(w.v, w.b, k.LimbsOf(pi.pkd), w.index, w.siblings, w.cv, w.cb, k.LimbsOf(pi.changePkd))
  }

  lemma BitRead<F(!new)>(k: Suite<F>, x: F, bs: seq<bool>, d: nat)
    requires x == k.field.zero || x == k.field.one
    requires d < |bs| && bs[d] == IsOne(k, x)
    ensures k.field.Lawful() ==> x == k.field.Bit(BitSet(FromBits(bs), d))
  {
    FromBitsAt(bs, d);
  }

  lemma RangeChoice<F(!new)>(k: Suite<F>, pi: SpendInputs, st: Statement<F>, t: Trace<F>, r: nat)
    requires k.field.Lawful() && Runs(k, st, t) && r < 128
    ensures t[r].bit == k.field.Bit(BitAt(Carried(k, pi, Extract(k, t)), r))
  {
    RangeRow(k, st, t, r);
    if r < 64 {
      BitRead(k, t[r].bit, RowBits(k, t, 0, 64), r);
    } else {
      BitRead(k, t[r].bit, RowBits(k, t, 64, 64), r - 64);
    }
  }

  lemma LevelChoice<F(!new)>(k: Suite<F>, pi: SpendInputs, st: Statement<F>, t: Trace<F>, plan: Plan<F>, d: nat)
    requires k.field.Lawful() && Runs(k, st, t) && d < LEVELS
    requires plan.Sized() && plan.p == Carried(k, pi, Extract(k, t))
    ensures t[LinkRow(d) + 1].bit == RowAt(k, plan, LinkRow(d) + 1).bit
    ensures t[LinkRow(d) + 1].aux == RowAt(k, plan, LinkRow(d) + 1).aux
  {
    assert StepAt(k, st, t, LinkRow(d) + 1);
    LinkRowCells(k, plan, d);
    BitRead(k, t[LinkRow(d) + 1].bit, PathBits(k, t), d);
  }

  lemma SameChoices<F(!new)>(
    k: Suite<F>, pi: SpendInputs, st: Statement<F>, t: Trace<F>, plan: Plan<F>, h: Trace<F>, s: nat)
    requires k.field.Lawful() && Runs(k, st, t) && s < TRACE_LEN - 1
    requires plan.Sized() && plan.p == Carried(k, pi, Extract(k, t)) && IsHonest(k, plan, h)
    ensures ChoiceAt(t, h, s)
  {
    assert h[s + 1] == RowAt(k, plan, s + 1);
    OpPlaces(s);
    if s + 1 < 128 {
      RangeChoice(k, pi, st, t, s + 1);
    } else if OpAt(s) == LinkNode {
      LevelChoice(k, pi, st, t, plan, LevelAt(s));
    }
  }

  lemma FirstRow<F(!new)>(k: Suite<F>, pi: SpendInputs, st: Statement<F>, t: Trace<F>, plan: Plan<F>, h: Trace<F>)
    requires k.field.Lawful() && Runs(k, st, t) && Runs(k, st, h)
    requires t[0].acc == k.field.zero && t[0].pow == k.field.one
    requires plan.Sized() && plan.p == Carried(k, pi, Extract(k, t)) && IsHonest(k, plan, h)
    ensures PinnedAt(t, h, 0)
  {
    assert h[0] == RowAt(k, plan, 0);
    assert StepAt(k, st, t, 0) && StepAt(k, st, h, 0);
    ValueIsSmall(k, st, t);
    ChangeIsSmall(k, st, t);
    RangeChoice(k, pi, st, t, 0);
  }

  lemma TracePinned<F(!new)>(k: Suite<F>, pi: SpendInputs, t: Trace<F>, plan: Plan<F>, h: Trace<F>)
    requires k.field.Lawful()
    requires Runs(k, ToElements(k.field, pi), t) && Asserted(k, ToElements(k.field, pi), t)
    requires Runs(k, ToElements(k.field, pi), h)
    requires plan.Sized() && plan.p == Carried(k, pi, Extract(k, t)) && IsHonest(k, plan, h)
    ensures forall r :: 0 <= r < TRACE_LEN ==> PinnedAt(t, h, r)
  {
    var st := ToElements(k.field, pi);
    FirstRow(k, pi, st, t, plan, h);
    forall s | 0 <= s < TRACE_LEN - 1 ensures ChoiceAt(t, h, s) {
      SameChoices(k, pi, st, t, plan, h, s);
    }
    forall r | 0 <= r < TRACE_LEN ensures PinnedAt(t, h, r) {
      RowsPinned(k, st, t, h, r);
    }
  }

  /** Whatever satisfies the circuit is the prover's trace of the opening that it carries. */
  lemma SatisfyingIsHonest<F(!new)>(k: Suite<F>, pi: SpendInputs, t: Trace<F>)
    requires k.field.Lawful() && pi.mode in {0, 1}
    requires Satisfies(k, ToElements(k.field, pi), t)
    ensures TraceOf(k, pi, t, Extract(k, t))
  {
    var st, w := ToElements(k.field, pi), Extract(k, t);
    var p := Carried(k, pi, w);
    var h := HonestTrace(k, p);
    SpendSound(k, pi, t);
    OpeningSatisfies(k, pi, w);
    SatisfiedRuns(k, st, t);
    SatisfiedRuns(k, st, h);
    TracePinned(k, pi, t, PlanFor(k, p), h);
    forall s | 0 <= s < TRACE_LEN - 1 ensures FreeAt(k.field, t, s) {
      assert StepAt(k, st, t, s);
      StepFree(k, st, s, t[s], t[s + 1]);
    }
  }

  lemma PinnedRuns<F(!new)>(k: Suite<F>, st: Statement<F>, t: Trace<F>, h: Trace<F>)
    requires |t| == TRACE_LEN && Runs(k, st, h) && Asserted(k, st, h)
    requires forall r :: 0 <= r < TRACE_LEN ==> PinnedAt(t, h, r)
    requires forall s :: 0 <= s < TRACE_LEN - 1 ==> FreeAt(k.field, t, s)
    ensures Runs(k, st, t) && Asserted(k, st, t)
  {
    forall s | 0 <= s < TRACE_LEN - 1 ensures StepAt(k, st, t, s) {
      assert StepAt(k, st, h, s) && PinnedAt(t, h, s) && PinnedAt(t, h, s + 1) && FreeAt(k.field, t, s);
      PinnedSteps(k, st, s, t[s], t[s + 1], h[s], h[s + 1]);
    }
    assert PinnedAt(t, h, 0) && PinnedAt(t, h, ROW_NF_OUT) && PinnedAt(t, h, ROW_ROOT) && PinnedAt(t, h, ROW_CLEAF);
  }

  ghost predicate OpenedBy<F(!new)>(k: Suite<F>, pi: SpendInputs, t: Trace<F>, w: Opening<F>) {
    Opens(k, pi, w) && TraceOf(k, pi, t, w)
  }

  /** Exactly these traces satisfy the circuit: the prover's traces of the openings of the relation, with
      anything allowed in the free cells. */
  lemma SpendTracesIff<F(!new)>(k: Suite<F>, pi: SpendInputs, t: Trace<F>)
    requires k.field.Lawful() && pi.mode in {0, 1}
    ensures Satisfies(k, ToElements(k.field, pi), t) <==> exists w :: OpenedBy(k, pi, t, w)
  {
    var st := ToElements(k.field, pi);
    if Satisfies(k, st, t) {
      SpendSound(k, pi, t);
      SatisfyingIsHonest(k, pi, t);
      assert OpenedBy(k, pi, t, Extract(k, t));
    }
    if w :| OpenedBy(k, pi, t, w) {
      OpeningSatisfies(k, pi, w);
      SatisfiedRuns(k, st, OpeningTrace(k, pi, w));
      PinnedRuns(k, st, t, OpeningTrace(k, pi, w));
      SatisfiedRuns(k, st, t);
    }
  }

  // ----- the free cells of the prover's own trace -----

  lemma {:induction false} RangeCellsStay<F(!new)>(f: Field<F>, p: Private<F>, r: nat)
    requires r >= 127
    ensures AccAt(f, p, r) == AccAt(f, p, 127) && PowAt(f, r) == PowAt(f, 127)
  {
  }

  /** The prover fills the cells that no constraint ties with zeros before the first level, with cleared bits
      outside the range and the Merkle rows, and with what stood last otherwise. */
  lemma FreeCells<F(!new)>(k: Suite<F>, p: Private<F>, r: nat)
    requires p.Valid() && r < TRACE_LEN
    ensures var row := RowAt(k, PlanFor(k, p), r);
      && (r <= 384 ==> row.aux == Limbs(k.field.zero, k.field.zero) && row.rHi == k.field.zero)
      && (128 <= r <= 384 || 5504 < r ==> row.bit == k.field.zero)
      && (127 <= r ==> row.acc == RowAt(k, PlanFor(k, p), 127).acc && row.pow == RowAt(k, PlanFor(k, p), 127).pow)
      && (5697 <= r ==> row.st == RowAt(k, PlanFor(k, p), 5697).st)
  {
    if 127 <= r {
      RangeCellsStay(k.field, p, r);
    }
    if 5697 <= r {
      assert BlockOf(r) == BlockOf(5697) == 44;
    }
  }
}
