/** `spend_masks` and `poseidon_periodic_128`: the periodic columns, filled in place. */
module SpendMasks {
  import opened Fields
  import opened Poseidon
  import opened SpendAir
  import opened SpendSoundness

  const MASKS: nat := 15

  // Whether mask `j` is set at step `s`, in the order the periodic columns are listed.
  predicate MaskSet(j: nat, s: nat) {
    match j
    case 0 => OpAt(s) == Permute
    case 1 => OpAt(s) == Freeze
    case 2 => OpAt(s) == LinkNote
    case 3 => OpAt(s) == AbsorbNote
    case 4 => OpAt(s) == LinkNode
    case 5 => OpAt(s) == AbsorbNode
    case 6 => OpAt(s) == LinkChange
    case 7 => OpAt(s) == AbsorbChange
    case 8 => RangeStep(s)
    case 9 => s == 63
    case 10 => s == 127
    case 11 => s == 0
    case 12 => AuxFrozen(s)
    case 13 => BitFrozen(s)
    case _ => OpAt(s) != LinkNode
  }

  predicate Shaped<F>(m: array2<F>) {
    m.Length0 == MASKS && m.Length1 == TRACE_LEN
  }

  method SetSteps<F>(m: array2<F>, j: nat, from: nat, to: nat, value: F)
    requires Shaped(m) && j < MASKS && from <= to <= TRACE_LEN
    modifies m
    ensures forall s :: from <= s < to ==> m[j, s] == value
    ensures forall i, s :: 0 <= i < MASKS && 0 <= s < TRACE_LEN && (i != j || s < from || s >= to) ==>
      m[i, s] == old(m[i, s])
  {
    for r := from to to
      invariant forall s :: from <= s < r ==> m[j, s] == value
      invariant forall i, s :: 0 <= i < MASKS && 0 <= s < TRACE_LEN && (i != j || s < from || s >= r) ==>
        m[i, s] == old(m[i, s])
    {
      m[j, r] := value;
    }
  }

  lemma RoundSteps(b: nat, s: nat)
    requires b < ACTIVE_BLOCKS && b * BLOCK <= s < b * BLOCK + BLOCK
    ensures OpAt(s) == Permute <==> b * BLOCK + 1 <= s <= b * BLOCK + 64
    ensures OpAt(s) == Freeze <==> s == 0 || b * BLOCK + 65 <= s
  {
    assert s % BLOCK == s - b * BLOCK;
  }

  method FillRounds<F(!new)>(f: Field<F>, m: array2<F>)
    requires Shaped(m)
    requires forall s :: 0 <= s < TRACE_LEN ==> m[0, s] == f.zero && m[1, s] == f.zero
    modifies m
    ensures forall s :: 0 <= s < TRACE_LEN ==> m[0, s] == f.Bit(MaskSet(0, s)) && m[1, s] == f.Bit(MaskSet(1, s))
    ensures forall i, s :: 2 <= i < MASKS && 0 <= s < TRACE_LEN ==> m[i, s] == old(m[i, s])
  {
    for b := 0 to ACTIVE_BLOCKS
      invariant forall s :: 0 <= s < b * BLOCK ==>
        m[0, s] == f.Bit(MaskSet(0, s)) && m[1, s] == f.Bit(MaskSet(1, s) && s != 0)
      invariant forall s :: b * BLOCK <= s < TRACE_LEN ==> m[0, s] == f.zero && m[1, s] == f.zero
      invariant forall i, s :: 2 <= i < MASKS && 0 <= s < TRACE_LEN ==> m[i, s] == old(m[i, s])
    {
      SetSteps(m, 0, b * BLOCK + 1, b * BLOCK + 65, f.one);
      SetSteps(m, 1, b * BLOCK + 65, b * BLOCK + BLOCK, f.one);
      forall s | b * BLOCK <= s < b * BLOCK + BLOCK
        ensures m[0, s] == f.Bit(MaskSet(0, s)) && m[1, s] == f.Bit(MaskSet(1, s) && s != 0)
      {
        RoundSteps(b, s);
      }
    }
    m[1, 0] := f.one;
  }

  lemma LevelSteps(d: nat, s: nat)
    requires d < LEVELS && LinkRow(d) <= s < LinkRow(d + 1)
    ensures OpAt(s) == LinkNode <==> s == LinkRow(d)
    ensures OpAt(s) == AbsorbNode <==> s == LinkRow(d) + BLOCK
  {
    assert (s - STEP_MRK_BASE) % 256 == s - LinkRow(d);
    LevelOps(d);
  }

  ghost predicate LevelMasks<F(!new)>(f: Field<F>, m: array2<F>, s: nat)
    requires Shaped(m) && s < TRACE_LEN
    reads m
  {
    && m[4, s] == f.Bit(MaskSet(4, s)) && m[5, s] == f.Bit(MaskSet(5, s))
    && m[12, s] == f.Bit(OpAt(s) != LinkNode) && m[14, s] == f.Bit(MaskSet(14, s))
  }

  method FillLevels<F(!new)>(f: Field<F>, m: array2<F>)
    requires Shaped(m)
    requires forall s :: 0 <= s < TRACE_LEN ==> m[4, s] == m[5, s] == f.zero && m[12, s] == m[14, s] == f.one
    modifies m
    ensures forall s :: 0 <= s < TRACE_LEN ==> m[4, s] == f.Bit(MaskSet(4, s)) && m[5, s] == f.Bit(MaskSet(5, s))
    ensures forall s :: 0 <= s < TRACE_LEN ==>
      m[12, s] == f.Bit(OpAt(s) != LinkNode) && m[14, s] == f.Bit(MaskSet(14, s))
    ensures forall i, s :: 0 <= i < MASKS && i !in {4, 5, 12, 14} && 0 <= s < TRACE_LEN ==> m[i, s] == old(m[i, s])
  {
    for d := 0 to LEVELS
      invariant forall s :: 0 <= s < LinkRow(d) ==> LevelMasks(f, m, s)
      invariant forall s :: LinkRow(d) <= s < TRACE_LEN ==>
        m[4, s] == m[5, s] == f.zero && m[12, s] == m[14, s] == f.one
      invariant forall i, s :: 0 <= i < MASKS && i !in {4, 5, 12, 14} && 0 <= s < TRACE_LEN ==> m[i, s] == old(m[i, s])
    {
      var base := LinkRow(d);
      label before:
      m[4, base], m[5, base + BLOCK], m[12, base], m[14, base] := f.one, f.one, f.zero, f.zero;
      forall s | 0 <= s < base + 256 ensures LevelMasks(f, m, s) {
        if s < base {
          assert old@before(LevelMasks(f, m, s));
        } else {
          LevelSteps(d, s);
        }
      }
    }
    forall s | 0 <= s < TRACE_LEN
      ensures m[4, s] == f.Bit(MaskSet(4, s)) && m[5, s] == f.Bit(MaskSet(5, s))
      ensures m[12, s] == f.Bit(OpAt(s) != LinkNode) && m[14, s] == f.Bit(MaskSet(14, s))
    {
      if s < STEP_LCHG {
        assert LevelMasks(f, m, s);
      } else {
        assert OpAt(s) !in {LinkNode, AbsorbNode};
      }
    }
  }

  method FillSingles<F(!new)>(f: Field<F>, m: array2<F>)
    requires Shaped(m)
    requires forall i, s :: 0 <= i < MASKS && i in {2, 3, 6, 7, 9, 10, 11} && 0 <= s < TRACE_LEN ==> m[i, s] == f.zero
    modifies m
    ensures forall i, s :: 0 <= i < MASKS && i in {2, 3, 6, 7, 9, 10, 11} && 0 <= s < TRACE_LEN ==>
      m[i, s] == f.Bit(MaskSet(i, s))
    ensures forall i, s :: 0 <= i < MASKS && i !in {2, 3, 6, 7, 9, 10, 11} && 0 <= s < TRACE_LEN ==>
      m[i, s] == old(m[i, s])
  {
    m[2, STEP_LNOTE], m[3, STEP_ANOTE] := f.one, f.one;
    m[6, STEP_LCHG], m[7, STEP_ACHG] := f.one, f.one;
    m[9, 63], m[10, 127], m[11, 0] := f.one, f.one, f.one;
  }

  method FillBitFreeze<F(!new)>(f: Field<F>, m: array2<F>)
    requires Shaped(m)
    requires forall s :: 0 <= s < TRACE_LEN ==> m[13, s] == f.zero
    modifies m
    ensures forall s :: 0 <= s < TRACE_LEN ==> m[13, s] == f.Bit(MaskSet(13, s))
    ensures forall i, s :: 0 <= i < MASKS && i != 13 && 0 <= s < TRACE_LEN ==> m[i, s] == old(m[i, s])
  {
    for r := STEP_MRK_BASE to STEP_LCHG
      invariant forall s :: 0 <= s < r ==> m[13, s] == f.Bit(MaskSet(13, s))
      invariant forall s :: r <= s < TRACE_LEN ==> m[13, s] == f.zero
      invariant forall i, s :: 0 <= i < MASKS && i != 13 && 0 <= s < TRACE_LEN ==> m[i, s] == old(m[i, s])
    {
      LevelSteps((r - STEP_MRK_BASE) / 256, r);
      if (r - STEP_MRK_BASE) % 256 != 0 {
        m[13, r] := f.one;
      }
    }
  }

  method FillRangeSteps<F(!new)>(f: Field<F>, m: array2<F>)
    requires Shaped(m)
    requires forall s :: 0 <= s < TRACE_LEN ==> m[8, s] == f.zero
    modifies m
    ensures forall s :: 0 <= s < TRACE_LEN ==> m[8, s] == f.Bit(MaskSet(8, s))
    ensures forall i, s :: 0 <= i < MASKS && i != 8 && 0 <= s < TRACE_LEN ==> m[i, s] == old(m[i, s])
  {
    SetSteps(m, 8, 0, 63, f.one);
    SetSteps(m, 8, 64, 127, f.one);
  }

  method FillAuxFreeze<F(!new)>(f: Field<F>, m: array2<F>)
    requires Shaped(m)
    requires forall s :: 0 <= s < TRACE_LEN ==> m[12, s] == f.Bit(OpAt(s) != LinkNode)
    modifies m
    ensures forall s :: 0 <= s < TRACE_LEN ==> m[12, s] == f.Bit(MaskSet(12, s))
    ensures forall i, s :: 0 <= i < MASKS && i != 12 && 0 <= s < TRACE_LEN ==> m[i, s] == old(m[i, s])
  {
    m[12, STEP_LCHG] := f.zero;
  }

  method FillMasks<F(!new)>(f: Field<F>, m: array2<F>)
    requires Shaped(m)
    requires forall i, s :: 0 <= i < MASKS && i !in {12, 14} && 0 <= s < TRACE_LEN ==> m[i, s] == f.zero
    requires forall i, s :: 0 <= i < MASKS && i in {12, 14} && 0 <= s < TRACE_LEN ==> m[i, s] == f.one
    modifies m
    ensures forall j, s :: 0 <= j < MASKS && 0 <= s < TRACE_LEN ==> m[j, s] == f.Bit(MaskSet(j, s))
  {
    FillRounds(f, m);
    FillSingles(f, m);
    FillLevels(f, m);
    FillAuxFreeze(f, m);
    FillRangeSteps(f, m);
    FillBitFreeze(f, m);
  }

  /** The filled columns are the masks of the schedule: at most one state mask per step. */
  method BuildMasks<F(!new)>(f: Field<F>) returns (m: array2<F>)
    ensures fresh(m) && Shaped(m)
    ensures forall j, s :: 0 <= j < MASKS && 0 <= s < TRACE_LEN ==> m[j, s] == f.Bit(MaskSet(j, s))
  {
    m := new F[MASKS, TRACE_LEN]((_, _) => f.zero);
    SetSteps(m, 12, 0, TRACE_LEN, f.one);
    SetSteps(m, 14, 0, TRACE_LEN, f.one);
    FillMasks(f, m);
  }

  // ----- the round schedule -----

  predicate KeysShaped<F>(rk: array2<F>) {
    rk.Length0 == 5 && rk.Length1 == BLOCK
  }

  // The four round keys of a block step and its full-round flag.
  ghost predicate KeysDone<F(!new)>(k: Suite<F>, rk: array2<F>, s: nat)
    requires KeysShaped(rk) && s < BLOCK
    reads rk
  {
    State(rk[0, s], rk[1, s], rk[2, s], rk[3, s]) == KeysAt(k, s) && rk[4, s] == FullAt(k, s)
  }

  method SetKeys<F(!new)>(k: Suite<F>, rk: array2<F>, s: nat)
    requires KeysShaped(rk) && 1 <= s <= 64
    modifies rk
    ensures KeysDone(k, rk, s)
    ensures forall i :: 0 <= i < BLOCK && i != s ==> KeysDone(k, rk, i) == old(KeysDone(k, rk, i))
  {
    var r := s - 1;
    rk[0, s], rk[1, s], rk[2, s], rk[3, s] := k.rc(r, 0), k.rc(r, 1), k.rc(r, 2), k.rc(r, 3);
    rk[4, s] := k.field.Bit(IsFullRound(r));
  }

  /** `poseidon_periodic_128`: step `s` of a block, from 1 to 64, runs round `s - 1`. */
  method BuildRoundKeys<F(!new)>(k: Suite<F>) returns (rk: array2<F>)
    ensures fresh(rk) && KeysShaped(rk)
    ensures forall s :: 0 <= s < BLOCK ==> KeysDone(k, rk, s)
  {
    rk := new F[5, BLOCK]((_, _) => k.field.zero);
    for s := 1 to 65
      invariant forall i :: 0 <= i < BLOCK && (i < s || i > 64) ==> KeysDone(k, rk, i)
    {
      SetKeys(k, rk, s);
    }
  }

  // The periodic columns read from the filled arrays: the round schedule repeats in every block.
  function PeriodicFrom<F(!new)>(rk: array2<F>, m: array2<F>, s: nat): Periodic<F>
    requires KeysShaped(rk) && Shaped(m) && s < TRACE_LEN
    reads rk, m
  {
    var i := s % BLOCK;
    Periodic(State(rk[0, i], rk[1, i], rk[2, i], rk[3, i]), rk[4, i],
             m[0, s], m[1, s], m[2, s], m[3, s], m[4, s], m[5, s], m[6, s], m[7, s],
             m[8, s], m[9, s], m[10, s], m[11, s], m[12, s], m[13, s], m[14, s])
  }

  /** The twenty filled columns are the periodic columns that the constraints are evaluated with. */
  lemma PeriodicMatches<F(!new)>(k: Suite<F>, rk: array2<F>, m: array2<F>, s: nat)
    requires KeysShaped(rk) && Shaped(m) && s < TRACE_LEN
    requires forall i :: 0 <= i < BLOCK ==> KeysDone(k, rk, i)
    requires forall j, s :: 0 <= j < MASKS && 0 <= s < TRACE_LEN ==> m[j, s] == k.field.Bit(MaskSet(j, s))
    ensures PeriodicFrom(rk, m, s) == PeriodicAt(k, s)
  {
    var i := s % BLOCK;
    assert i % BLOCK == i;
    assert KeysDone(k, rk, i);
  }
}
