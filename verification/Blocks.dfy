/** The 128-row block that both v2 circuits are built from: one boundary step, sixty-four round steps,
    sixty-three freeze steps. */
module Blocks {
  import opened Poseidon

  ghost predicate StepsAt<S(!new)>(step: (S, nat) -> S, sts: seq<S>, base: nat, i: nat)
    requires base < i < |sts| - 1
  {
    sts[i + 1] == step(sts[i], i - base - 1)
  }

  ghost predicate SameAt<S(!new)>(sts: seq<S>, i: nat)
    requires i < |sts| - 1
  {
    sts[i + 1] == sts[i]
  }

  lemma {:induction false} RunSteps<S(!new)>(step: (S, nat) -> S, sts: seq<S>, base: nat, n: nat)
    requires base + n + 1 < |sts|
    requires forall i :: base < i <= base + n ==> StepsAt(step, sts, base, i)
    ensures sts[base + 1 + n] == Iterate(step, sts[base + 1], n)
  {
    if n > 0 {
      RunSteps(step, sts, base, n - 1);
      assert StepsAt(step, sts, base, base + n);
    }
  }

  lemma {:induction false} StayFrozen<S(!new)>(sts: seq<S>, lo: nat, hi: nat)
    requires lo <= hi < |sts|
    requires forall i :: lo <= i < hi ==> SameAt(sts, i)
    ensures sts[hi] == sts[lo]
  {
    if lo < hi {
      StayFrozen(sts, lo, hi - 1);
      assert SameAt(sts, hi - 1);
    }
  }

  /** A block whose steps 1 to 64 are rounds and whose remaining steps hold still carries the
      permutation of its first state to every row of its freeze region. */
  lemma BlockPermutes<F(!new)>(k: Suite<F>, sts: seq<State<F>>, base: nat, end: nat)
    requires base + 65 <= end < |sts|
    requires forall i :: base < i <= base + 64 ==> StepsAt(k.Round, sts, base, i)
    requires forall i :: base + 65 <= i < end ==> SameAt(sts, i)
    ensures sts[end] == sts[base + 65] == Perm(k, sts[base + 1])
  {
    RunSteps(k.Round, sts, base, ROUNDS);
    StayFrozen(sts, base + 65, end);
  }

  // The states of a trace, given where a row holds its own.
  function States<R, S>(t: seq<R>, st: R -> S): (sts: seq<S>)
    ensures |sts| == |t| && forall i :: 0 <= i < |t| ==> sts[i] == st(t[i])
  {
    seq(|t|, i requires 0 <= i < |t| => st(t[i]))
  }

  // ----- building a block in place -----

  function StateCell<F>(cols: array2<F>, r: nat): State<F>
    requires cols.Length0 >= 4 && r < cols.Length1
    reads cols
  {
    State(cols[0, r], cols[1, r], cols[2, r], cols[3, r])
  }

  method SetState<F>(cols: array2<F>, r: nat, s: State<F>)
    requires cols.Length0 >= 4 && r < cols.Length1
    modifies cols
    ensures StateCell(cols, r) == s
    ensures forall i :: 0 <= i < cols.Length1 && i != r ==> StateCell(cols, i) == old(StateCell(cols, i))
    ensures forall c, i :: 4 <= c < cols.Length0 && 0 <= i < cols.Length1 ==> cols[c, i] == old(cols[c, i])
  {
    cols[0, r] := s.s0;
    cols[1, r] := s.s1;
    cols[2, r] := s.s2;
    cols[3, r] := s.s3;
  }

  /** `run_perm_rows`: sixty-four rounds of the state at `start`, one row each. */
  method RunPermRows<F(!new)>(round: (State<F>, nat) -> State<F>, cols: array2<F>, start: nat)
    requires cols.Length0 >= 4 && start + 64 < cols.Length1
    modifies cols
    ensures forall i :: start <= i <= start + 64 ==>
      StateCell(cols, i) == Iterate(round, old(StateCell(cols, start)), i - start)
    ensures forall i :: 0 <= i < cols.Length1 && (i < start || i > start + 64) ==>
      StateCell(cols, i) == old(StateCell(cols, i))
    ensures forall c, i :: 4 <= c < cols.Length0 && 0 <= i < cols.Length1 ==> cols[c, i] == old(cols[c, i])
  {
    for n := 0 to 64
      invariant forall i :: start <= i <= start + n ==>
        StateCell(cols, i) == Iterate(round, old(StateCell(cols, start)), i - start)
      invariant forall i :: 0 <= i < cols.Length1 && (i < start || i > start + n) ==>
        StateCell(cols, i) == old(StateCell(cols, i))
      invariant forall c, i :: 4 <= c < cols.Length0 && 0 <= i < cols.Length1 ==> cols[c, i] == old(cols[c, i])
    {
      SetState(cols, start + n + 1, round(StateCell(cols, start + n), n));
    }
  }

  /** `freeze_state_rows`: copies the state down from row `from - 1`. */
  method FreezeStateRows<F>(cols: array2<F>, from: nat, to: nat)
    requires cols.Length0 >= 4 && 1 <= from <= to + 1 && to < cols.Length1
    modifies cols
    ensures forall i :: from <= i <= to ==> StateCell(cols, i) == old(StateCell(cols, from - 1))
    ensures forall i :: 0 <= i < cols.Length1 && (i < from || i > to) ==> StateCell(cols, i) == old(StateCell(cols, i))
    ensures forall c, i :: 4 <= c < cols.Length0 && 0 <= i < cols.Length1 ==> cols[c, i] == old(cols[c, i])
  {
    for r := from to to + 1
      invariant forall i :: from <= i < r ==> StateCell(cols, i) == old(StateCell(cols, from - 1))
      invariant forall i :: 0 <= i < cols.Length1 && (i < from || i >= r) ==>
        StateCell(cols, i) == old(StateCell(cols, i))
      invariant forall c, i :: 4 <= c < cols.Length0 && 0 <= i < cols.Length1 ==> cols[c, i] == old(cols[c, i])
    {
      SetState(cols, r, StateCell(cols, r - 1));
    }
  }

  // The state `j` rows into a block.
  function BlockState<S>(round: (S, nat) -> S, start: S, j: nat): S {
    Iterate(round, start, if j <= 64 then j else 64)
  }

  /** One block: the start state, its rounds, and its result frozen down to row `end`. */
  method FillBlock<F(!new)>(round: (State<F>, nat) -> State<F>, cols: array2<F>, row: nat, start: State<F>, end: nat)
    requires cols.Length0 >= 4 && row + 64 <= end < cols.Length1
    modifies cols
    ensures forall i :: row <= i <= end ==> StateCell(cols, i) == BlockState(round, start, i - row)
    ensures forall i :: 0 <= i < cols.Length1 && (i < row || i > end) ==> StateCell(cols, i) == old(StateCell(cols, i))
    ensures forall c, i :: 4 <= c < cols.Length0 && 0 <= i < cols.Length1 ==> cols[c, i] == old(cols[c, i])
  {
    SetState(cols, row, start);
    RunPermRows(round, cols, row);
    FreezeStateRows(cols, row + 65, end);
  }
}
