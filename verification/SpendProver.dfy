/** `prove_spend`: the public inputs and the trace that a witness leads to. */
module SpendProver {
  import opened Bits
  import opened Encoding
  import opened Poseidon
  import opened Merkle
  import opened NoteTree
  import opened SpendAir
  import opened SpendTrace
  import opened SpendCompleteness
  import opened SpendBuilder

  // The root that a path leads to.
  method PathRoot<D(!new)>(h: Hasher<D>, leaf: D, index: nat, siblings: seq<D>) returns (node: D)
    ensures node == Fold(h, leaf, index, siblings, |siblings|)
  {
    node := leaf;
    var idx := index;
    for d := 0 to |siblings|
      invariant idx == Shr(index, d)
      invariant node == Fold(h, leaf, index, siblings, d)
    {
      node := if idx % 2 == 0 then h.H(node, siblings[d]) else h.H(siblings[d], node);
      idx := idx / 2;
    }
  }

  function TraceOf<F>(cols: array2<F>): (t: Trace<F>)
    requires Shaped(cols)
    reads cols
    ensures |t| == TRACE_LEN && forall r :: 0 <= r < TRACE_LEN ==> t[r] == RowCells(cols, r)
  {
    seq(TRACE_LEN, r requires 0 <= r < TRACE_LEN reads cols => RowCells(cols, r))
  }

  /** The public inputs are those of the note, its path and its change, and the trace satisfies the
      circuit for them exactly when the witness fits: its values balance as integers and a withdrawal
      leaves no change. */
  method ProveSpend<F(!new)>(k: Suite<F>, w: SpendWitness, price: U64, mode: nat)
    returns (pi: SpendInputs, cols: array2<F>)
    requires k.field.Lawful() && w.Valid() && mode in {0, 1}
    ensures pi == ProveInputs(k, w, price, mode)
    ensures fresh(cols) && Shaped(cols)
    ensures Satisfies(k, ToElements(k.field, pi), TraceOf(cols))
       <==> WitnessFits(w.v, w.cv, price, mode, NoChange(k, k.LimbsOf(w.cb), k.LimbsOf(w.cpkd)))
  {
    var root := PathRoot(ByteHasher(k), NoteHash(k, w.v, w.b, w.pkd), w.index, w.siblings);
    var nullifier := NullifierHash(k, w.b);
    var changeLeaf, changePkd := ZeroChangeLeaf(k), ZeroDigest(k.field);
    if mode == 1 {
      changeLeaf, changePkd := NoteHash(k, w.cv, w.cb, w.cpkd), w.cpkd;
    }
    pi := SpendInputs(root, nullifier, w.pkd, price, changeLeaf, changePkd, mode);
    cols := BuildSpendTrace(k, w);
    ProveSpendComplete(k, pi, w, price, mode, TraceOf(cols));
  }
}
