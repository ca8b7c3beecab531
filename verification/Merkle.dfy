/** The incremental Merkle tree, for any digest type, any node hash and any depth.

    The reference is `Node`: the infinite tree over a sequence of leaves, padded with empty leaves.
    The frontier, the rebuilt tree and the path check are all measured against it. */
module Merkle {
  import opened Bits

  datatype Hasher<!D(!new)> = Hasher(hash2: (D, D) -> D, empty: D) {
    function H(l: D, r: D): D { hash2(l, r) }
  }

  // The root of an empty subtree of height `d`.
  function Z<D(!new)>(h: Hasher<D>, d: nat): D {
    if d == 0 then h.empty else h.H(Z(h, d - 1), Z(h, d - 1))
  }

  function LeafAt<D(!new)>(h: Hasher<D>, leaves: seq<D>, i: nat): D {
    if i < |leaves| then leaves[i] else h.empty
  }

  /** The `i`-th node of level `d` of the padded tree over `leaves`. */
  function Node<D(!new)>(h: Hasher<D>, leaves: seq<D>, d: nat, i: nat): D {
    if d == 0 then LeafAt(h, leaves, i)
    else h.H(Node(h, leaves, d - 1, 2 * i), Node(h, leaves, d - 1, 2 * i + 1))
  }

  function Root<D(!new)>(h: Hasher<D>, leaves: seq<D>, depth: nat): D {
    Node(h, leaves, depth, 0)
  }

  // ----- the padded tree -----

  lemma {:induction false} NodePastEnd<D(!new)>(h: Hasher<D>, leaves: seq<D>, d: nat, i: nat)
    requires i > Shr(|leaves|, d)
    ensures Node(h, leaves, d, i) == Z(h, d)
  {
    if d > 0 {
      NodePastEnd(h, leaves, d - 1, 2 * i);
      NodePastEnd(h, leaves, d - 1, 2 * i + 1);
    }
  }

  /** A complete subtree never changes again. */
  lemma {:induction false} NodeStable<D(!new)>(h: Hasher<D>, leaves: seq<D>, leaf: D, d: nat, i: nat)
    requires i < Shr(|leaves|, d)
    ensures Node(h, leaves + [leaf], d, i) == Node(h, leaves, d, i)
  {
    if d > 0 {
      NodeStable(h, leaves, leaf, d - 1, 2 * i);
      NodeStable(h, leaves, leaf, d - 1, 2 * i + 1);
    }
  }

  // The `len` positions from `a` in one tree hold the same leaves as those from `b` in another.
  ghost predicate SameLeaves<D(!new)>(h: Hasher<D>, xs: seq<D>, a: nat, ys: seq<D>, b: nat, len: nat) {
    forall m: nat, n: nat {:trigger LeafAt(h, xs, m), LeafAt(h, ys, n)} ::
      a <= m < a + len && m - a == n - b ==> LeafAt(h, xs, m) == LeafAt(h, ys, n)
  }

  lemma Halves(i: nat, d: nat)
    requires d > 0
    ensures (2 * i) * Pow2(d - 1) == i * Pow2(d)
    ensures (2 * i + 1) * Pow2(d - 1) == i * Pow2(d) + Pow2(d - 1)
  {
  }

  lemma {:induction false} ShrBelow(n: nat, d: nat)
    ensures Shr(n, d) * Pow2(d) <= n
  {
    if d > 0 {
      ShrBelow(n, d - 1);
      Halves(Shr(n, d), d);
      var p := Pow2(d - 1);
      assert (2 * Shr(n, d)) * p <= Shr(n, d - 1) * p;
    }
  }

  /** A node depends only on the 2^d leaves below it. */
  lemma {:induction false} NodeLocal<D(!new)>(h: Hasher<D>, xs: seq<D>, i: nat, ys: seq<D>, j: nat, d: nat)
    requires SameLeaves(h, xs, i * Pow2(d), ys, j * Pow2(d), Pow2(d))
    ensures Node(h, xs, d, i) == Node(h, ys, d, j)
    decreases d
  {
    if d > 0 {
      Halves(i, d);
      Halves(j, d);
      NodeLocal(h, xs, 2 * i, ys, 2 * j, d - 1);
      NodeLocal(h, xs, 2 * i + 1, ys, 2 * j + 1, d - 1);
    }
  }

  /** The last complete node at a set bit `d` of the leaf count is the root of the perfect subtree
      over the 2^d leaves that start where the higher bits of the count end. */
  lemma PendingNode<D(!new)>(h: Hasher<D>, leaves: seq<D>, d: nat)
    requires BitSet(|leaves|, d)
    ensures var start := Shr(|leaves|, d + 1) * Pow2(d + 1);
      start + Pow2(d) <= |leaves| &&
      Node(h, leaves, d, Shr(|leaves|, d) - 1) == Root(h, leaves[start..start + Pow2(d)], d)
  {
    var i := Shr(|leaves|, d) - 1;
    var start := i * Pow2(d);
    Halves(i / 2, d + 1);
    ShrBelow(|leaves|, d);
    assert start + Pow2(d) == (i + 1) * Pow2(d);
    var window := leaves[start..start + Pow2(d)];
    assert SameLeaves(h, leaves, start, window, 0 * Pow2(d), Pow2(d));
    NodeLocal(h, leaves, i, window, 0, d);
  }

  // ----- zero_subtrees, reference_root -----

  method ZeroSubtrees<D(!new)>(h: Hasher<D>, depth: nat) returns (z: seq<D>)
    ensures |z| == depth + 1
    ensures forall d :: 0 <= d <= depth ==> z[d] == Z(h, d)
  {
    z := [h.empty];
    for i := 0 to depth
      invariant |z| == i + 1
      invariant forall d :: 0 <= d <= i ==> z[d] == Z(h, d)
    {
      z := z + [h.H(z[i], z[i])];
    }
  }

  // `level` holds the nodes of level `d` that are not known to be empty.
  ghost predicate IsLevel<D(!new)>(h: Hasher<D>, leaves: seq<D>, d: nat, level: seq<D>) {
    && (forall i :: 0 <= i < |level| ==> level[i] == Node(h, leaves, d, i))
    && (forall i: nat :: i >= |level| ==> Node(h, leaves, d, i) == Z(h, d))
  }

  method NextLevel<D(!new)>(h: Hasher<D>, ghost leaves: seq<D>, d: nat, level: seq<D>, zd: D) returns (next: seq<D>)
    requires IsLevel(h, leaves, d, level)
    requires zd == Z(h, d)
    ensures |next| == (|level| + 1) / 2
    ensures IsLevel(h, leaves, d + 1, next)
  {
    next := [];
    var i := 0;
    while i < |level|
      invariant i == 2 * |next| <= |level| + 1
      invariant forall j :: 0 <= j < |next| ==> next[j] == Node(h, leaves, d + 1, j)
    {
      var l := level[i];
      var r := if i + 1 < |level| then level[i + 1] else zd;
      assert r == Node(h, leaves, d, i + 1);
      next := next + [h.H(l, r)];
      i := i + 2;
    }
    ghost var e := d + 1;
    forall j: nat | j >= |next| ensures Node(h, leaves, e, j) == Z(h, e) {
      assert Node(h, leaves, d, 2 * j) == Z(h, d) && Node(h, leaves, d, 2 * j + 1) == Z(h, d);
    }
  }

  /** Rebuilding the tree level by level gives the root of the padded tree, for any number of leaves. */
  method ReferenceRoot<D(!new)>(h: Hasher<D>, leaves: seq<D>, depth: nat) returns (root: D)
    ensures root == Root(h, leaves, depth)
  {
    var z := ZeroSubtrees(h, depth);
    var level := leaves;
    for d := 0 to depth
      invariant IsLevel(h, leaves, d, level)
      invariant d > 0 ==> |level| > 0
    {
      var next := NextLevel(h, leaves, d, level, z[d]);
      if next == [] {
        next := [z[d + 1]];
      }
      level := next;
    }
    root := if level == [] then h.empty else level[0];
  }

  // ----- the frontier -----

  /** For each set bit `d` of the leaf count, `nodes[d]` is the last complete node of level `d`. The
      slots at clear bits are stale and unconstrained. */
  ghost predicate Pending<D(!new)>(h: Hasher<D>, leaves: seq<D>, nodes: seq<D>) {
    && |leaves| <= Pow2(|nodes|)
    && forall d :: 0 <= d < |nodes| && BitSet(|leaves|, d) ==> nodes[d] == Node(h, leaves, d, Shr(|leaves|, d) - 1)
  }

  /** Storing the carried node at the first clear bit keeps every pending node right. */
  lemma StoreKeepsPending<D(!new)>(h: Hasher<D>, leaves: seq<D>, leaf: D, nodes: seq<D>, d: nat, node: D)
    requires Pending(h, leaves, nodes) && |leaves| < Pow2(|nodes|)
    requires d <= |nodes| && LowBitsSet(|leaves|, d)
    requires d < |nodes| ==> !BitSet(|leaves|, d) && node == Node(h, leaves + [leaf], d, Shr(|leaves|, d))
    ensures Pending(h, leaves + [leaf], if d < |nodes| then nodes[d := node] else nodes)
  {
    var n := |leaves|;
    forall e | 0 <= e < |nodes| && BitSet(n + 1, e)
      ensures e == d || (BitSet(n, e) && Shr(n + 1, e) == Shr(n, e))
      ensures e != d ==> Node(h, leaves + [leaf], e, Shr(n + 1, e) - 1) == nodes[e]
    {
      CarryAround(n, d, e);
      if e > d {
        NodeStable(h, leaves, leaf, e, Shr(n, e) - 1);
      }
    }
    CarryAround(n, d, d);
  }

  /** One pending left node per level, and a leaf counter. `leaves` is the history. */
  class Frontier<D(!new)> {
    const h: Hasher<D>
    const depth: nat
    var nodes: array<D>
    var leafCount: nat
    ghost var leaves: seq<D>

    ghost predicate Valid()
      reads this, nodes
    {
      nodes.Length == depth && |leaves| == leafCount && Pending(h, leaves, nodes[..])
    }

    constructor (h: Hasher<D>, depth: nat)
      ensures Valid() && fresh(nodes)
      ensures this.h == h && this.depth == depth && leaves == []
    {
      this.h := h;
      this.depth := depth;
      nodes := new D[depth](_ => h.empty);
      leafCount := 0;
      leaves := [];
      new;
      forall d | 0 <= d < depth ensures !BitSet(0, d) { ShrZero(0, d); Pow2Monotone(0, d); }
    }

    // A frontier taken up from storage.
    constructor Resume(h: Hasher<D>, nodes: seq<D>, leafCount: nat, ghost leaves: seq<D>)
      requires |leaves| == leafCount && Pending(h, leaves, nodes)
      ensures Valid() && fresh(this.nodes)
      ensures this.h == h && this.depth == |nodes| && this.leafCount == leafCount && this.leaves == leaves
    {
      this.h := h;
      this.depth := |nodes|;
      this.nodes := new D[|nodes|](i requires 0 <= i < |nodes| => nodes[i]);
      this.leafCount := leafCount;
      this.leaves := leaves;
      new;
      assert this.nodes[..] == nodes;
    }

    method Insert(leaf: D) returns (ok: bool)
      requires Valid()
      modifies this`leafCount, this`leaves, nodes
      ensures Valid()
      ensures ok <==> old(leafCount) < Pow2(depth)
      ensures leaves == if ok then old(leaves) + [leaf] else old(leaves)
      ensures !ok ==> leafCount == old(leafCount) && nodes[..] == old(nodes[..])
    {
      if leafCount >= Pow2(depth) {
        return false;
      }
      ghost var n := leafCount;
      ghost var grown := leaves + [leaf];
      var node := leaf;
      var idx := leafCount;
      var d := 0;
      while d < depth
        modifies nodes
        invariant 0 <= d <= depth
        invariant idx == Shr(n, d) && LowBitsSet(n, d)
        invariant node == Node(h, grown, d, idx)
        invariant nodes[..] == old(nodes[..])
      {
        if idx % 2 == 0 {
          nodes[d] := node;
          break;
        }
        NodeStable(h, leaves, leaf, d, idx - 1);
        node := h.H(nodes[d], node);
        idx := idx / 2;
        d := d + 1;
      }
      StoreKeepsPending(h, leaves, leaf, old(nodes[..]), d, node);
      leafCount := leafCount + 1;
      leaves := grown;
      ok := true;
    }

    /** The fold visits the node above the next free position at every level, so it ends at the root
        of the padded tree, unless the tree is full: then that position lies outside the tree. */
    method CurrentRoot() returns (root: D)
      requires Valid()
      ensures leafCount < Pow2(depth) ==> root == Root(h, leaves, depth)
      ensures leafCount == Pow2(depth) ==> root == Z(h, depth)
    {
      var z := ZeroSubtrees(h, depth);
      root := z[0];
      var idx := leafCount;
      for d := 0 to depth
        invariant idx == Shr(leafCount, d)
        invariant root == Node(h, leaves, d, idx)
      {
        if idx % 2 == 1 {
          root := h.H(nodes[d], root);
        } else {
          NodePastEnd(h, leaves, d, idx + 1);
          root := h.H(root, z[d]);
        }
        idx := idx / 2;
      }
      ShrZero(leafCount, depth);
      if leafCount == Pow2(depth) {
        ShrFull(depth);
        FullNode(h, leaves, depth);
      }
    }
  }

  lemma {:induction false} FullNode<D(!new)>(h: Hasher<D>, leaves: seq<D>, d: nat)
    requires |leaves| == Pow2(d)
    ensures Node(h, leaves, d, 1) == Z(h, d)
  {
    NodeLocal(h, leaves, 1, [], 1, d);
    ShrZero(0, d);
    NodePastEnd(h, [], d, 1);
  }

  /** A whole run: inserting any leaves into a fresh frontier gives the root of the tree over
      exactly those leaves in order, as long as one slot stays free; filling the last slot makes the
      fold return the empty root. Leaves beyond the capacity are refused. */
  method InsertAll<D(!new)>(h: Hasher<D>, depth: nat, leaves: seq<D>) returns (root: D, accepted: nat)
    ensures accepted == if |leaves| <= Pow2(depth) then |leaves| else Pow2(depth)
    ensures root == if |leaves| < Pow2(depth) then Root(h, leaves, depth) else Z(h, depth)
  {
    var f := new Frontier<D>(h, depth);
    accepted := 0;
    for i := 0 to |leaves|
      invariant f.Valid() && fresh(f) && fresh(f.nodes) && f.h == h && f.depth == depth
      invariant f.leafCount == accepted == if i <= Pow2(depth) then i else Pow2(depth)
      invariant f.leaves == leaves[..accepted]
    {
      var ok := f.Insert(leaves[i]);
      if ok {
        accepted := accepted + 1;
      }
    }
    assert leaves[..|leaves|] == leaves;
    root := f.CurrentRoot();
  }

  // ----- paths -----

  // The node reached from `leaf` after `d` levels.
  function Fold<D(!new)>(h: Hasher<D>, leaf: D, index: nat, siblings: seq<D>, d: nat): D
    requires d <= |siblings|
  {
    if d == 0 then leaf
    else
      var below := Fold(h, leaf, index, siblings, d - 1);
      if BitSet(index, d - 1) then h.H(siblings[d - 1], below) else h.H(below, siblings[d - 1])
  }

  method VerifyMerklePath<D(!new, ==)>(h: Hasher<D>, leaf: D, index: nat, siblings: seq<D>, root: D) returns (ok: bool)
    ensures ok <==> Fold(h, leaf, index, siblings, |siblings|) == root
  {
    var node := leaf;
    var idx := index;
    for d := 0 to |siblings|
      invariant idx == Shr(index, d)
      invariant node == Fold(h, leaf, index, siblings, d)
    {
      node := if idx % 2 == 0 then h.H(node, siblings[d]) else h.H(siblings[d], node);
      idx := idx / 2;
    }
    ok := node == root;
  }

  function Sibling(i: nat): nat {
    if i % 2 == 0 then i + 1 else i - 1
  }

  /** The path of position `index`: at each level the neighbour, which is Z[d] past the end. */
  ghost predicate IsPathOf<D(!new)>(h: Hasher<D>, leaves: seq<D>, index: nat, siblings: seq<D>) {
    forall d :: 0 <= d < |siblings| ==> siblings[d] == Node(h, leaves, d, Sibling(Shr(index, d)))
  }

  lemma ParentNode<D(!new)>(h: Hasher<D>, leaves: seq<D>, d: nat, i: nat)
    ensures Node(h, leaves, d + 1, i / 2)
         == if i % 2 == 1 then h.H(Node(h, leaves, d, Sibling(i)), Node(h, leaves, d, i))
            else h.H(Node(h, leaves, d, i), Node(h, leaves, d, Sibling(i)))
  {
  }

  lemma {:induction false} PathFolds<D(!new)>(h: Hasher<D>, leaves: seq<D>, index: nat, siblings: seq<D>, d: nat)
    requires d <= |siblings| && IsPathOf(h, leaves, index, siblings)
    ensures Fold(h, LeafAt(h, leaves, index), index, siblings, d) == Node(h, leaves, d, Shr(index, d))
    decreases d
  {
    if d > 0 {
      PathFolds(h, leaves, index, siblings, d - 1);
      ParentNode(h, leaves, d - 1, Shr(index, d - 1));
    }
  }

  /** Extracting a path level by level, padding with Z[d], as the wallet does. */
  method ExtractPath<D(!new)>(h: Hasher<D>, leaves: seq<D>, index: nat, depth: nat) returns (siblings: seq<D>)
    ensures |siblings| == depth && IsPathOf(h, leaves, index, siblings)
  {
    var z := ZeroSubtrees(h, depth);
    siblings := [];
    var level, idx := leaves, index;
    for d := 0 to depth
      invariant IsLevel(h, leaves, d, level)
      invariant idx == Shr(index, d)
      invariant |siblings| == d && IsPathOf(h, leaves, index, siblings)
    {
      var s := Sibling(idx);
      siblings := siblings + [if s < |level| then level[s] else z[d]];
      level := NextLevel(h, leaves, d, level, z[d]);
      idx := idx / 2;
    }
  }

  /** Every position of a tree has a path that the check accepts against its root. */
  lemma EveryLeafProvable<D(!new)>(h: Hasher<D>, leaves: seq<D>, index: nat, siblings: seq<D>)
    requires IsPathOf(h, leaves, index, siblings)
    requires index < Pow2(|siblings|)
    ensures Fold(h, LeafAt(h, leaves, index), index, siblings, |siblings|) == Root(h, leaves, |siblings|)
  {
    PathFolds(h, leaves, index, siblings, |siblings|);
    ShrZero(index, |siblings|);
  }

  /** Every inserted leaf stays provable: after any run that leaves a slot free, the path extracted for any
      position is accepted against the frontier's own root. */
  method InsertedLeafVerifies<D(!new, ==)>(h: Hasher<D>, depth: nat, leaves: seq<D>, index: nat) returns (ok: bool)
    requires index < |leaves| < Pow2(depth)
    ensures ok
  {
    var root, _ := InsertAll(h, depth, leaves);
    var siblings := ExtractPath(h, leaves, index, depth);
    EveryLeafProvable(h, leaves, index, siblings);
    ok := VerifyMerklePath(h, leaves[index], index, siblings, root);
  }

  // ----- binding -----

  datatype Pair<D> = Pair(left: D, right: D)

  datatype Collision<D> = Same | Found(x: Pair<D>, y: Pair<D>)

  ghost predicate Genuine<D(!new)>(h: Hasher<D>, c: Collision<D>) {
    c.Found? && c.x != c.y && h.H(c.x.left, c.x.right) == h.H(c.y.left, c.y.right)
  }

  // The two children that the path hashes at level `d`, and the two that the tree hashes there.
  function PathPair<D(!new)>(h: Hasher<D>, leaf: D, index: nat, siblings: seq<D>, d: nat): Pair<D>
    requires d < |siblings|
  {
    var below := Fold(h, leaf, index, siblings, d);
    if BitSet(index, d) then Pair(siblings[d], below) else Pair(below, siblings[d])
  }

  function TreePair<D(!new)>(h: Hasher<D>, leaves: seq<D>, index: nat, d: nat): Pair<D> {
    var i := Shr(index, d + 1);
    Pair(Node(h, leaves, d, 2 * i), Node(h, leaves, d, 2 * i + 1))
  }

  /** Walks down from level `d` comparing what the path hashed with what the tree hashed. */
  ghost function FindCollision<D(!new)>(
    h: Hasher<D>, leaves: seq<D>, leaf: D, index: nat, siblings: seq<D>, d: nat): Collision<D>
    requires d <= |siblings|
  {
    if d == 0 then Same
    else
      var x, y := PathPair(h, leaf, index, siblings, d - 1), TreePair(h, leaves, index, d - 1);
      if x != y then Found(x, y) else FindCollision(h, leaves, leaf, index, siblings, d - 1)
  }

  lemma {:induction false} FoldBinds<D(!new)>(
    h: Hasher<D>, leaves: seq<D>, leaf: D, index: nat, siblings: seq<D>, d: nat)
    requires d <= |siblings|
    requires Fold(h, leaf, index, siblings, d) == Node(h, leaves, d, Shr(index, d))
    ensures leaf == LeafAt(h, leaves, index) || Genuine(h, FindCollision(h, leaves, leaf, index, siblings, d))
  {
    if d > 0 && PathPair(h, leaf, index, siblings, d - 1) == TreePair(h, leaves, index, d - 1) {
      FoldBinds(h, leaves, leaf, index, siblings, d - 1);
    }
  }

  /** An accepted path names the leaf at its position, or the walk down exhibits two different
      inputs of the node hash with the same output. */
  lemma PathBinds<D(!new)>(h: Hasher<D>, leaves: seq<D>, leaf: D, index: nat, siblings: seq<D>)
    requires index < Pow2(|siblings|)
    requires Fold(h, leaf, index, siblings, |siblings|) == Root(h, leaves, |siblings|)
    ensures leaf == LeafAt(h, leaves, index)
         || Genuine(h, FindCollision(h, leaves, leaf, index, siblings, |siblings|))
  {
    ShrZero(index, |siblings|);
    FoldBinds(h, leaves, leaf, index, siblings, |siblings|);
  }

  /** The path of a position in the tree itself exhibits nothing. */
  lemma {:induction false} OwnPathIsSame<D(!new)>(h: Hasher<D>, leaves: seq<D>, index: nat, siblings: seq<D>, d: nat)
    requires d <= |siblings| && IsPathOf(h, leaves, index, siblings)
    ensures FindCollision(h, leaves, LeafAt(h, leaves, index), index, siblings, d) == Same
    decreases d
  {
    if d > 0 {
      PathFolds(h, leaves, index, siblings, d - 1);
      OwnPathIsSame(h, leaves, index, siblings, d - 1);
    }
  }

  // ----- trees seen through an encoding -----

  // `m` carries one tree to the other: it maps the empty leaf and commutes with hashing.
  ghost predicate Carries<D(!new), E(!new)>(h: Hasher<D>, g: Hasher<E>, m: D -> E) {
    && m(h.empty) == g.empty
    && forall l, r :: m(h.H(l, r)) == g.H(m(l), m(r))
  }

  function Map<D, E>(m: D -> E, xs: seq<D>): (ys: seq<E>)
    ensures |ys| == |xs|
    ensures forall i :: 0 <= i < |xs| ==> ys[i] == m(xs[i])
  {
    if xs == [] then [] else [m(xs[0])] + Map(m, xs[1..])
  }

  lemma {:induction false} NodeCarried<D(!new), E(!new)>(
    h: Hasher<D>, g: Hasher<E>, m: D -> E, leaves: seq<D>, d: nat, i: nat)
    requires Carries(h, g, m)
    ensures m(Node(h, leaves, d, i)) == Node(g, Map(m, leaves), d, i)
    decreases d
  {
    if d > 0 {
      NodeCarried(h, g, m, leaves, d - 1, 2 * i);
      NodeCarried(h, g, m, leaves, d - 1, 2 * i + 1);
    }
  }

  lemma {:induction false} FoldCarried<D(!new), E(!new)>(
    h: Hasher<D>, g: Hasher<E>, m: D -> E, leaf: D, index: nat, siblings: seq<D>, d: nat)
    requires Carries(h, g, m)
    requires d <= |siblings|
    ensures m(Fold(h, leaf, index, siblings, d)) == Fold(g, m(leaf), index, Map(m, siblings), d)
    decreases d
  {
    if d > 0 {
      FoldCarried(h, g, m, leaf, index, siblings, d - 1);
    }
  }

  lemma PathCarried<D(!new), E(!new)>(
    h: Hasher<D>, g: Hasher<E>, m: D -> E, leaves: seq<D>, index: nat, siblings: seq<D>)
    requires Carries(h, g, m) && IsPathOf(h, leaves, index, siblings)
    ensures IsPathOf(g, Map(m, leaves), index, Map(m, siblings))
  {
    forall d | 0 <= d < |siblings|
      ensures Map(m, siblings)[d] == Node(g, Map(m, leaves), d, Sibling(Shr(index, d)))
    {
      NodeCarried(h, g, m, leaves, d, Sibling(Shr(index, d)));
    }
  }

  /** An accepted path in the encoded tree names its leaf up to the encoding, or exhibits a collision
      of the hash underneath. */
  lemma CarriedPathBinds<D(!new), E(!new)>(
    h: Hasher<D>, g: Hasher<E>, m: D -> E, leaves: seq<D>, leaf: D, index: nat, siblings: seq<D>)
    requires Carries(h, g, m)
    requires index < Pow2(|siblings|)
    requires m(Fold(h, leaf, index, siblings, |siblings|)) == m(Root(h, leaves, |siblings|))
    ensures m(leaf) == m(LeafAt(h, leaves, index))
         || Genuine(g, FindCollision(g, Map(m, leaves), m(leaf), index, Map(m, siblings), |siblings|))
  {
    FoldCarried(h, g, m, leaf, index, siblings, |siblings|);
    NodeCarried(h, g, m, leaves, |siblings|, 0);
    PathBinds(g, Map(m, leaves), m(leaf), index, Map(m, siblings));
  }
}
