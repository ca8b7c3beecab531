/** The v2 lane of the proofs pallet: deposits, private purchases and withdrawals over one note tree.

    Every call is proved to keep the storage and the records of `PoolLedger` in step, for any hashes.
    The verdicts of the two proof systems enter as booleans that are true only of provable statements;
    `PoolCircuits` shows that provable means satisfiable by a trace. */
module ShieldedPool {
  import opened Bits
  import opened Merkle
  import opened NoteTree
  import opened PoolLedger
  import opened PoolStorage
  import LegacyLane

  const WINDOW: nat := 64

  // ----- what the circuits accept -----

  /** What a spend keeps private. */
  datatype Secret<L> = Secret(v: U64, b: L, index: nat, siblings: seq<L>, cv: U64, cb: L)

  /** The public inputs of a spend. */
  datatype Claim<D> = Claim(
    root: D, nullifier: D, pkd: D, price: U64, changeLeaf: D, changePkd: D, purchase: bool)

  ghost predicate SpendOpens<D(!new), L(!new)>(c: Hashes<D, L>, p: Claim<D>, w: Secret<L>) {
    && |w.siblings| == MERKLE_DEPTH && w.index < Pow2(MERKLE_DEPTH)
    && c.nullifier(w.b) == c.unpack(p.nullifier)
    && Fold(c.limbs, c.NoteOf(Note(w.v, w.b, c.unpack(p.pkd))), w.index, w.siblings, MERKLE_DEPTH) == c.unpack(p.root)
    && c.NoteOf(Note(w.cv, w.cb, c.unpack(p.changePkd))) == c.unpack(p.changeLeaf)
    && if p.purchase then w.v == w.cv + p.price else w.v == p.price && w.cv == 0
  }

  ghost predicate SpendProvable<D(!new), L(!new)>(c: Hashes<D, L>, p: Claim<D>) {
    exists w :: SpendOpens(c, p, w)
  }

  ghost predicate DepositOpens<D(!new), L(!new)>(c: Hashes<D, L>, amount: U64, leaf: D, b: L, pkd: L) {
    c.NoteOf(Note(amount, b, pkd)) == c.unpack(leaf)
  }

  ghost predicate DepositProvable<D(!new), L(!new)>(c: Hashes<D, L>, amount: U64, leaf: D) {
    exists b, pkd :: DepositOpens(c, amount, leaf, b, pkd)
  }

  // ----- what the storage holds -----

  ghost predicate IndexOk<D(!new)>(leaves: seq<D>, index: map<D, nat>) {
    && (forall i :: 0 <= i < |leaves| ==> leaves[i] in index && index[leaves[i]] == i)
    && (forall d :: d in index ==> index[d] < |leaves| && leaves[index[d]] == d)
  }

  // How many earlier roots are kept after `n` insertions. The root before the first one never is.
  function WindowLen(n: nat): nat {
    if n == 0 then 0 else if n - 1 < WINDOW then n - 1 else WINDOW
  }

  /** The window holds exactly the latest earlier roots, oldest first. */
  ghost predicate RootsOk<D(!new), L(!new)>(c: Hashes<D, L>, leaves: seq<D>, current: D, recent: seq<D>) {
    var n := |leaves|;
    && current == RootAfter(c, leaves, n)
    && |recent| == WindowLen(n)
    && forall i :: 0 <= i < |recent| ==> recent[i] == RootAfter(c, leaves, n - |recent| + i)
  }

  ghost predicate TreeStored<D(!new), L(!new)>(c: Hashes<D, L>, leaves: seq<D>, s: Storage<D>) {
    && |s.nodes| == MERKLE_DEPTH && s.leafCount == |leaves| && Pending(c.bytes, leaves, s.nodes)
    && IndexOk(leaves, s.leafIndex)
    && RootsOk(c, leaves, s.currentRoot, s.recentRoots)
  }

  // The leaf counts whose roots are still accepted when the tree has `n` leaves.
  predicate InWindow(n: nat, m: nat) {
    n - WindowLen(n) <= m <= n
  }

  ghost predicate AnchoredAt<D(!new), L(!new)>(c: Hashes<D, L>, leaves: seq<D>, root: D, m: nat) {
    InWindow(|leaves|, m) && root == RootAfter(c, leaves, m)
  }

  /** A root anchors a spend when it is the current root or one of those before it in the window. */
  ghost predicate Anchored<D(!new), L(!new)>(c: Hashes<D, L>, leaves: seq<D>, root: D) {
    exists m: nat :: AnchoredAt(c, leaves, root, m)
  }

  /** Money in equals money out: the balance, what was paid out and what was burned as dust make up what
      was deposited and what RWA purchases left behind. */
  ghost predicate Balanced<D(!new), L(!new)>(s: Storage<D>, h: History<D, L>) {
    && s.pool + PaidTotal(h.spends) + h.burned == h.deposited + h.kept
    && AtRest(s.pool)
  }

  /** Storage and records agree. */
  ghost predicate Agree<D(!new), L(!new)>(c: Hashes<D, L>, s: Storage<D>, h: History<D, L>) {
    && TreeStored(c, Leaves(h.entries), s)
    && Recorded(c, h)
    && (forall d :: d in s.nullifiers <==> !Fresh(h.spends, d))
    && Balanced(s, h)
    && s.spendTags == map[]
  }

  // ----- how each call moves them together -----

  // The window after an insertion into a tree of `n` leaves.
  function PushRoot<D>(n: nat, recent: seq<D>, current: D): seq<D> {
    if n == 0 then recent
    else if |recent| >= WINDOW then recent[1..] + [current]
    else recent + [current]
  }

  lemma WindowMoves<D(!new), L(!new)>(
    c: Hashes<D, L>, leaves: seq<D>, leaf: D, current: D, recent: seq<D>, root: D)
    requires RootsOk(c, leaves, current, recent)
    requires root == RootAfter(c, leaves + [leaf], |leaves| + 1)
    ensures RootsOk(c, leaves + [leaf], root, PushRoot(|leaves|, recent, current))
  {
    var n, more, window := |leaves|, leaves + [leaf], PushRoot(|leaves|, recent, current);
    forall i | 0 <= i < |window| ensures window[i] == RootAfter(c, more, n + 1 - |window| + i) {
      RootsStay(c, leaves, more, n + 1 - |window| + i);
    }
  }

  lemma IndexGrows<D(!new)>(leaves: seq<D>, leaf: D, index: map<D, nat>)
    requires IndexOk(leaves, index) && leaf !in leaves
    ensures IndexOk(leaves + [leaf], index[leaf := |leaves|])
  {
  }

  // Nothing outside the tree changed.
  ghost predicate OnlyTreeMoved<D(!new)>(s: Storage<D>, t: Storage<D>) {
    t == s.(nodes := t.nodes, leafCount := t.leafCount, leafIndex := t.leafIndex,
            currentRoot := t.currentRoot, recentRoots := t.recentRoots)
  }

  /** Frontier, index map, root and window move on by one leaf together. */
  lemma TreeGrows<D(!new), L(!new)>(c: Hashes<D, L>, leaves: seq<D>, leaf: D, s: Storage<D>, nodes: seq<D>, root: D)
    requires TreeStored(c, leaves, s) && leaf !in leaves
    requires |nodes| == MERKLE_DEPTH && Pending(c.bytes, leaves + [leaf], nodes)
    requires root == RootAfter(c, leaves + [leaf], |leaves| + 1)
    ensures TreeStored(c, leaves + [leaf], s.(
              nodes := nodes,
              leafCount := s.leafCount + 1,
              leafIndex := s.leafIndex[leaf := s.leafCount],
              currentRoot := root,
              recentRoots := PushRoot(s.leafCount, s.recentRoots, s.currentRoot)))
  {
    IndexGrows(leaves, leaf, s.leafIndex);
    WindowMoves(c, leaves, leaf, s.currentRoot, s.recentRoots, root);
  }

  lemma NullifiersGrow<D(!new), L(!new)>(ss: seq<Spend<D, L>>, s: Spend<D, L>, used: set<D>)
    requires forall d :: d in used <==> !Fresh(ss, d)
    ensures forall d :: d in used + {s.nullifier} <==> !Fresh(ss + [s], d)
  {
    forall d ensures d in used + {s.nullifier} <==> !Fresh(ss + [s], d) {
      if d == s.nullifier {
        assert (ss + [s])[|ss|].nullifier == d;
      } else if d in used {
        var i :| 0 <= i < |ss| && ss[i].nullifier == d;
        assert (ss + [s])[i].nullifier == d;
      }
    }
  }

  // What an opened claim adds to the records.
  function SpendOf<D, L>(unpack: D -> L, p: Claim<D>, w: Secret<L>, seen: nat): Spend<D, L> {
    Spend(Note(w.v, w.b, unpack(p.pkd)), p.nullifier, w.index, w.siblings, seen, p.price, w.cv)
  }

  function ChangeOf<D, L>(unpack: D -> L, p: Claim<D>, w: Secret<L>): Entry<D, L> {
    Entry(p.changeLeaf, Note(w.cv, w.cb, unpack(p.changePkd)))
  }

  lemma OpenedSpend<D(!new), L(!new)>(c: Hashes<D, L>, leaves: seq<D>, p: Claim<D>, w: Secret<L>, seen: nat)
    requires SpendOpens(c, p, w)
    requires seen <= |leaves| && p.root == RootAfter(c, leaves, seen)
    ensures SpendOk(c, leaves, SpendOf(c.unpack, p, w, seen))
    ensures EntryOk(c, ChangeOf(c.unpack, p, w))
  {
  }

  lemma PurchaseAgrees<D(!new), L(!new)>(
    c: Hashes<D, L>, s: Storage<D>, t: Storage<D>, h: History<D, L>, sp: Spend<D, L>, e: Entry<D, L>,
    left: nat, dust: nat)
    returns (more: History<D, L>)
    requires Agree(c, s, h)
    requires SpendOk(c, Leaves(h.entries), sp) && EntryOk(c, e) && e.note.v == sp.change
    requires TreeStored(c, Leaves(h.entries) + [e.leaf], t)
    requires sp.nullifier !in s.nullifiers && t.nullifiers == s.nullifiers + {sp.nullifier} && t.spendTags == map[]
    requires t.pool + sp.paid + dust == s.pool + left && AtRest(t.pool)
    ensures Agree(c, t, more)
    ensures Leaves(more.entries) == Leaves(h.entries) + [e.leaf]
    ensures PaidTotal(more.spends) == PaidTotal(h.spends) + sp.paid
    ensures more == WithChange(h, sp, e, left, dust)
  {
    EntriesGrow(c, h.entries, e);
    SpendsGrow(c, Leaves(h.entries), h.spends, sp);
    PurchaseRecorded(c, h, sp, e, left, dust);
    NullifiersGrow(h.spends, sp, s.nullifiers);
    more := WithChange(h, sp, e, left, dust);
  }

  lemma WithdrawAgrees<D(!new), L(!new)>(
    c: Hashes<D, L>, s: Storage<D>, t: Storage<D>, h: History<D, L>, sp: Spend<D, L>, left: nat, dust: nat)
    returns (more: History<D, L>)
    requires Agree(c, s, h)
    requires SpendOk(c, Leaves(h.entries), sp) && sp.change == 0
    requires TreeStored(c, Leaves(h.entries), t)
    requires sp.nullifier !in s.nullifiers && t.nullifiers == s.nullifiers + {sp.nullifier} && t.spendTags == map[]
    requires t.pool + sp.paid + dust == s.pool + left && AtRest(t.pool)
    ensures Agree(c, t, more)
    ensures PaidTotal(more.spends) == PaidTotal(h.spends) + sp.paid
    ensures more == WithSpend(h, sp, left, dust)
  {
    SpendsGrow(c, Leaves(h.entries), h.spends, sp);
    WithdrawRecorded(c, h, sp, left, dust);
    NullifiersGrow(h.spends, sp, s.nullifiers);
    more := WithSpend(h, sp, left, dust);
  }

  /** A claim whose root stood used up a fresh nullifier and inserted its change leaf. */
  ghost predicate Consumed<D(!new), L(!new)>(
    c: Hashes<D, L>, leaves: seq<D>, s: Storage<D>, t: Storage<D>, p: Claim<D>, seen: nat)
  {
    && p.nullifier !in s.nullifiers
    && seen <= |leaves| && p.root == RootAfter(c, leaves, seen)
    && TreeStored(c, leaves + [p.changeLeaf], t)
    && OnlyTreeMoved(s.(nullifiers := s.nullifiers + {p.nullifier}, owners := t.owners, pool := t.pool), t)
  }

  /** One more spend is on record: the one that `w` opened, against a root that stood when the tree had
      some number of leaves. */
  ghost predicate SpendAdded<D(!new), L(!new)>(
    unpack: D -> L, ss: seq<Spend<D, L>>, more: seq<Spend<D, L>>, p: Claim<D>, w: Secret<L>)
  {
    && |more| == |ss| + 1 && more[..|ss|] == ss
    && more[|ss|] == SpendOf(unpack, p, w, more[|ss|].seen)
    && PaidTotal(more) == PaidTotal(ss) + p.price
  }

  /** What an accepted purchase does, apart from the pool and the ownership records: the nullifier is used,
      the spend and the change note are recorded after all earlier ones, `left` of the price is kept and
      `dust` is burned. */
  ghost predicate Purchased<D(!new), L(!new)>(
    unpack: D -> L, s: Storage<D>, h: History<D, L>, t: Storage<D>, g: History<D, L>, p: Claim<D>, w: Secret<L>,
    left: nat, dust: nat)
  {
    && t.nullifiers == s.nullifiers + {p.nullifier}
    && g == h.(entries := h.entries + [ChangeOf(unpack, p, w)], spends := g.spends,
               kept := h.kept + left, burned := h.burned + dust)
    && SpendAdded(unpack, h.spends, g.spends, p, w)
    && Leaves(g.entries) == Leaves(h.entries) + [p.changeLeaf]
  }

  /** What an accepted withdrawal does to the records. */
  ghost predicate Withdrawn<D(!new), L(!new)>(
    unpack: D -> L, h: History<D, L>, g: History<D, L>, p: Claim<D>, w: Secret<L>, left: nat, dust: nat)
  {
    && g == h.(spends := g.spends, kept := h.kept + left, burned := h.burned + dust)
    && SpendAdded(unpack, h.spends, g.spends, p, w)
  }

  /** What an accepted deposit does: its note is recorded after all earlier ones, and only the tree and the
      pool change. */
  ghost predicate Deposited<D(!new), L(!new)>(
    s: Storage<D>, h: History<D, L>, t: Storage<D>, g: History<D, L>, e: Entry<D, L>)
  {
    && g == h.(entries := h.entries + [e], deposited := h.deposited + e.note.v)
    && Leaves(g.entries) == Leaves(h.entries) + [e.leaf]
    && OnlyTreeMoved(s.(pool := s.pool + e.note.v), t)
  }

  /** An accepted deposit enters the records as the note that was proved. */
  lemma DepositEnters<D(!new), L(!new)>(
    c: Hashes<D, L>, s: Storage<D>, t: Storage<D>, h: History<D, L>, e: Entry<D, L>)
    returns (more: History<D, L>)
    requires Agree(c, s, h) && EntryOk(c, e)
    requires TreeStored(c, Leaves(h.entries) + [e.leaf], t)
    requires OnlyTreeMoved(s.(pool := s.pool + e.note.v), t) && AtRest(t.pool)
    ensures Agree(c, t, more)
    ensures Deposited(s, h, t, more, e)
  {
    EntriesGrow(c, h.entries, e);
    DepositRecorded(c, h, e);
    more := WithDeposit(h, e);
  }

  /** An accepted purchase enters the records. The pool keeps `left` of the price and burns `dust`. */
  lemma PurchaseEnters<D(!new), L(!new)>(
    c: Hashes<D, L>, s: Storage<D>, t: Storage<D>, h: History<D, L>, p: Claim<D>, w: Secret<L>, seen: nat,
    left: nat, dust: nat)
    returns (more: History<D, L>)
    requires Agree(c, s, h) && SpendOpens(c, p, w)
    requires Consumed(c, Leaves(h.entries), s, t, p, seen)
    requires t.pool + p.price + dust == s.pool + left && AtRest(t.pool)
    ensures Agree(c, t, more)
    ensures Purchased(c.unpack, s, h, t, more, p, w, left, dust)
  {
    OpenedSpend(c, Leaves(h.entries), p, w, seen);
    more := PurchaseAgrees(
      c, s, t, h, SpendOf(c.unpack, p, w, seen), ChangeOf(c.unpack, p, w), left, dust);
  }

  /** An accepted withdrawal enters the records. */
  lemma WithdrawEnters<D(!new), L(!new)>(
    c: Hashes<D, L>, s: Storage<D>, t: Storage<D>, h: History<D, L>, p: Claim<D>, w: Secret<L>, seen: nat,
    left: nat, dust: nat)
    returns (more: History<D, L>)
    requires Agree(c, s, h) && !p.purchase && SpendOpens(c, p, w)
    requires seen <= |h.entries| && p.root == RootAfter(c, Leaves(h.entries), seen)
    requires TreeStored(c, Leaves(h.entries), t)
    requires p.nullifier !in s.nullifiers && t.nullifiers == s.nullifiers + {p.nullifier} && t.spendTags == map[]
    requires t.pool + p.price + dust == s.pool + left && AtRest(t.pool)
    ensures Agree(c, t, more)
    ensures Withdrawn(c.unpack, h, more, p, w, left, dust)
  {
    OpenedSpend(c, Leaves(h.entries), p, w, seen);
    more := WithdrawAgrees(c, s, t, h, SpendOf(c.unpack, p, w, seen), left, dust);
  }

  // ----- the order of the checks -----

  function SpendCheck(
    unused: bool, anchored: bool, priced: bool, unpriced: Error, signed: bool, accepted: bool): Outcome
  {
    if !unused then Refused(NullifierAlreadyUsed)
    else if !anchored then Refused(RootNotRecent)
    else if !priced then Refused(unpriced)
    else if !signed then Refused(MlDsaFailed)
    else if !accepted then Refused(ProofVerificationFailed)
    else Accepted
  }

  function InsertCheck(known: bool, full: bool): Outcome {
    if known then Refused(DuplicateLeaf) else if full then Refused(TreeFullV2) else Accepted
  }

  /** The checks that the three spending calls share, in their order. */
  ghost function ClaimCheck<D(!new), L(!new)>(
    c: Hashes<D, L>, leaves: seq<D>, used: set<D>, p: Claim<D>, priced: bool, unpriced: Error,
    signed: bool, accepted: bool): Outcome
  {
    SpendCheck(p.nullifier !in used, Anchored(c, leaves, p.root), priced, unpriced, signed, accepted)
  }

  /** Those of a purchase, which inserts its change leaf as well. */
  ghost function PurchaseCheck<D(!new), L(!new)>(
    c: Hashes<D, L>, leaves: seq<D>, used: set<D>, p: Claim<D>, unpriced: Error, signed: bool, accepted: bool): Outcome
  {
    Then(ClaimCheck(c, leaves, used, p, p.price > 0, unpriced, signed, accepted),
         InsertCheck(p.changeLeaf in leaves, |leaves| == Pow2(MERKLE_DEPTH)))
  }

  // ----- the pallet -----

  /** `v2_insert_leaf` of the runtime: takes a frontier up from storage, inserts, and hands it back with
      its root. Nothing when the tree is full. */
  method V2InsertLeaf<D(!new)>(h: Hasher<D>, nodes: seq<D>, leafCount: nat, leaf: D, ghost leaves: seq<D>)
    returns (r: Option<(seq<D>, nat, D)>)
    requires |leaves| == leafCount && Pending(h, leaves, nodes)
    ensures r.None? <==> leafCount == Pow2(|nodes|)
    ensures r.Some? ==>
      && |r.value.0| == |nodes| && Pending(h, leaves + [leaf], r.value.0) && r.value.1 == leafCount + 1
      && r.value.2 == if leafCount + 1 < Pow2(|nodes|) then Root(h, leaves + [leaf], |nodes|) else Z(h, |nodes|)
  {
    var frontier := new Frontier<D>.Resume(h, nodes, leafCount, leaves);
    var ok := frontier.Insert(leaf);
    if !ok {
      return None;
    }
    var root := frontier.CurrentRoot();
    r := Some((frontier.nodes[..], frontier.leafCount, root));
  }

  class Pool<D(!new, ==), L(!new)> {
    const c: Hashes<D, L>
    const zeroChangeLeaf: D
    var store: Storage<D>
    ghost var history: History<D, L>

    ghost predicate Valid()
      reads this
    {
      Agree(c, store, history)
    }

    ghost function Inserted(): seq<D>
      reads this`history
    {
      Leaves(history.entries)
    }

    ghost predicate Full()
      reads this`history
    {
      |history.entries| == Pow2(MERKLE_DEPTH)
    }

    constructor (c: Hashes<D, L>, zeroChangeLeaf: D)
      ensures Valid() && this.c == c && this.zeroChangeLeaf == zeroChangeLeaf
      ensures history == History([], [], 0, 0, 0) && store.pool == 0 && store.nullifiers == {}
    {
      this.c := c;
      this.zeroChangeLeaf := zeroChangeLeaf;
      store := Storage(seq(MERKLE_DEPTH, _ => c.bytes.empty), 0, map[], c.bytes.empty, [], {}, map[], {}, 0,
                       map[], map[], map[], {}, {});
      history := History([], [], 0, 0, 0);
      new;
      forall d | 0 <= d < MERKLE_DEPTH ensures !BitSet(0, d) { ShrZero(0, d); Pow2Monotone(0, d); }
    }

    /** `v2_root_anchored`. */
    method V2RootAnchored(root: D) returns (ok: bool, ghost seen: nat)
      requires Valid()
      ensures ok <==> Anchored(c, Inserted(), root)
      ensures ok ==> AnchoredAt(c, Inserted(), root, seen)
    {
      ghost var n := |Inserted()|;
      seen := n;
      if root == store.currentRoot {
        assert AnchoredAt(c, Inserted(), root, n);
        return true, n;
      }
      var w := store.recentRoots;
      for i := 0 to |w|
        invariant forall m: nat :: n - |w| <= m < n - |w| + i ==> !AnchoredAt(c, Inserted(), root, m)
      {
        assert w[i] == RootAfter(c, Inserted(), n - |w| + i);
        if w[i] == root {
          assert AnchoredAt(c, Inserted(), root, n - |w| + i);
          return true, n - |w| + i;
        }
      }
      ok := false;
    }

    /** `v2_insert`: refuses a leaf that is already in the tree and a full tree, and changes nothing
        then. */
    method V2Insert(leaf: D, ghost leaves: seq<D>) returns (r: Outcome)
      requires TreeStored(c, leaves, store)
      modifies this`store
      ensures r == InsertCheck(leaf in leaves, |leaves| == Pow2(MERKLE_DEPTH))
      ensures r.Refused? ==> store == old(store)
      ensures r.Accepted? ==> TreeStored(c, leaves + [leaf], store)
      ensures OnlyTreeMoved(old(store), store)
    {
      if leaf in store.leafIndex {
        return Refused(DuplicateLeaf);
      }
      var inserted := V2InsertLeaf(c.bytes, store.nodes, store.leafCount, leaf, leaves);
      match inserted {
        case None =>
          return Refused(TreeFullV2);
        case Some((nodes, count, root)) =>
          assert (leaves + [leaf])[..|leaves| + 1] == leaves + [leaf];
          TreeGrows(c, leaves, leaf, store, nodes, root);
          store := store.(
            nodes := nodes,
            leafCount := count,
            leafIndex := store.leafIndex[leaf := store.leafCount],
            currentRoot := root,
            recentRoots := PushRoot(store.leafCount, store.recentRoots, store.currentRoot));
          r := Accepted;
      }
    }

    // Takes a payment in and inserts a leaf, or does neither.
    method PayAndInsert(amount: nat, leaf: D, ghost leaves: seq<D>) returns (r: Outcome)
      requires TreeStored(c, leaves, store)
      modifies this`store
      ensures r == InsertCheck(leaf in leaves, |leaves| == Pow2(MERKLE_DEPTH))
      ensures r.Refused? ==> store == old(store)
      ensures r.Accepted? ==>
        && TreeStored(c, leaves + [leaf], store)
        && OnlyTreeMoved(old(store).(pool := old(store).pool + amount), store)
    {
      var before := store;
      store := store.(pool := store.pool + amount);
      r := V2Insert(leaf, leaves);
      if r.Refused? {
        store := before;
      }
    }

    // A deposit whose proof and payment stand.
    method InsertPaid(leaf: D, amount: U64, ghost e: Entry<D, L>) returns (r: Outcome)
      requires Valid() && EntryOk(c, e) && e.leaf == leaf && e.note.v == amount && AtRest(store.pool + amount)
      modifies this
      ensures Valid()
      ensures r == InsertCheck(leaf in old(Inserted()), old(Full()))
      ensures r.Refused? ==> store == old(store) && history == old(history)
      ensures r.Accepted? ==> Deposited(old(store), old(history), store, history, e)
    {
      var before := store;
      r := PayAndInsert(amount, leaf, Inserted());
      if r.Accepted? {
        history := DepositEnters(c, before, store, history, e);
      }
    }

    /** `deposit_v2`. `accepted` is the verdict on the deposit proof, whose witness is `b` and `pkd`, and
        `paid` whether the depositor can make the payment. */
    method DepositV2(leaf: D, amount: U64, accepted: bool, paid: bool, ghost b: L, ghost pkd: L) returns (r: Outcome)
      requires Valid()
      requires accepted ==> DepositOpens(c, amount, leaf, b, pkd)
      modifies this
      ensures Valid()
      ensures r == Then(PaymentCheck(old(store).pool, amount, accepted, paid),
                        InsertCheck(leaf in old(Inserted()), old(Full())))
      ensures r.Refused? ==> store == old(store) && history == old(history)
      ensures r.Accepted? ==>
        Deposited(old(store), old(history), store, history, Entry(leaf, Note(amount, b, pkd)))
    {
      r := PaymentCheck(store.pool, amount, accepted, paid);
      if r.Accepted? {
        r := InsertPaid(leaf, amount, Entry(leaf, Note(amount, b, pkd)));
      }
    }

    // The checks that the three spending calls share, in their order.
    method CheckSpend(p: Claim<D>, priced: bool, unpriced: Error, signed: bool, accepted: bool)
      returns (r: Outcome, ghost seen: nat)
      requires Valid()
      ensures r == ClaimCheck(c, Inserted(), store.nullifiers, p, priced, unpriced, signed, accepted)
      ensures r.Accepted? ==> AnchoredAt(c, Inserted(), p.root, seen)
    {
      seen := 0;
      if p.nullifier in store.nullifiers {
        return Refused(NullifierAlreadyUsed), 0;
      }
      var anchored;
      anchored, seen := V2RootAnchored(p.root);
      if !anchored {
        return Refused(RootNotRecent), seen;
      }
      if !priced {
        return Refused(unpriced), seen;
      }
      if !signed {
        return Refused(MlDsaFailed), seen;
      }
      if !accepted {
        return Refused(ProofVerificationFailed), seen;
      }
      r := Accepted;
    }

    // Uses up a nullifier and inserts a change leaf, or does neither.
    method MarkAndInsert(nullifier: D, changeLeaf: D, ghost leaves: seq<D>) returns (r: Outcome)
      requires TreeStored(c, leaves, store)
      modifies this`store
      ensures r == InsertCheck(changeLeaf in leaves, |leaves| == Pow2(MERKLE_DEPTH))
      ensures r.Refused? ==> store == old(store)
      ensures r.Accepted? ==>
        && TreeStored(c, leaves + [changeLeaf], store)
        && OnlyTreeMoved(old(store).(nullifiers := old(store.nullifiers) + {nullifier}), store)
    {
      var before := store;
      store := store.(nullifiers := store.nullifiers + {nullifier});
      r := V2Insert(changeLeaf, leaves);
      if r.Refused? {
        store := before;
      }
    }

    // What the two purchases share: the checks, then the nullifier and the change leaf.
    method ConsumeAndInsert(p: Claim<D>, unpriced: Error, signed: bool, accepted: bool)
      returns (r: Outcome, ghost seen: nat)
      requires Valid()
      modifies this`store
      ensures var first := ClaimCheck(c, Inserted(), old(store).nullifiers, p, p.price > 0, unpriced, signed, accepted);
        && (first.Refused? ==> r == first)
        && (first.Accepted? ==> r == InsertCheck(p.changeLeaf in Inserted(), Full()))
      ensures r.Refused? ==> store == old(store)
      ensures r.Accepted? ==> Consumed(c, Inserted(), old(store), store, p, seen)
      ensures store.pool == old(store).pool && store.owners == old(store).owners
    {
      r, seen := CheckSpend(p, p.price > 0, unpriced, signed, accepted);
      if r.Accepted? {
        r := MarkAndInsert(p.nullifier, p.changeLeaf, Inserted());
      }
    }

    /** `purchase_rwa_v2`. The price stays in the pool. `w` is the witness of the proof. */
    method PurchaseRwaV2(
      p: Claim<D>, tx: TxId, ownership: D, signed: bool, accepted: bool, ghost w: Secret<L>) returns (r: Outcome)
      requires Valid() && p.purchase
      requires signed && accepted ==> SpendOpens(c, p, w)
      modifies this
      ensures Valid()
      ensures r == PurchaseCheck(c, old(Inserted()), old(store).nullifiers, p, RwaPriceNotSet, signed, accepted)
      ensures r.Refused? ==> store == old(store) && history == old(history)
      ensures r.Accepted? ==>
        && Purchased(c.unpack, old(store), old(history), store, history, p, w, p.price, 0)
        && store.pool == old(store).pool && store.owners == old(store).owners[tx := ownership]
    {
      var before := store;
      ghost var seen: nat;
      r, seen := ConsumeAndInsert(p, RwaPriceNotSet, signed, accepted);
      if r.Refused? {
        return;
      }
      store := store.(owners := store.owners[tx := ownership]);
      history := PurchaseEnters(c, before, store, history, p, w, seen, p.price, 0);
    }

    /** `purchase_access_v2`. The pool pays the price to the payment account. */
    method PurchaseAccessV2(p: Claim<D>, signed: bool, accepted: bool, to: Payee, ghost w: Secret<L>)
      returns (r: Outcome)
      requires Valid() && p.purchase
      requires signed && accepted ==> SpendOpens(c, p, w)
      modifies this
      ensures Valid()
      ensures r == Then(PurchaseCheck(c, old(Inserted()), old(store).nullifiers, p, AccessAppNotConfigured,
                                      signed, accepted),
                        PayoutCheck(old(store).pool, p.price, to))
      ensures r.Refused? ==> store == old(store) && history == old(history)
      ensures r.Accepted? ==>
        && Purchased(c.unpack, old(store), old(history), store, history, p, w,
                     Retained(p.price, to), Dust(old(store).pool, p.price, to))
        && store.pool == AfterPayout(old(store).pool, p.price, to) && store.owners == old(store).owners
    {
      var before := store;
      ghost var seen: nat;
      r, seen := ConsumeAndInsert(p, AccessAppNotConfigured, signed, accepted);
      if r.Refused? {
        return;
      }
      r := PayoutCheck(store.pool, p.price, to);
      if r.Refused? {
        store := before;
        return;
      }
      store := store.(pool := AfterPayout(store.pool, p.price, to));
      history := PurchaseEnters(
        c, before, store, history, p, w, seen, Retained(p.price, to), Dust(before.pool, p.price, to));
    }

    /** `withdraw_v2`. No change leaf is inserted: the claim carries the fixed zero change. */
    method WithdrawV2(
      root: D, nullifier: D, pkd: D, amount: U64, signed: bool, accepted: bool, to: Payee, ghost w: Secret<L>)
      returns (r: Outcome)
      requires Valid()
      requires signed && accepted ==> SpendOpens(c, Withdrawal(root, nullifier, pkd, amount), w)
      modifies this
      ensures Valid()
      ensures r == Then(ClaimCheck(c, old(Inserted()), old(store).nullifiers, Withdrawal(root, nullifier, pkd, amount),
                                   true, RwaPriceNotSet, signed, accepted),
                        PayoutCheck(old(store).pool, amount, to))
      ensures r.Refused? ==> store == old(store) && history == old(history)
      ensures r.Accepted? ==>
        && Withdrawn(c.unpack, old(history), history, Withdrawal(root, nullifier, pkd, amount), w,
                     Retained(amount, to), Dust(old(store).pool, amount, to))
        && store == old(store).(nullifiers := old(store).nullifiers + {nullifier},
                                pool := AfterPayout(old(store).pool, amount, to))
    {
      var p := Withdrawal(root, nullifier, pkd, amount);
      ghost var seen: nat;
      r, seen := CheckSpend(p, true, RwaPriceNotSet, signed, accepted);
      if r.Refused? {
        return;
      }
      var before := store;
      store := store.(nullifiers := store.nullifiers + {nullifier});
      r := PayoutCheck(store.pool, amount, to);
      if r.Refused? {
        store := before;
        return;
      }
      store := store.(pool := AfterPayout(store.pool, amount, to));
      history := WithdrawEnters(
        c, before, store, history, p, w, seen, Retained(amount, to), Dust(before.pool, amount, to));
    }

    // The claim that a withdrawal makes.
    function Withdrawal(root: D, nullifier: D, pkd: D, amount: U64): Claim<D> {
      Claim(root, nullifier, pkd, amount, zeroChangeLeaf, c.bytes.empty, false)
    }

    /** Any legacy call on a chain that started with this storage: refused, with nothing changed. */
    method RunLegacy(call: LegacyLane.Call<D>) returns (r: Outcome)
      requires Valid()
      modifies this`store
      ensures Valid() && r.Refused? && store == old(store)
    {
      LegacyLane.Refuses(store, call);
      var step := LegacyLane.Run(store, call);
      store, r := step.storage, step.outcome;
    }
  }
}
