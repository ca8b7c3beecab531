/** What the records of a v2 pool prove about its money. As long as the records exhibit no break of a
    hash and no two recorded nullifiers spell the same limbs, no note is spent twice and nothing leaves
    that did not come in.

    The argument holds for any hashes, so it is made for any: `D` is what the chain stores (32 bytes)
    and `L` what the circuits see (two field elements). */
module PoolLedger {
  import opened Bits
  import opened Merkle
  import opened NoteTree

  datatype Note<L> = Note(v: U64, b: L, pkd: L)

  datatype Hashes<!D(!new), !L(!new)> = Hashes(
    bytes: Hasher<D>,         // `merkle_hash2` on stored digests
    limbs: Hasher<L>,         // the same hash as the circuit computes it
    unpack: D -> L,
    note: (nat, L, L) -> L,   // value, blinding, key digest
    nullifier: L -> L)
  {
    function NoteOf(n: Note<L>): L { note(n.v, n.b, n.pkd) }

    ghost predicate Coherent() {
      Carries(bytes, limbs, unpack)
    }
  }

  /** A leaf of the tree with the note that its insertion proved. */
  datatype Entry<D, L> = Entry(leaf: D, note: Note<L>)

  /** An accepted spend: the note it opened, the nullifier it published, the path it used, how many
      leaves its anchor root covered, and how the value was split into payment and change. */
  datatype Spend<D, L> = Spend(
    note: Note<L>, nullifier: D, index: nat, siblings: seq<L>, seen: nat, paid: U64, change: U64)

  /** Everything that happened so far: the total paid in, what payments left in the pool, and the dust that
      payouts burned. */
  datatype History<D, L> = History(
    entries: seq<Entry<D, L>>, spends: seq<Spend<D, L>>, deposited: nat, kept: nat, burned: nat)

  function Leaves<D, L>(es: seq<Entry<D, L>>): (ls: seq<D>)
    ensures |ls| == |es|
    ensures forall i :: 0 <= i < |es| ==> ls[i] == es[i].leaf
  {
    seq(|es|, i requires 0 <= i < |es| => es[i].leaf)
  }

  /** The root that stood when the tree had `m` leaves: the storage default before the first insert,
      and the empty root once the tree is full. */
  function RootAfter<D(!new), L(!new)>(c: Hashes<D, L>, leaves: seq<D>, m: nat): D
    requires m <= |leaves|
  {
    if m == 0 then c.bytes.empty
    else if m < Pow2(MERKLE_DEPTH) then Root(c.bytes, leaves[..m], MERKLE_DEPTH)
    else Z(c.bytes, MERKLE_DEPTH)
  }

  // The leaves that an anchor root stands for: none once the tree is full.
  function Under<D>(leaves: seq<D>, m: nat): seq<D>
    requires m <= |leaves|
  {
    if m < Pow2(MERKLE_DEPTH) then leaves[..m] else []
  }

  // ----- sums -----

  function EntryTotal<D, L>(es: seq<Entry<D, L>>): nat {
    if es == [] then 0 else EntryTotal(es[..|es| - 1]) + es[|es| - 1].note.v
  }

  function PaidTotal<D, L>(ss: seq<Spend<D, L>>): nat {
    if ss == [] then 0 else PaidTotal(ss[..|ss| - 1]) + ss[|ss| - 1].paid
  }

  function ChangeTotal<D, L>(ss: seq<Spend<D, L>>): nat {
    if ss == [] then 0 else ChangeTotal(ss[..|ss| - 1]) + ss[|ss| - 1].change
  }

  // ----- what acceptance has recorded -----

  ghost predicate EntryOk<D(!new), L(!new)>(c: Hashes<D, L>, e: Entry<D, L>) {
    c.NoteOf(e.note) == c.unpack(e.leaf)
  }

  ghost predicate SpendOk<D(!new), L(!new)>(c: Hashes<D, L>, leaves: seq<D>, s: Spend<D, L>) {
    && s.seen <= |leaves|
    && |s.siblings| == MERKLE_DEPTH && s.index < Pow2(MERKLE_DEPTH)
    && c.nullifier(s.note.b) == c.unpack(s.nullifier)
    && Fold(c.limbs, c.NoteOf(s.note), s.index, s.siblings, MERKLE_DEPTH) == c.unpack(RootAfter(c, leaves, s.seen))
    && s.note.v == s.change + s.paid
  }

  ghost predicate EntriesOk<D(!new), L(!new)>(c: Hashes<D, L>, es: seq<Entry<D, L>>) {
    forall i :: 0 <= i < |es| ==> EntryOk(c, es[i])
  }

  ghost predicate SpendsOk<D(!new), L(!new)>(c: Hashes<D, L>, leaves: seq<D>, ss: seq<Spend<D, L>>) {
    forall i :: 0 <= i < |ss| ==> SpendOk(c, leaves, ss[i])
  }

  ghost predicate DifferAt<D(!new), L>(ss: seq<Spend<D, L>>, i: nat, j: nat)
    requires i < |ss| && j < |ss|
  {
    ss[i].nullifier != ss[j].nullifier
  }

  ghost predicate NullifiersDiffer<D(!new), L>(ss: seq<Spend<D, L>>) {
    forall i, j :: 0 <= i < j < |ss| ==> DifferAt(ss, i, j)
  }

  ghost predicate Recorded<D(!new), L(!new)>(c: Hashes<D, L>, h: History<D, L>) {
    && EntriesOk(c, h.entries)
    && SpendsOk(c, Leaves(h.entries), h.spends)
    && NullifiersDiffer(h.spends)
    && EntryTotal(h.entries) == h.deposited + ChangeTotal(h.spends)
  }

  // ----- the breaks that the records could exhibit -----

  // The walk down this spend's path meets two different inputs of the node hash with one output.
  ghost predicate PathBroken<D(!new), L(!new)>(c: Hashes<D, L>, leaves: seq<D>, s: Spend<D, L>)
    requires s.seen <= |leaves| && |s.siblings| == MERKLE_DEPTH
  {
    var under := Map(c.unpack, Under(leaves, s.seen));
    Genuine(c.limbs, FindCollision(c.limbs, under, c.NoteOf(s.note), s.index, s.siblings, MERKLE_DEPTH))
  }

  // The spend opened the digest of an empty position, or hashed its path to the zero root.
  ghost predicate ZeroBroken<D(!new), L(!new)>(c: Hashes<D, L>, s: Spend<D, L>)
    requires |s.siblings| == MERKLE_DEPTH
  {
    || c.NoteOf(s.note) == c.limbs.empty
    || Fold(c.limbs, c.NoteOf(s.note), s.index, s.siblings, MERKLE_DEPTH) == c.limbs.empty
  }

  // Two different notes with one digest, one spent and one inserted.
  ghost predicate NoteBroken<D(!new), L(!new)>(c: Hashes<D, L>, s: Spend<D, L>, e: Entry<D, L>) {
    s.note != e.note && c.NoteOf(s.note) == c.NoteOf(e.note)
  }

  /** No spend exhibits a break of a hash. */
  ghost predicate Unbroken<D(!new), L(!new)>(c: Hashes<D, L>, h: History<D, L>)
    requires Recorded(c, h)
  {
    && (forall i :: 0 <= i < |h.spends| ==> !PathBroken(c, Leaves(h.entries), h.spends[i]))
    && (forall i :: 0 <= i < |h.spends| ==> !ZeroBroken(c, h.spends[i]))
    && (forall i, j :: 0 <= i < |h.spends| && 0 <= j < |h.entries| ==> !NoteBroken(c, h.spends[i], h.entries[j]))
  }

  // Two recorded nullifiers that the circuit cannot tell apart.
  ghost predicate AliasedAt<D(!new), L(!new)>(c: Hashes<D, L>, ss: seq<Spend<D, L>>, i: nat, j: nat)
    requires i < |ss| && j < |ss|
  {
    c.unpack(ss[i].nullifier) == c.unpack(ss[j].nullifier)
  }

  /** No two recorded nullifiers are spellings of the same limbs. The pallet compares bytes and does
      not enforce this. */
  ghost predicate Unaliased<D(!new), L(!new)>(c: Hashes<D, L>, ss: seq<Spend<D, L>>) {
    forall i, j :: 0 <= i < j < |ss| ==> !AliasedAt(c, ss, i, j)
  }

  /** A digest is the only one with its limbs. */
  ghost predicate AliasFree<D(!new), L(!new)>(c: Hashes<D, L>, d: D) {
    forall e :: c.unpack(e) == c.unpack(d) ==> e == d
  }

  /** Checking each nullifier before it is accepted is enough. */
  lemma AliasFreeSuffices<D(!new), L(!new)>(c: Hashes<D, L>, h: History<D, L>)
    requires Recorded(c, h) && forall i :: 0 <= i < |h.spends| ==> AliasFree(c, h.spends[i].nullifier)
    ensures Unaliased(c, h.spends)
  {
    forall i, j | 0 <= i < j < |h.spends| ensures !AliasedAt(c, h.spends, i, j) {
      assert DifferAt(h.spends, i, j) && AliasFree(c, h.spends[i].nullifier);
    }
  }

  // ----- what each call adds to the records -----

  /** Roots that stood before an insertion are the same roots after it. */
  lemma RootsStay<D(!new), L(!new)>(c: Hashes<D, L>, leaves: seq<D>, more: seq<D>, m: nat)
    requires leaves <= more && m <= |leaves|
    ensures RootAfter(c, more, m) == RootAfter(c, leaves, m)
  {
    assert more[..m] == leaves[..m];
  }

  lemma EntriesGrow<D(!new), L(!new)>(c: Hashes<D, L>, es: seq<Entry<D, L>>, e: Entry<D, L>)
    requires EntriesOk(c, es) && EntryOk(c, e)
    ensures EntriesOk(c, es + [e])
    ensures Leaves(es + [e]) == Leaves(es) + [e.leaf]
    ensures EntryTotal(es + [e]) == EntryTotal(es) + e.note.v
  {
    assert (es + [e])[..|es|] == es;
  }

  lemma SpendsStay<D(!new), L(!new)>(c: Hashes<D, L>, leaves: seq<D>, more: seq<D>, ss: seq<Spend<D, L>>)
    requires leaves <= more && SpendsOk(c, leaves, ss)
    ensures SpendsOk(c, more, ss)
  {
    forall i | 0 <= i < |ss| ensures SpendOk(c, more, ss[i]) {
      assert SpendOk(c, leaves, ss[i]);
      RootsStay(c, leaves, more, ss[i].seen);
    }
  }

  lemma SpendsGrow<D(!new), L(!new)>(c: Hashes<D, L>, leaves: seq<D>, ss: seq<Spend<D, L>>, s: Spend<D, L>)
    requires SpendsOk(c, leaves, ss) && SpendOk(c, leaves, s)
    ensures SpendsOk(c, leaves, ss + [s])
    ensures ChangeTotal(ss + [s]) == ChangeTotal(ss) + s.change
    ensures PaidTotal(ss + [s]) == PaidTotal(ss) + s.paid
  {
    assert (ss + [s])[..|ss|] == ss;
  }

  ghost predicate Fresh<D(!new), L>(ss: seq<Spend<D, L>>, nullifier: D) {
    forall i :: 0 <= i < |ss| ==> ss[i].nullifier != nullifier
  }

  lemma NullifiersStayDifferent<D(!new), L>(ss: seq<Spend<D, L>>, s: Spend<D, L>)
    requires NullifiersDiffer(ss) && Fresh(ss, s.nullifier)
    ensures NullifiersDiffer(ss + [s])
  {
    forall i, j | 0 <= i < j < |ss + [s]| ensures DifferAt(ss + [s], i, j) {
      assert j < |ss| ==> DifferAt(ss, i, j);
    }
  }

  function WithDeposit<D, L>(h: History<D, L>, e: Entry<D, L>): History<D, L> {
    h.(entries := h.entries + [e], deposited := h.deposited + e.note.v)
  }

  function WithSpend<D, L>(h: History<D, L>, s: Spend<D, L>, left: nat, dust: nat): History<D, L> {
    h.(spends := h.spends + [s], kept := h.kept + left, burned := h.burned + dust)
  }

  function WithChange<D, L>(h: History<D, L>, s: Spend<D, L>, e: Entry<D, L>, left: nat, dust: nat): History<D, L> {
    h.(entries := h.entries + [e], spends := h.spends + [s], kept := h.kept + left, burned := h.burned + dust)
  }

  /** A deposit adds a note of exactly the value paid in. */
  lemma DepositRecorded<D(!new), L(!new)>(c: Hashes<D, L>, h: History<D, L>, e: Entry<D, L>)
    requires Recorded(c, h) && EntryOk(c, e)
    ensures Recorded(c, WithDeposit(h, e))
  {
    EntriesGrow(c, h.entries, e);
    SpendsStay(c, Leaves(h.entries), Leaves(h.entries + [e]), h.spends);
  }

  /** A withdrawal consumes a note and leaves no change. */
  lemma WithdrawRecorded<D(!new), L(!new)>(
    c: Hashes<D, L>, h: History<D, L>, s: Spend<D, L>, left: nat, dust: nat)
    requires Recorded(c, h) && SpendOk(c, Leaves(h.entries), s) && s.change == 0 && Fresh(h.spends, s.nullifier)
    ensures Recorded(c, WithSpend(h, s, left, dust))
  {
    SpendsGrow(c, Leaves(h.entries), h.spends, s);
    NullifiersStayDifferent(h.spends, s);
  }

  /** A purchase consumes a note and inserts its change. */
  lemma PurchaseRecorded<D(!new), L(!new)>(
    c: Hashes<D, L>, h: History<D, L>, s: Spend<D, L>, e: Entry<D, L>, left: nat, dust: nat)
    requires Recorded(c, h) && SpendOk(c, Leaves(h.entries), s) && Fresh(h.spends, s.nullifier)
    requires EntryOk(c, e) && e.note.v == s.change
    ensures Recorded(c, WithChange(h, s, e, left, dust))
  {
    SpendsGrow(c, Leaves(h.entries), h.spends, s);
    NullifiersStayDifferent(h.spends, s);
    EntriesGrow(c, h.entries, e);
    SpendsStay(c, Leaves(h.entries), Leaves(h.entries + [e]), h.spends + [s]);
  }

  // ----- every spend names an inserted note -----

  lemma AnchorLimbs<D(!new), L(!new)>(c: Hashes<D, L>, leaves: seq<D>, m: nat)
    requires c.Coherent() && 0 < m <= |leaves|
    ensures c.unpack(RootAfter(c, leaves, m)) == Root(c.limbs, Map(c.unpack, Under(leaves, m)), MERKLE_DEPTH)
  {
    NodeCarried(c.bytes, c.limbs, c.unpack, Under(leaves, m), MERKLE_DEPTH, 0);
    EmptyRoot(c.bytes, MERKLE_DEPTH);
  }

  lemma {:induction false} EmptyNode<D(!new)>(h: Hasher<D>, d: nat, i: nat)
    ensures Node(h, [], d, i) == Z(h, d)
  {
    if d > 0 {
      EmptyNode(h, d - 1, 2 * i);
      EmptyNode(h, d - 1, 2 * i + 1);
    }
  }

  lemma EmptyRoot<D(!new)>(h: Hasher<D>, d: nat)
    ensures Root(h, [], d) == Z(h, d)
  {
    EmptyNode(h, d, 0);
  }

  lemma PrefixLeaf<D(!new)>(g: Hasher<D>, under: seq<D>, leaf: D, index: nat, siblings: seq<D>)
    requires leaf != g.empty
    requires index < Pow2(|siblings|)
    requires Fold(g, leaf, index, siblings, |siblings|) == Root(g, under, |siblings|)
    requires !Genuine(g, FindCollision(g, under, leaf, index, siblings, |siblings|))
    ensures index < |under| && leaf == under[index]
  {
    PathBinds(g, under, leaf, index, siblings);
  }

  lemma FirstAnchorIsZero<D(!new), L(!new)>(c: Hashes<D, L>, leaves: seq<D>)
    requires c.Coherent()
    ensures c.unpack(RootAfter(c, leaves, 0)) == c.limbs.empty
  {
  }

  lemma AnchorHolds<D(!new), L(!new)>(c: Hashes<D, L>, leaves: seq<D>, s: Spend<D, L>)
    requires c.Coherent() && SpendOk(c, leaves, s) && !ZeroBroken(c, s)
    ensures Fold(c.limbs, c.NoteOf(s.note), s.index, s.siblings, MERKLE_DEPTH)
         == Root(c.limbs, Map(c.unpack, Under(leaves, s.seen)), MERKLE_DEPTH)
  {
    if s.seen == 0 {
      FirstAnchorIsZero(c, leaves);
    } else {
      AnchorLimbs(c, leaves, s.seen);
    }
  }

  /** The leaf that an unbroken spend opened lies under its anchor root. */
  lemma SpendOpensLeaf<D(!new), L(!new)>(c: Hashes<D, L>, leaves: seq<D>, s: Spend<D, L>)
    requires c.Coherent() && SpendOk(c, leaves, s)
    requires !PathBroken(c, leaves, s) && !ZeroBroken(c, s)
    ensures s.index < |Under(leaves, s.seen)| && c.NoteOf(s.note) == c.unpack(leaves[s.index])
  {
    var under := Under(leaves, s.seen);
    AnchorHolds(c, leaves, s);
    PrefixLeaf(c.limbs, Map(c.unpack, under), c.NoteOf(s.note), s.index, s.siblings);
    assert under[s.index] == leaves[s.index];
  }

  /** An accepted spend whose records are unbroken opened exactly the note at its index, which was
      inserted before its anchor root and is not in the last slot of the tree. */
  lemma SpendNamesEntry<D(!new), L(!new)>(c: Hashes<D, L>, h: History<D, L>, i: nat)
    requires c.Coherent() && Recorded(c, h) && Unbroken(c, h)
    requires i < |h.spends|
    ensures h.spends[i].index < h.spends[i].seen <= |h.entries|
    ensures h.spends[i].index < Pow2(MERKLE_DEPTH) - 1
    ensures h.entries[h.spends[i].index].note == h.spends[i].note
  {
    var s, leaves := h.spends[i], Leaves(h.entries);
    assert SpendOk(c, leaves, s) && !PathBroken(c, leaves, s) && !ZeroBroken(c, s);
    SpendOpensLeaf(c, leaves, s);
    var e := h.entries[s.index];
    assert EntryOk(c, e) && !NoteBroken(c, s, e);
  }

  /** Two accepted spends open the same note only under two spellings of one nullifier. */
  lemma SharedNoteAliased<D(!new), L(!new)>(c: Hashes<D, L>, h: History<D, L>, i: nat, j: nat)
    requires c.Coherent() && Recorded(c, h) && Unbroken(c, h)
    requires i < j < |h.spends| && h.spends[i].index == h.spends[j].index
    ensures h.spends[i].nullifier != h.spends[j].nullifier && AliasedAt(c, h.spends, i, j)
  {
    var s, u := h.spends[i], h.spends[j];
    assert SpendOk(c, Leaves(h.entries), s) && SpendOk(c, Leaves(h.entries), u);
    assert DifferAt(h.spends, i, j);
    SpendNamesEntry(c, h, i);
    SpendNamesEntry(c, h, j);
  }

  /** No note is spent twice while no two recorded nullifiers are aliases. */
  lemma NoDoubleSpend<D(!new), L(!new)>(c: Hashes<D, L>, h: History<D, L>, i: nat, j: nat)
    requires c.Coherent() && Recorded(c, h) && Unbroken(c, h) && Unaliased(c, h.spends)
    requires i < j < |h.spends|
    ensures h.spends[i].index != h.spends[j].index
  {
    assert !AliasedAt(c, h.spends, i, j);
    if h.spends[i].index == h.spends[j].index {
      SharedNoteAliased(c, h, i, j);
    }
  }

  // ----- conservation -----

  function SpentTotal<D, L>(ss: seq<Spend<D, L>>): nat {
    if ss == [] then 0 else SpentTotal(ss[..|ss| - 1]) + ss[|ss| - 1].note.v
  }

  lemma {:induction false} SpentSplits<D, L>(ss: seq<Spend<D, L>>)
    requires forall i :: 0 <= i < |ss| ==> ss[i].note.v == ss[i].change + ss[i].paid
    ensures SpentTotal(ss) == PaidTotal(ss) + ChangeTotal(ss)
  {
    if ss != [] {
      SpentSplits(ss[..|ss| - 1]);
    }
  }

  function Sum(xs: seq<nat>): nat {
    if xs == [] then 0 else Sum(xs[..|xs| - 1]) + xs[|xs| - 1]
  }

  lemma {:induction false} SumWithout(xs: seq<nat>, i: nat)
    requires i < |xs|
    ensures Sum(xs) == Sum(xs[i := 0]) + xs[i]
  {
    var last := |xs| - 1;
    if i == last {
      assert xs[i := 0][..last] == xs[..last];
    } else {
      assert xs[i := 0][..last] == xs[..last][i := 0];
      SumWithout(xs[..last], i);
    }
  }

  // The values left after each spend has taken the one at its index.
  function Cleared<D, L>(xs: seq<nat>, ss: seq<Spend<D, L>>): (ys: seq<nat>)
    requires forall i :: 0 <= i < |ss| ==> ss[i].index < |xs|
    ensures |ys| == |xs|
    decreases |ss|
  {
    if ss == [] then xs else Cleared(xs, ss[..|ss| - 1])[ss[|ss| - 1].index := 0]
  }

  /** A value is left exactly when no spend named it. */
  lemma {:induction false} ClearedAt<D, L>(xs: seq<nat>, ss: seq<Spend<D, L>>, i: nat)
    requires forall j :: 0 <= j < |ss| ==> ss[j].index < |xs|
    requires i < |xs|
    ensures (forall j :: 0 <= j < |ss| ==> ss[j].index != i) ==> Cleared(xs, ss)[i] == xs[i]
    ensures (exists j :: 0 <= j < |ss| && ss[j].index == i) ==> Cleared(xs, ss)[i] == 0
    decreases |ss|
  {
    if ss != [] {
      ClearedAt(xs, ss[..|ss| - 1], i);
    }
  }

  /** Picking values at different positions takes exactly their sum. */
  lemma {:induction false} DistinctPicks<D, L>(xs: seq<nat>, ss: seq<Spend<D, L>>)
    requires forall i :: 0 <= i < |ss| ==> ss[i].index < |xs| && xs[ss[i].index] == ss[i].note.v
    requires forall i, j :: 0 <= i < j < |ss| ==> ss[i].index != ss[j].index
    ensures SpentTotal(ss) + Sum(Cleared(xs, ss)) == Sum(xs)
    decreases |ss|
  {
    if ss != [] {
      var rest, last := ss[..|ss| - 1], ss[|ss| - 1];
      DistinctPicks(xs, rest);
      ClearedAt(xs, rest, last.index);
      SumWithout(Cleared(xs, rest), last.index);
    }
  }

  lemma {:induction false} SumAtLeast(xs: seq<nat>, i: nat)
    requires i < |xs|
    ensures xs[i] <= Sum(xs)
  {
    SumWithout(xs, i);
  }

  function Values<D, L>(es: seq<Entry<D, L>>): (vs: seq<nat>)
    ensures |vs| == |es|
    ensures forall i :: 0 <= i < |es| ==> vs[i] == es[i].note.v
  {
    seq(|es|, i requires 0 <= i < |es| => es[i].note.v)
  }

  lemma {:induction false} ValuesSum<D, L>(es: seq<Entry<D, L>>)
    ensures Sum(Values(es)) == EntryTotal(es)
  {
    if es != [] {
      assert Values(es)[..|es| - 1] == Values(es[..|es| - 1]);
      ValuesSum(es[..|es| - 1]);
    }
  }

  lemma PicksAreValues<D(!new), L(!new)>(c: Hashes<D, L>, h: History<D, L>)
    requires c.Coherent() && Recorded(c, h) && Unbroken(c, h)
    ensures forall i :: 0 <= i < |h.spends| ==>
      h.spends[i].index < |h.entries| && Values(h.entries)[h.spends[i].index] == h.spends[i].note.v
  {
    forall i | 0 <= i < |h.spends|
      ensures h.spends[i].index < |h.entries| && Values(h.entries)[h.spends[i].index] == h.spends[i].note.v
    {
      SpendNamesEntry(c, h, i);
    }
  }

  lemma SpentBalances<D(!new), L(!new)>(c: Hashes<D, L>, h: History<D, L>)
    requires Recorded(c, h)
    ensures SpentTotal(h.spends) - EntryTotal(h.entries) == PaidTotal(h.spends) - h.deposited
  {
    forall i | 0 <= i < |h.spends| ensures h.spends[i].note.v == h.spends[i].change + h.spends[i].paid {
      assert SpendOk(c, Leaves(h.entries), h.spends[i]);
    }
    SpentSplits(h.spends);
  }

  /** The total value of the notes that no spend has named. */
  function Outstanding<D, L>(h: History<D, L>): nat
    requires forall i :: 0 <= i < |h.spends| ==> h.spends[i].index < |h.entries|
  {
    Sum(Cleared(Values(h.entries), h.spends))
  }

  /** Conservation: what was paid in is what was paid out plus the value of the unspent notes. */
  lemma Conserved<D(!new), L(!new)>(c: Hashes<D, L>, h: History<D, L>)
    requires c.Coherent() && Recorded(c, h) && Unbroken(c, h) && Unaliased(c, h.spends)
    ensures forall i :: 0 <= i < |h.spends| ==> h.spends[i].index < |h.entries|
    ensures h.deposited == PaidTotal(h.spends) + Outstanding(h)
  {
    PicksAreValues(c, h);
    forall i, j | 0 <= i < j < |h.spends| ensures h.spends[i].index != h.spends[j].index {
      NoDoubleSpend(c, h, i, j);
    }
    DistinctPicks(Values(h.entries), h.spends);
    ValuesSum(h.entries);
    SpentBalances(c, h);
  }

  /** Solvency: what spends paid out never exceeds what deposits paid in. */
  lemma Solvent<D(!new), L(!new)>(c: Hashes<D, L>, h: History<D, L>)
    requires c.Coherent() && Recorded(c, h) && Unbroken(c, h) && Unaliased(c, h.spends)
    ensures PaidTotal(h.spends) <= h.deposited
  {
    Conserved(c, h);
  }

  /** What remains always covers each note that was not spent yet. */
  lemma UnspentCovered<D(!new), L(!new)>(c: Hashes<D, L>, h: History<D, L>, i: nat)
    requires c.Coherent() && Recorded(c, h) && Unbroken(c, h) && Unaliased(c, h.spends)
    requires i < |h.entries| && forall j :: 0 <= j < |h.spends| ==> h.spends[j].index != i
    ensures h.entries[i].note.v + PaidTotal(h.spends) <= h.deposited
  {
    Conserved(c, h);
    ClearedAt(Values(h.entries), h.spends, i);
    SumAtLeast(Cleared(Values(h.entries), h.spends), i);
  }
}
