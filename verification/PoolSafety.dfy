/** What every reachable state of the pool promises about money and notes, with the exact conditions. */
module PoolSafety {
  import opened Bits
  import opened Merkle
  import opened NoteTree
  import opened PoolLedger
  import opened PoolStorage
  import opened ShieldedPool

  /** Storage and records agree, and the records exhibit no break of a hash. */
  ghost predicate Clean<D(!new), L(!new)>(c: Hashes<D, L>, s: Storage<D>, h: History<D, L>) {
    c.Coherent() && Agree(c, s, h) && Unbroken(c, h)
  }

  // ----- one note, one nullifier? -----

  /** The circuit cannot tell two spellings of a nullifier apart. */
  lemma RespelledOpens<D(!new), L(!new)>(c: Hashes<D, L>, p: Claim<D>, w: Secret<L>, n: D)
    requires SpendOpens(c, p, w)
    ensures SpendOpens(c, p.(nullifier := n), w) <==> c.unpack(n) == c.unpack(p.nullifier)
  {
  }

  ghost predicate OnlySpelling<D(!new), L(!new)>(c: Hashes<D, L>, used: set<D>, d: D) {
    forall n :: n in used && c.unpack(n) == c.unpack(d) ==> n == d
  }

  ghost predicate SpendableAs<D(!new), L(!new)>(c: Hashes<D, L>, used: set<D>, p: Claim<D>, w: Secret<L>, n: D) {
    n !in used && SpendOpens(c, p.(nullifier := n), w)
  }

  /** Once a note's nullifier is used, the same opening passes the nullifier check and the proof again
      exactly when that nullifier is not the only digest with its limbs. */
  lemma SpendableAgainIff<D(!new), L(!new)>(c: Hashes<D, L>, used: set<D>, p: Claim<D>, w: Secret<L>)
    requires SpendOpens(c, p, w) && p.nullifier in used && OnlySpelling(c, used, p.nullifier)
    ensures (exists n :: SpendableAs(c, used, p, w, n)) <==> !AliasFree(c, p.nullifier)
  {
    if n :| SpendableAs(c, used, p, w, n) {
      RespelledOpens(c, p, w, n);
    }
    if n :| c.unpack(n) == c.unpack(p.nullifier) && n != p.nullifier {
      RespelledOpens(c, p, w, n);
      assert SpendableAs(c, used, p, w, n);
    }
  }

  // A payee that decodes, can be credited and is not the pool itself.
  const OUTSIDE := Payee(true, false, true)

  /** The counterexample to spending each note once: a nullifier and another spelling of it are both
      accepted for one opening, and the pool pays twice. */
  method WithdrawTwice<D(!new, ==), L(!new)>(
    pool: Pool<D, L>, root: D, n: D, alias: D, pkd: D, amount: U64, ghost w: Secret<L>)
    returns (first: Outcome, second: Outcome)
    requires pool.Valid()
    requires n != alias && pool.c.unpack(alias) == pool.c.unpack(n)
    requires n !in pool.store.nullifiers && alias !in pool.store.nullifiers
    requires Anchored(pool.c, pool.Inserted(), root) && SpendOpens(pool.c, pool.Withdrawal(root, n, pkd, amount), w)
    requires 2 * amount + EXISTENTIAL_DEPOSIT <= pool.store.pool
    modifies pool
    ensures pool.Valid() && first == second == Accepted
    ensures pool.Inserted() == old(pool.Inserted())
    ensures pool.store.pool == old(pool.store.pool) - 2 * amount
  {
    RespelledOpens(pool.c, pool.Withdrawal(root, n, pkd, amount), w, alias);
    first := pool.WithdrawV2(root, n, pkd, amount, true, true, OUTSIDE, w);
    second := pool.WithdrawV2(root, alias, pkd, amount, true, true, OUTSIDE, w);
  }

  /** Notes that share a blinding share a nullifier: once one of them is spent under a digest without
      aliases, every claim that opens another is refused, whatever its root, price and proofs. */
  lemma BlindingFrozen<D(!new), L(!new)>(
    c: Hashes<D, L>, leaves: seq<D>, used: set<D>, p: Claim<D>, w: Secret<L>, n: D,
    priced: bool, unpriced: Error, signed: bool, accepted: bool)
    requires SpendOpens(c, p, w)
    requires n in used && c.unpack(n) == c.nullifier(w.b) && AliasFree(c, n)
    ensures ClaimCheck(c, leaves, used, p, priced, unpriced, signed, accepted) == Refused(NullifierAlreadyUsed)
  {
    assert c.unpack(p.nullifier) == c.unpack(n);
  }

  // ----- does the pool cover the notes? -----

  /** The balance, plus what payouts burned, is exactly the value of the unspent notes plus what payments
      left in the pool: the prices of RWA purchases and the payouts that went to the pool itself. */
  lemma PoolHolds<D(!new), L(!new)>(c: Hashes<D, L>, s: Storage<D>, h: History<D, L>)
    requires Clean(c, s, h) && Unaliased(c, h.spends)
    ensures forall i :: 0 <= i < |h.spends| ==> h.spends[i].index < |h.entries|
    ensures s.pool + h.burned == Outstanding(h) + h.kept
  {
    Conserved(c, h);
  }

  /** The pool covers the unspent notes on top of what payments left in it. */
  ghost predicate Covers<D(!new), L(!new)>(s: Storage<D>, h: History<D, L>) {
    && (forall i :: 0 <= i < |h.spends| ==> h.spends[i].index < |h.entries|)
    && Outstanding(h) + h.kept <= s.pool
  }

  /** In every reachable state it does so exactly when no payout has burned anything. */
  lemma PoolCoversIff<D(!new), L(!new)>(c: Hashes<D, L>, s: Storage<D>, h: History<D, L>)
    requires Clean(c, s, h) && Unaliased(c, h.spends)
    ensures Covers(s, h) <==> h.burned == 0
  {
    PoolHolds(c, s, h);
  }

  /** Call by call: an accepted payout keeps the pool covering exactly when it burns no dust, that is, when
      it pays nothing, pays the pool itself, or leaves the pool empty or at or above the existential
      deposit. */
  lemma PayoutCovers<D(!new), L(!new)>(
    c: Hashes<D, L>, s: Storage<D>, h: History<D, L>, t: Storage<D>, g: History<D, L>, amount: nat, to: Payee)
    requires Clean(c, s, h) && Unaliased(c, h.spends) && Clean(c, t, g) && Unaliased(c, g.spends)
    requires CanPay(s.pool, amount, to) && g.burned == h.burned + Dust(s.pool, amount, to)
    requires Covers(s, h)
    ensures Covers(t, g)
       <==> (amount == 0 || to.isPool || s.pool == amount || s.pool - amount >= 1_000_000_000)
  {
    PoolCoversIff(c, s, h);
    PoolCoversIff(c, t, g);
  }

  /** Then it can pay any one note that is not spent yet. */
  lemma PoolCovers<D(!new), L(!new)>(c: Hashes<D, L>, s: Storage<D>, h: History<D, L>, i: nat)
    requires Clean(c, s, h) && Unaliased(c, h.spends) && h.burned == 0
    requires i < |h.entries| && forall j :: 0 <= j < |h.spends| ==> h.spends[j].index != i
    ensures h.entries[i].note.v + h.kept <= s.pool
  {
    UnspentCovered(c, h, i);
  }

  ghost predicate NullifiersAliasFree<D(!new), L(!new)>(c: Hashes<D, L>, ss: seq<Spend<D, L>>) {
    forall i :: 0 <= i < |ss| ==> AliasFree(c, ss[i].nullifier)
  }

  /** No note was spent twice, no more was paid out than paid in, and the pool covers the unspent notes
      exactly when no payout has burned anything. */
  ghost predicate Sound<D(!new), L(!new)>(s: Storage<D>, h: History<D, L>) {
    && (forall i, j :: 0 <= i < j < |h.spends| ==> h.spends[i].index != h.spends[j].index)
    && PaidTotal(h.spends) <= h.deposited
    && (Covers(s, h) <==> h.burned == 0)
  }

  lemma SoundWhenAliasFree<D(!new), L(!new)>(c: Hashes<D, L>, s: Storage<D>, h: History<D, L>)
    requires Clean(c, s, h) && NullifiersAliasFree(c, h.spends)
    ensures Sound(s, h)
  {
    AliasFreeSuffices(c, h);
    forall i, j | 0 <= i < j < |h.spends| ensures h.spends[i].index != h.spends[j].index {
      NoDoubleSpend(c, h, i, j);
    }
    Solvent(c, h);
    PoolCoversIff(c, s, h);
  }

  // A deposit that nothing stands in the way of.
  method DepositFresh<D(!new, ==), L(!new)>(pool: Pool<D, L>, leaf: D, amount: U64, ghost b: L, ghost pkd: L)
    requires pool.Valid() && DepositOpens(pool.c, amount, leaf, b, pkd)
    requires leaf !in pool.Inserted() && |pool.Inserted()| < Pow2(MERKLE_DEPTH)
    requires pool.store.pool + amount >= EXISTENTIAL_DEPOSIT
    modifies pool
    ensures pool.Valid()
    ensures Deposited(old(pool.store), old(pool.history), pool.store, pool.history, Entry(leaf, Note(amount, b, pkd)))
  {
    var r := pool.DepositV2(leaf, amount, true, true, b, pkd);
  }

  // A new pool with one deposit.
  method OneDeposit<D(!new, ==), L(!new)>(c: Hashes<D, L>, zeroChangeLeaf: D, a: D, x: U64, ghost b: L, ghost pkd: L)
    returns (pool: Pool<D, L>)
    requires DepositOpens(c, x, a, b, pkd) && x >= EXISTENTIAL_DEPOSIT
    ensures fresh(pool) && pool.Valid() && pool.c == c && pool.zeroChangeLeaf == zeroChangeLeaf
    ensures pool.Inserted() == [a] && pool.store.nullifiers == {} && pool.store.pool == x
    ensures pool.history == History(pool.history.entries, [], x, 0, 0)
  {
    pool := new Pool<D, L>(c, zeroChangeLeaf);
    DepositFresh(pool, a, x, b, pkd);
  }

  /** A new pool with two deposits. */
  method TwoDeposits<D(!new, ==), L(!new)>(
    c: Hashes<D, L>, zeroChangeLeaf: D, a: D, x: U64, ghost b: L, ghost pkd: L,
    a': D, y: U64, ghost b': L, ghost pkd': L)
    returns (pool: Pool<D, L>)
    requires a != a' && DepositOpens(c, x, a, b, pkd) && DepositOpens(c, y, a', b', pkd') && x >= EXISTENTIAL_DEPOSIT
    ensures fresh(pool) && pool.Valid() && pool.c == c && pool.zeroChangeLeaf == zeroChangeLeaf
    ensures pool.Inserted() == [a, a'] && pool.store.nullifiers == {} && pool.store.pool == x + y
    ensures pool.history == History(pool.history.entries, [], x + y, 0, 0)
    ensures AnchoredAt(c, [a, a'], pool.store.currentRoot, 2)
  {
    pool := OneDeposit(c, zeroChangeLeaf, a, x, b, pkd);
    Pow2Monotone(2, MERKLE_DEPTH);
    DepositFresh(pool, a', y, b', pkd');
  }

  /** The counterexample to coverage: after two deposits, withdrawing the first leaves less than the
      existential deposit, so the account is reaped and the second note has nothing behind it. */
  method ReapedPool<D(!new, ==), L(!new)>(
    c: Hashes<D, L>, zeroChangeLeaf: D, a: D, ghost b: L, ghost pkd: L, a': D, ghost b': L, ghost pkd': L,
    n: D, key: D, ghost w: Secret<L>)
    returns (pool: Pool<D, L>)
    requires a != a' && DepositOpens(c, 2 * EXISTENTIAL_DEPOSIT, a, b, pkd) && DepositOpens(c, 1, a', b', pkd')
    requires SpendOpens(
               c, Claim(RootAfter(c, [a, a'], 2), n, key, 2 * EXISTENTIAL_DEPOSIT, zeroChangeLeaf, c.bytes.empty,
                        false), w)
    ensures fresh(pool) && pool.Valid() && pool.Inserted() == [a, a']
    ensures pool.history.deposited == 2 * EXISTENTIAL_DEPOSIT + 1
    ensures PaidTotal(pool.history.spends) == 2 * EXISTENTIAL_DEPOSIT
    ensures pool.store.pool == 0 && pool.history.burned == 1
  {
    pool := TwoDeposits(c, zeroChangeLeaf, a, 2 * EXISTENTIAL_DEPOSIT, b, pkd, a', 1, b', pkd');
    var r := pool.WithdrawV2(pool.store.currentRoot, n, key, 2 * EXISTENTIAL_DEPOSIT, true, true, OUTSIDE, w);
  }

  // ----- which notes can be spent? -----

  /** What a spend exhibits when it opened something that its anchor does not cover. */
  ghost predicate Broken<D(!new), L(!new)>(c: Hashes<D, L>, leaves: seq<D>, p: Claim<D>, w: Secret<L>, m: nat)
    requires m <= |leaves| && |w.siblings| == MERKLE_DEPTH
  {
    || PathBroken(c, leaves, SpendOf(c.unpack, p, w, m))
    || ZeroBroken(c, SpendOf(c.unpack, p, w, m))
  }

  /** Unless it exhibits a break, a spend opens a leaf that its anchor root covers. A root covers the
      leaves that were in the tree when it stood, and none once the tree was full. */
  lemma AnchorCovers<D(!new), L(!new)>(c: Hashes<D, L>, leaves: seq<D>, p: Claim<D>, w: Secret<L>, m: nat)
    requires c.Coherent() && SpendOpens(c, p, w)
    requires m <= |leaves| && p.root == RootAfter(c, leaves, m)
    ensures Broken(c, leaves, p, w, m) || w.index < m < Pow2(MERKLE_DEPTH)
  {
    OpenedSpend(c, leaves, p, w, m);
    if !Broken(c, leaves, p, w, m) {
      SpendOpensLeaf(c, leaves, SpendOf(c.unpack, p, w, m));
    }
  }

  // The largest leaf count whose root is in the window and covers leaves.
  function CoverCount(n: nat): (m: nat)
    ensures m <= n
  {
    if n < Pow2(MERKLE_DEPTH) || n == 0 then n else n - 1
  }

  /** Some accepted root covers an inserted leaf exactly when it does not fill the last slot: the roots
      from before a full tree stay in the window for good. */
  lemma CoveredIff(n: nat, i: nat)
    requires i < n <= Pow2(MERKLE_DEPTH)
    ensures InWindow(n, CoverCount(n))
    ensures i < CoverCount(n) < Pow2(MERKLE_DEPTH) <==> i < Pow2(MERKLE_DEPTH) - 1
    ensures (exists m: nat :: InWindow(n, m) && i < m < Pow2(MERKLE_DEPTH)) <==> i < Pow2(MERKLE_DEPTH) - 1
  {
    Pow2Monotone(1, MERKLE_DEPTH);
    if i < Pow2(MERKLE_DEPTH) - 1 {
      assert InWindow(n, CoverCount(n)) && i < CoverCount(n) < Pow2(MERKLE_DEPTH);
    }
  }

  /** The note that fills the last slot is lost: no later claim opens it without exhibiting a break. */
  lemma LastSlotLost<D(!new), L(!new)>(c: Hashes<D, L>, leaves: seq<D>, p: Claim<D>, w: Secret<L>, m: nat)
    requires c.Coherent() && SpendOpens(c, p, w) && w.index == Pow2(MERKLE_DEPTH) - 1
    requires m <= |leaves| && p.root == RootAfter(c, leaves, m)
    ensures Broken(c, leaves, p, w, m)
  {
    AnchorCovers(c, leaves, p, w, m);
  }

  /** An honest opening exhibits no break: its path is the one in the tree, so only two digests could be in
      the way, its own note's and its root's, by unpacking to zero. */
  lemma HonestUnbroken<D(!new), L(!new)>(c: Hashes<D, L>, leaves: seq<D>, p: Claim<D>, w: Secret<L>, m: nat)
    requires c.Coherent() && SpendOpens(c, p, w)
    requires w.index < m <= |leaves| && m < Pow2(MERKLE_DEPTH) && p.root == RootAfter(c, leaves, m)
    requires IsPathOf(c.limbs, Map(c.unpack, leaves[..m]), w.index, w.siblings)
    requires c.NoteOf(Note(w.v, w.b, c.unpack(p.pkd))) == c.unpack(leaves[w.index])
    requires c.unpack(leaves[w.index]) != c.limbs.empty && c.unpack(p.root) != c.limbs.empty
    ensures !Broken(c, leaves, p, w, m)
  {
    var under := Map(c.unpack, leaves[..m]);
    assert LeafAt(c.limbs, under, w.index) == c.unpack(leaves[w.index]);
    OwnPathIsSame(c.limbs, under, w.index, w.siblings, MERKLE_DEPTH);
  }

  // The claim, made against the root after `m` leaves, is opened by `w` at position `i` without a break.
  ghost predicate OpensAt<D(!new), L(!new)>(
    c: Hashes<D, L>, leaves: seq<D>, p: Claim<D>, i: nat, m: nat, w: Secret<L>)
  {
    && InWindow(|leaves|, m) && w.index == i
    && SpendOpens(c, p.(root := RootAfter(c, leaves, m)), w)
    && !Broken(c, leaves, p.(root := RootAfter(c, leaves, m)), w, m)
  }

  /** Some accepted root lets the claim be opened at position `i`, and the opening exhibits no break. */
  ghost predicate OpensInWindow<D(!new), L(!new)>(c: Hashes<D, L>, leaves: seq<D>, p: Claim<D>, i: nat) {
    exists m: nat, w :: OpensAt(c, leaves, p, i, m, w)
  }

  // The secret opens the claim honestly: with the tree's own path for a leaf that holds its own note.
  ghost predicate HonestAt<D(!new), L(!new)>(c: Hashes<D, L>, leaves: seq<D>, p: Claim<D>, w: Secret<L>, m: nat)
    requires m <= |leaves|
  {
    && SpendOpens(c, p.(root := RootAfter(c, leaves, m)), w)
    && w.index < m && IsPathOf(c.limbs, Map(c.unpack, leaves[..m]), w.index, w.siblings)
    && c.NoteOf(Note(w.v, w.b, c.unpack(p.pkd))) == c.unpack(leaves[w.index])
  }

  // The two digests that an honest spend hashes without a break unless they unpack to zero.
  ghost predicate NoZeros<D(!new), L(!new)>(c: Hashes<D, L>, leaves: seq<D>, i: nat)
    requires i < |leaves|
  {
    && c.unpack(leaves[i]) != c.limbs.empty
    && c.unpack(RootAfter(c, leaves, CoverCount(|leaves|))) != c.limbs.empty
  }

  lemma HonestOpens<D(!new), L(!new)>(c: Hashes<D, L>, leaves: seq<D>, p: Claim<D>, w: Secret<L>)
    requires c.Coherent() && w.index < |leaves| <= Pow2(MERKLE_DEPTH) && w.index < Pow2(MERKLE_DEPTH) - 1
    requires HonestAt(c, leaves, p, w, CoverCount(|leaves|)) && NoZeros(c, leaves, w.index)
    ensures OpensInWindow(c, leaves, p, w.index)
  {
    var m := CoverCount(|leaves|);
    CoveredIff(|leaves|, w.index);
    HonestUnbroken(c, leaves, p.(root := RootAfter(c, leaves, m)), w, m);
    assert OpensAt(c, leaves, p, w.index, m, w);
  }

  lemma OnlyCoveredOpens<D(!new), L(!new)>(c: Hashes<D, L>, leaves: seq<D>, p: Claim<D>, i: nat)
    requires c.Coherent() && OpensInWindow(c, leaves, p, i)
    ensures i < Pow2(MERKLE_DEPTH) - 1
  {
    var m: nat, w :| OpensAt(c, leaves, p, i, m, w);
    AnchorCovers(c, leaves, p.(root := RootAfter(c, leaves, m)), w, m);
  }

  // ----- which claims are accepted? -----

  // The withdrawal passes every check with that opening.
  ghost predicate WithdrawsAt<D(!new), L(!new)>(
    c: Hashes<D, L>, leaves: seq<D>, s: Storage<D>, p: Claim<D>, i: nat, to: Payee, m: nat, w: Secret<L>)
  {
    && OpensAt(c, leaves, p, i, m, w)
    && Then(ClaimCheck(c, leaves, s.nullifiers, p.(root := RootAfter(c, leaves, m)), true, RwaPriceNotSet, true, true),
            PayoutCheck(s.pool, p.price, to)) == Accepted
  }

  /** Some signed and proved withdrawal of position `i` is accepted exactly when some accepted root opens
      it, its nullifier is unused and the payout can be made. */
  lemma WithdrawsIff<D(!new), L(!new)>(
    c: Hashes<D, L>, leaves: seq<D>, s: Storage<D>, p: Claim<D>, i: nat, to: Payee)
    ensures (exists m: nat, w :: WithdrawsAt(c, leaves, s, p, i, to, m, w))
       <==> (OpensInWindow(c, leaves, p, i) && p.nullifier !in s.nullifiers
             && to.decodes && (p.price == 0 || to.isPool || (s.pool >= p.price && to.credited)))
  {
    forall m: nat, w | OpensAt(c, leaves, p, i, m, w)
      ensures AnchoredAt(c, leaves, p.(root := RootAfter(c, leaves, m)).root, m)
      ensures WithdrawsAt(c, leaves, s, p, i, to, m, w)
         <==> (p.nullifier !in s.nullifiers && to.decodes && CanPay(s.pool, p.price, to))
    {
      assert AnchoredAt(c, leaves, p.(root := RootAfter(c, leaves, m)).root, m);
    }
  }

  // The purchase passes every check with that opening, up to its payout.
  ghost predicate BuysAt<D(!new), L(!new)>(
    c: Hashes<D, L>, leaves: seq<D>, s: Storage<D>, p: Claim<D>, i: nat, m: nat, w: Secret<L>)
  {
    && OpensAt(c, leaves, p, i, m, w)
    && PurchaseCheck(c, leaves, s.nullifiers, p.(root := RootAfter(c, leaves, m)), RwaPriceNotSet, true, true)
       == Accepted
  }

  /** Some signed and proved purchase with position `i` is accepted exactly when some accepted root opens it,
      its nullifier is unused, the price is set, its change leaf is new and the tree has a free slot. */
  lemma BuysIff<D(!new), L(!new)>(c: Hashes<D, L>, leaves: seq<D>, s: Storage<D>, p: Claim<D>, i: nat)
    ensures (exists m: nat, w :: BuysAt(c, leaves, s, p, i, m, w))
       <==> (OpensInWindow(c, leaves, p, i) && p.nullifier !in s.nullifiers && p.price > 0
             && p.changeLeaf !in leaves && |leaves| != Pow2(MERKLE_DEPTH))
  {
    forall m: nat, w | OpensAt(c, leaves, p, i, m, w)
      ensures BuysAt(c, leaves, s, p, i, m, w)
         <==> (p.nullifier !in s.nullifiers && p.price > 0
               && p.changeLeaf !in leaves && |leaves| != Pow2(MERKLE_DEPTH))
    {
      assert AnchoredAt(c, leaves, p.(root := RootAfter(c, leaves, m)).root, m);
    }
  }

  // ----- an owner's withdrawal -----

  // No recorded nullifier spells these limbs.
  ghost predicate UnusedSpelling<D(!new), L(!new)>(c: Hashes<D, L>, ss: seq<Spend<D, L>>, limbs: L) {
    forall j :: 0 <= j < |ss| ==> c.unpack(ss[j].nullifier) != limbs
  }

  /** A note whose nullifier is unused in every spelling was named by no spend. */
  lemma UnusedUnspent<D(!new), L(!new)>(c: Hashes<D, L>, h: History<D, L>, i: nat)
    requires c.Coherent() && Recorded(c, h) && Unbroken(c, h) && i < |h.entries|
    requires UnusedSpelling(c, h.spends, c.nullifier(h.entries[i].note.b))
    ensures forall j :: 0 <= j < |h.spends| ==> h.spends[j].index != i
  {
    forall j | 0 <= j < |h.spends| ensures h.spends[j].index != i {
      SpendNamesEntry(c, h, j);
      assert SpendOk(c, Leaves(h.entries), h.spends[j]);
    }
  }

  /** Such a note is paid for and its nullifier passes, as long as no payout has burned anything. */
  lemma Payable<D(!new), L(!new)>(c: Hashes<D, L>, s: Storage<D>, h: History<D, L>, i: nat, n: D)
    requires Clean(c, s, h) && Unaliased(c, h.spends) && h.burned == 0
    requires i < |h.entries| && c.unpack(n) == c.nullifier(h.entries[i].note.b)
    requires UnusedSpelling(c, h.spends, c.unpack(n))
    ensures h.entries[i].note.v <= s.pool && n !in s.nullifiers
  {
    UnusedUnspent(c, h, i);
    PoolCovers(c, s, h, i);
    assert Fresh(h.spends, n);
  }

  // The latest accepted root that covers leaves: the one before it when the current one covers none.
  function WindowRoot<D>(s: Storage<D>): D
    requires s.leafCount == Pow2(MERKLE_DEPTH) ==> s.recentRoots != []
  {
    if s.leafCount < Pow2(MERKLE_DEPTH) || s.recentRoots == [] then s.currentRoot
    else s.recentRoots[|s.recentRoots| - 1]
  }

  lemma WindowRootCovers<D(!new), L(!new)>(c: Hashes<D, L>, leaves: seq<D>, s: Storage<D>)
    requires TreeStored(c, leaves, s) && |leaves| > 0
    ensures s.leafCount == Pow2(MERKLE_DEPTH) ==> s.recentRoots != []
    ensures AnchoredAt(c, leaves, WindowRoot(s), CoverCount(|leaves|))
  {
    Pow2Monotone(1, MERKLE_DEPTH);
  }

  /** The secret opens the withdrawal of a note against the latest root that covers leaves. */
  ghost predicate Withdraws<D(!new), L(!new)>(
    c: Hashes<D, L>, zeroChangeLeaf: D, leaves: seq<D>, n: D, pkd: D, v: U64, w: Secret<L>)
  {
    SpendOpens(c, Claim(RootAfter(c, leaves, CoverCount(|leaves|)), n, pkd, v, zeroChangeLeaf, c.bytes.empty, false), w)
  }

  // What an accepted withdrawal of such a note leaves behind.
  ghost predicate PaidOut<D(!new), L(!new)>(
    s: Storage<D>, h: History<D, L>, t: Storage<D>, g: History<D, L>, n: D, v: U64, to: Payee)
    requires CanPay(s.pool, v, to)
  {
    && t == s.(nullifiers := s.nullifiers + {n}, pool := AfterPayout(s.pool, v, to))
    && g == h.(spends := g.spends, kept := h.kept + Retained(v, to), burned := h.burned + Dust(s.pool, v, to))
    && PaidTotal(g.spends) == PaidTotal(h.spends) + v
  }

  /** Such a withdrawal, with an unused nullifier and a payout that can be made, is accepted and paid in
      full. */
  method WithdrawOpened<D(!new, ==), L(!new)>(
    pool: Pool<D, L>, n: D, pkd: D, v: U64, to: Payee, ghost w: Secret<L>) returns (r: Outcome)
    requires pool.Valid() && |pool.Inserted()| > 0
    requires Withdraws(pool.c, pool.zeroChangeLeaf, pool.Inserted(), n, pkd, v, w)
    requires n !in pool.store.nullifiers && to.decodes && CanPay(pool.store.pool, v, to)
    modifies pool
    ensures pool.Valid() && r == Accepted
    ensures PaidOut(old(pool.store), old(pool.history), pool.store, pool.history, n, v, to)
  {
    WindowRootCovers(pool.c, pool.Inserted(), pool.store);
    r := pool.WithdrawV2(WindowRoot(pool.store), n, pkd, v, true, true, to, w);
  }

  /** The leaf is recorded, and the value came in and went out. */
  ghost predicate CameAndWent<D(!new), L(!new)>(
    s: Storage<D>, h: History<D, L>, t: Storage<D>, g: History<D, L>, leaf: D, v: U64, to: Payee)
    requires CanPay(s.pool + v, v, to)
  {
    && Leaves(g.entries) == Leaves(h.entries) + [leaf]
    && g.deposited == h.deposited + v && PaidTotal(g.spends) == PaidTotal(h.spends) + v
    && t.pool == AfterPayout(s.pool + v, v, to)
  }

  lemma InAndOut<D(!new), L(!new)>(
    s: Storage<D>, h: History<D, L>, t: Storage<D>, g: History<D, L>, u: Storage<D>, f: History<D, L>,
    e: Entry<D, L>, n: D, to: Payee)
    requires Deposited(s, h, t, g, e)
    requires CanPay(t.pool, e.note.v, to) && PaidOut(t, g, u, f, n, e.note.v, to)
    ensures CameAndWent(s, h, u, f, e.leaf, e.note.v, to)
  {
  }

  /** A note that is deposited and then withdrawn. */
  method DepositAndWithdraw<D(!new, ==), L(!new)>(
    pool: Pool<D, L>, leaf: D, n: D, pkd: D, v: U64, to: Payee, ghost b: L, ghost key: L,
    ghost w: Secret<L>)
    returns (r: Outcome)
    requires pool.Valid() && DepositOpens(pool.c, v, leaf, b, key)
    requires |pool.Inserted()| < Pow2(MERKLE_DEPTH) && leaf !in pool.Inserted()
    requires Withdraws(pool.c, pool.zeroChangeLeaf, pool.Inserted() + [leaf], n, pkd, v, w)
    requires n !in pool.store.nullifiers
    requires pool.store.pool + v >= EXISTENTIAL_DEPOSIT && to.decodes && to.credited
    modifies pool
    ensures pool.Valid() && r == Accepted
    ensures CameAndWent(old(pool.store), old(pool.history), pool.store, pool.history, leaf, v, to)
  {
    DepositFresh(pool, leaf, v, b, key);
    ghost var t, g := pool.store, pool.history;
    r := WithdrawOpened(pool, n, pkd, v, to, w);
    InAndOut(old(pool.store), old(pool.history), t, g, pool.store, pool.history, Entry(leaf, Note(v, b, key)), n, to);
  }

  /** Two notes with one nullifier are both deposited, the first is withdrawn, and the second is refused. */
  method TwoNotesOneNullifier<D(!new, ==), L(!new)>(
    c: Hashes<D, L>, zeroChangeLeaf: D, a: D, x: U64, a': D, y: U64, n: D, pkd: D, ghost b: L, ghost key: L,
    ghost w: Secret<L>, ghost w': Secret<L>)
    returns (pool: Pool<D, L>, first: Outcome, second: Outcome)
    requires a != a' && DepositOpens(c, x, a, b, key) && DepositOpens(c, y, a', b, key)
    requires x >= EXISTENTIAL_DEPOSIT && y >= EXISTENTIAL_DEPOSIT
    requires Withdraws(c, zeroChangeLeaf, [a, a'], n, pkd, x, w) && Withdraws(c, zeroChangeLeaf, [a, a'], n, pkd, y, w')
    ensures fresh(pool) && pool.Valid() && pool.c == c && pool.zeroChangeLeaf == zeroChangeLeaf
    ensures pool.Inserted() == [a, a'] && pool.store.pool == y
    ensures first == Accepted && second == Refused(NullifierAlreadyUsed)
  {
    pool := TwoDeposits(c, zeroChangeLeaf, a, x, b, key, a', y, b, key);
    first := WithdrawOpened(pool, n, pkd, x, OUTSIDE, w);
    Pow2Monotone(2, MERKLE_DEPTH);
    second := pool.WithdrawV2(pool.store.currentRoot, n, pkd, y, true, true, OUTSIDE, w');
  }
}
