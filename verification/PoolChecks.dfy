/** The order in which every call checks what it is given, and which roots anchor a claim. */
module PoolChecks {
  import opened Bits
  import opened NoteTree
  import opened PoolLedger
  import opened PoolStorage
  import opened ShieldedPool

  // ----- the calls of the v2 lane -----

  function PaymentChecks(pool: nat, amount: nat, accepted: bool, paid: bool): seq<Check> {
    [Check(accepted, ProofVerificationFailed),
     Check(amount == 0 || (paid && pool + amount >= 1_000_000_000), TransferFailed)]
  }

  /** The four checks of a deposit: its proof, its payment, its leaf and a free slot. */
  lemma DepositOrder<D(!new)>(leaves: seq<D>, pool: nat, leaf: D, amount: nat, accepted: bool, paid: bool)
    ensures Then(PaymentCheck(pool, amount, accepted, paid),
                 InsertCheck(leaf in leaves, |leaves| == Pow2(MERKLE_DEPTH)))
         == FirstFailure(PaymentChecks(pool, amount, accepted, paid) + InsertChecks(leaves, leaf))
  {
    var pay, insert := PaymentChecks(pool, amount, accepted, paid), InsertChecks(leaves, leaf);
    Capacity();
    TwoChecks(pay[0], pay[1]);
    TwoChecks(insert[0], insert[1]);
    FirstFailures(pay, insert);
  }

  lemma Capacity()
    ensures Pow2(MERKLE_DEPTH) == 1_048_576
  {
    Pow2Sum(10, 10);
    assert Pow2(10) == 1024;
  }

  ghost function ClaimChecks<D(!new), L(!new)>(
    c: Hashes<D, L>, leaves: seq<D>, used: set<D>, p: Claim<D>, priced: bool, unpriced: Error,
    signed: bool, accepted: bool): seq<Check>
  {
    [Check(p.nullifier !in used, NullifierAlreadyUsed),
     Check(Anchored(c, leaves, p.root), RootNotRecent),
     Check(priced, unpriced),
     Check(signed, MlDsaFailed),
     Check(accepted, ProofVerificationFailed)]
  }

  function InsertChecks<D(==)>(leaves: seq<D>, leaf: D): seq<Check> {
    [Check(leaf !in leaves, DuplicateLeaf), Check(|leaves| != 1_048_576, TreeFullV2)]
  }

  function PayoutChecks(pool: nat, amount: nat, to: Payee): seq<Check> {
    [Check(to.decodes, ProofVerificationFailed),
     Check(amount == 0 || to.isPool || (pool >= amount && to.credited), TransferFailed)]
  }

  /** The seven checks of a purchase, and the two of the payout that an access purchase adds. */
  lemma PurchaseOrder<D(!new), L(!new)>(
    c: Hashes<D, L>, leaves: seq<D>, used: set<D>, p: Claim<D>, unpriced: Error, signed: bool, accepted: bool,
    pool: nat, to: Payee)
    ensures PurchaseCheck(c, leaves, used, p, unpriced, signed, accepted)
         == FirstFailure(ClaimChecks(c, leaves, used, p, p.price > 0, unpriced, signed, accepted)
                         + InsertChecks(leaves, p.changeLeaf))
    ensures Then(PurchaseCheck(c, leaves, used, p, unpriced, signed, accepted), PayoutCheck(pool, p.price, to))
         == FirstFailure(ClaimChecks(c, leaves, used, p, p.price > 0, unpriced, signed, accepted)
                         + InsertChecks(leaves, p.changeLeaf) + PayoutChecks(pool, p.price, to))
  {
    var claim, insert := ClaimChecks(c, leaves, used, p, p.price > 0, unpriced, signed, accepted),
                         InsertChecks(leaves, p.changeLeaf);
    var payout := PayoutChecks(pool, p.price, to);
    Capacity();
    FiveChecks(claim[0], claim[1], claim[2], claim[3], claim[4]);
    TwoChecks(insert[0], insert[1]);
    TwoChecks(payout[0], payout[1]);
    FirstFailures(claim, insert);
    FirstFailures(claim + insert, payout);
  }

  /** The checks of a withdrawal. */
  lemma WithdrawOrder<D(!new), L(!new)>(
    c: Hashes<D, L>, leaves: seq<D>, used: set<D>, p: Claim<D>, signed: bool, accepted: bool, pool: nat, to: Payee)
    ensures Then(ClaimCheck(c, leaves, used, p, true, RwaPriceNotSet, signed, accepted),
                 PayoutCheck(pool, p.price, to))
         == FirstFailure(ClaimChecks(c, leaves, used, p, true, RwaPriceNotSet, signed, accepted)
                         + PayoutChecks(pool, p.price, to))
  {
    var claim, payout := ClaimChecks(c, leaves, used, p, true, RwaPriceNotSet, signed, accepted),
                         PayoutChecks(pool, p.price, to);
    FiveChecks(claim[0], claim[1], claim[2], claim[3], claim[4]);
    TwoChecks(payout[0], payout[1]);
    FirstFailures(claim, payout);
  }

  /** A deposit that was not paid for changes nothing. */
  method UnpaidDeposit<D(!new, ==), L(!new)>(
    pool: Pool<D, L>, leaf: D, amount: U64, accepted: bool, ghost b: L, ghost pkd: L) returns (r: Outcome)
    requires pool.Valid() && amount > 0
    requires accepted ==> DepositOpens(pool.c, amount, leaf, b, pkd)
    modifies pool
    ensures pool.Valid() && r == Refused(if accepted then TransferFailed else ProofVerificationFailed)
    ensures pool.store == old(pool.store) && pool.history == old(pool.history)
  {
    r := pool.DepositV2(leaf, amount, accepted, false, b, pkd);
  }

  // ----- which roots anchor a claim? -----

  /** The accepted roots are the one that stands and the sixty-four before it, but never the one from before
      the first leaf. */
  lemma WindowIs64(n: nat, m: nat)
    requires n > 0
    ensures InWindow(n, m) <==> 1 <= m <= n <= m + 64
  {
  }

  /** So a claim passes the check of its root exactly when that root stood at most sixty-four insertions
      ago. */
  lemma AnchoredIff<D(!new), L(!new)>(c: Hashes<D, L>, leaves: seq<D>, root: D)
    requires leaves != []
    ensures Anchored(c, leaves, root)
       <==> exists m: nat :: 1 <= m <= |leaves| <= m + 64 && root == RootAfter(c, leaves, m)
  {
    if Anchored(c, leaves, root) {
      var m: nat :| AnchoredAt(c, leaves, root, m);
      WindowIs64(|leaves|, m);
    }
    if m: nat :| 1 <= m <= |leaves| <= m + 64 && root == RootAfter(c, leaves, m) {
      assert AnchoredAt(c, leaves, root, m);
    }
  }
}
