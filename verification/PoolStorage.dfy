/** The storage that the calls of the proofs pallet share, the outcomes of a call, and how the balances
    pallet moves money in and out of the pool account. */
module PoolStorage {
  const EXISTENTIAL_DEPOSIT: nat := 1_000_000_000

  datatype Error =
    | NullifierAlreadyUsed | RootNotRecent | RwaPriceNotSet | AccessAppNotConfigured | MlDsaFailed
    | ProofVerificationFailed | DuplicateLeaf | TreeFullV2 | TransferFailed
    | LegacyDisabled | SpendTagNotFound | SpendTagAlreadyUsed | OwnershipNotFound | OwnershipAlreadyUsed
    | InvalidOwnershipProof | BuyerInsufficientFunds | MissingChangeOutput

  datatype Outcome = Accepted | Refused(error: Error)

  datatype Option<T> = None | Some(value: T)

  // Sixteen bytes.
  type TxId = nat

  /** The storage items of the v2 lane, those of the legacy lane, and what both lanes share: the nullifier
      set, the ownership records and the balance of the pool account. */
  datatype Storage<D> = Storage(
    nodes: seq<D>, leafCount: nat, leafIndex: map<D, nat>, currentRoot: D, recentRoots: seq<D>,
    nullifiers: set<D>, owners: map<TxId, D>, ownersUsed: set<TxId>, pool: nat,
    spendTags: map<D, D>, rangeTags: map<D, D>, changeTags: map<D, D>, tagsUsed: set<D>, commitments: set<D>)

  // ----- the order of checks -----

  function Then(first: Outcome, second: Outcome): Outcome {
    if first.Refused? then first else second
  }

  function Need(ok: bool, error: Error): Outcome {
    if ok then Accepted else Refused(error)
  }

  /** One check of a call, with the error that it refuses with. */
  datatype Check = Check(passes: bool, error: Error)

  /** A call is refused with the error of the first check that fails. */
  function FirstFailure(checks: seq<Check>): Outcome {
    if checks == [] then Accepted
    else if checks[0].passes then FirstFailure(checks[1..]) else Refused(checks[0].error)
  }

  lemma {:induction false} FirstFailures(first: seq<Check>, second: seq<Check>)
    ensures FirstFailure(first + second) == Then(FirstFailure(first), FirstFailure(second))
  {
    if first == [] {
      assert first + second == second;
    } else {
      assert (first + second)[0] == first[0] && (first + second)[1..] == first[1..] + second;
      FirstFailures(first[1..], second);
    }
  }

  lemma Unfold(checks: seq<Check>, a: Check, rest: seq<Check>)
    requires checks == [a] + rest
    ensures FirstFailure(checks) == Then(Need(a.passes, a.error), FirstFailure(rest))
  {
    assert checks[1..] == rest;
  }

  lemma TwoChecks(a: Check, b: Check)
    ensures FirstFailure([a, b]) == Then(Need(a.passes, a.error), Need(b.passes, b.error))
  {
    Unfold([a, b], a, [b]);
    Unfold([b], b, []);
  }

  lemma ThreeChecks(a: Check, b: Check, c: Check)
    ensures FirstFailure([a, b, c])
         == Then(Need(a.passes, a.error), Then(Need(b.passes, b.error), Need(c.passes, c.error)))
  {
    Unfold([a, b, c], a, [b, c]);
    TwoChecks(b, c);
  }

  lemma FiveChecks(a: Check, b: Check, c: Check, d: Check, e: Check)
    ensures FirstFailure([a, b, c, d, e])
         == Then(Need(a.passes, a.error), Then(Need(b.passes, b.error), Then(Need(c.passes, c.error),
            Then(Need(d.passes, d.error), Need(e.passes, e.error)))))
  {
    Unfold([a, b, c, d, e], a, [b, c, d, e]);
    Unfold([b, c, d, e], b, [c, d, e]);
    ThreeChecks(c, d, e);
  }

  // ----- the pool account -----

  /** A payment in succeeds when the payer can make it and the account does not stay below the existential
      deposit. A payment of nothing always does. */
  predicate CanReceive(pool: nat, amount: nat, paid: bool) {
    amount == 0 || (paid && pool + amount >= EXISTENTIAL_DEPOSIT)
  }

  // A deposit is paid for after its proof is checked.
  function PaymentCheck(pool: nat, amount: nat, accepted: bool, paid: bool): Outcome {
    Then(Need(accepted, ProofVerificationFailed), Need(CanReceive(pool, amount, paid), TransferFailed))
  }

  /** Where a payout goes: whether the 32 bytes decode, whether they name the pool account itself, and
      whether that account can be credited. */
  datatype Payee = Payee(decodes: bool, isPool: bool, credited: bool)

  /** A payout of nothing, or from the pool to itself, moves nothing and always succeeds. */
  predicate CanPay(pool: nat, amount: nat, to: Payee) {
    amount == 0 || to.isPool || (pool >= amount && to.credited)
  }

  // A payout decodes its destination before it pays.
  function PayoutCheck(pool: nat, amount: nat, to: Payee): Outcome {
    Then(Need(to.decodes, ProofVerificationFailed), Need(CanPay(pool, amount, to), TransferFailed))
  }

  // What a payout leaves in the pool: all of it when it goes to the pool.
  function Retained(amount: nat, to: Payee): nat {
    if to.isPool then amount else 0
  }

  // What a payout burns: a remainder below the existential deposit goes with the account.
  function Dust(pool: nat, amount: nat, to: Payee): nat
    requires CanPay(pool, amount, to)
  {
    if amount > 0 && !to.isPool && pool - amount < EXISTENTIAL_DEPOSIT then pool - amount else 0
  }

  /** The balance after a payout that may reap the account. Nothing is lost but the dust, and an account
      at rest stays empty or at or above the existential deposit. */
  function AfterPayout(pool: nat, amount: nat, to: Payee): (rest: nat)
    requires CanPay(pool, amount, to)
    ensures rest + Dust(pool, amount, to) + amount == pool + Retained(amount, to)
    ensures AtRest(pool) ==> AtRest(rest)
  {
    if amount == 0 || to.isPool then pool
    else if pool - amount < EXISTENTIAL_DEPOSIT then 0
    else pool - amount
  }

  predicate AtRest(pool: nat) {
    pool == 0 || pool >= EXISTENTIAL_DEPOSIT
  }
}
