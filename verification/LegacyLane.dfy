/** The legacy calls of the proofs pallet. They pay out of the same pool account as the v2 calls, but only
    for registered spend tags, and no call that is still enabled registers the first one.

    Each call is a function of the storage, with the verdicts of the proof and signature checks as
    arguments. */
module LegacyLane {
  import opened PoolStorage

  datatype Step<D> = Step(storage: Storage<D>, outcome: Outcome)

  function Refuse<D>(s: Storage<D>, e: Error): Step<D> {
    Step(s, Refused(e))
  }

  /** `deposit_public`. */
  function DepositPublic<D>(s: Storage<D>): Step<D> {
    Refuse(s, LegacyDisabled)
  }

  // `do_insert_note`, without the legacy tree, which no call reads.
  function InsertNote<D(==)>(s: Storage<D>, commitment: D, tag: D): Option<Storage<D>> {
    if commitment in s.commitments then None
    else Some(s.(commitments := s.commitments + {commitment}, spendTags := s.spendTags[tag := commitment]))
  }

  /** The fields of `RwaPurchaseInputs` that the calls look at. */
  datatype Purchase<D> = Purchase(
    nullifier: D, tag: D, changeCommitment: Option<D>, changeTag: Option<D>, tx: TxId, ownership: D)

  // The commitment that the change output must open: zero when there is none.
  function ChangeTarget<D>(s: Storage<D>, p: Purchase<D>, zero: D): Option<D> {
    match p.changeTag
    case None => Some(zero)
    case Some(t) => if t in s.rangeTags then Some(s.rangeTags[t]) else None
  }

  function CheckPurchase<D(==)>(
    s: Storage<D>, p: Purchase<D>, priced: bool, unpriced: Error, zero: D, proves: (D, D) -> bool, signed: bool)
    : Outcome
  {
    if p.nullifier in s.nullifiers then Refused(NullifierAlreadyUsed)
    else if p.tag !in s.spendTags then Refused(SpendTagNotFound)
    else if p.tag in s.tagsUsed then Refused(SpendTagAlreadyUsed)
    else if !priced then Refused(unpriced)
    else
      match ChangeTarget(s, p, zero)
      case None => Refused(SpendTagNotFound)
      case Some(target) =>
        if p.tag !in s.rangeTags then Refused(SpendTagNotFound)
        else if !proves(s.rangeTags[p.tag], target) then Refused(ProofVerificationFailed)
        else Need(signed, MlDsaFailed)
  }

  // The nullifier, the tag and the change note of an accepted purchase.
  function Consume<D(==)>(s: Storage<D>, p: Purchase<D>, zero: D): Storage<D> {
    var spent := s.(nullifiers := s.nullifiers + {p.nullifier}, tagsUsed := s.tagsUsed + {p.tag});
    match (p.changeCommitment, p.changeTag, ChangeTarget(s, p, zero))
    case (Some(note), Some(tag), Some(target)) =>
      var marked := spent.(changeTags := spent.changeTags[tag := target]);
      (match InsertNote(marked, note, tag)
       case Some(grown) => grown
       case None => marked)
    case _ => spent
  }

  /** `purchase_rwa`. */
  function PurchaseRwa<D(==)>(
    s: Storage<D>, p: Purchase<D>, price: nat, zero: D, proves: (D, D) -> bool, signed: bool): Step<D>
  {
    var r := CheckPurchase(s, p, price > 0, RwaPriceNotSet, zero, proves, signed);
    if r.Refused? then Step(s, r)
    else Step(Consume(s, p, zero).(owners := s.owners[p.tx := p.ownership]), Accepted)
  }

  /** `purchase_access`. */
  function PurchaseAccess<D(==)>(
    s: Storage<D>, p: Purchase<D>, price: nat, zero: D, proves: (D, D) -> bool, signed: bool, to: Payee): Step<D>
  {
    var r := Then(CheckPurchase(s, p, price > 0, AccessAppNotConfigured, zero, proves, signed),
                  PayoutCheck(s.pool, price, to));
    if r.Refused? then Step(s, r)
    else Step(Consume(s, p, zero).(pool := AfterPayout(s.pool, price, to)), Accepted)
  }

  /** `withdraw_private`. */
  function WithdrawPrivate<D(==)>(
    s: Storage<D>, tag: D, amount: nat, signed: bool, opens: D -> bool, to: Payee): Step<D>
  {
    if tag !in s.spendTags then Refuse(s, SpendTagNotFound)
    else if tag in s.tagsUsed then Refuse(s, SpendTagAlreadyUsed)
    else
      var r := Then(Need(signed, MlDsaFailed),
                    Then(Need(opens(s.spendTags[tag]), ProofVerificationFailed), PayoutCheck(s.pool, amount, to)));
      if r.Refused? then Step(s, r)
      else Step(s.(tagsUsed := s.tagsUsed + {tag}, pool := AfterPayout(s.pool, amount, to)), Accepted)
  }

  /** A note with what opens its commitment. */
  datatype Opened<D> = Opened(commitment: D, tag: D, value: nat, blinding: D)

  /** `RelistInputs`. `change` stands for the four optional change fields, which are used together. */
  datatype Listing<D> = Listing(
    oldTx: TxId, newTx: TxId, newOwnership: D, buyerTag: D, buyerValue: nat, buyerBlinding: D,
    payment: Opened<D>, change: Option<Opened<D>>)
  {
    function Price(): nat { payment.value }
  }

  // `owns` is the preimage check on the stored ownership, `opens` the check of a commitment opening.
  function CheckListing<D(==)>(s: Storage<D>, l: Listing<D>, owns: D -> bool, opens: (nat, D, D) -> bool): Outcome {
    if l.oldTx !in s.owners then Refused(OwnershipNotFound)
    else if l.oldTx in s.ownersUsed then Refused(OwnershipAlreadyUsed)
    else if !owns(s.owners[l.oldTx]) then Refused(InvalidOwnershipProof)
    else if l.buyerTag !in s.spendTags then Refused(SpendTagNotFound)
    else if l.buyerTag in s.tagsUsed then Refused(SpendTagAlreadyUsed)
    else if !opens(l.buyerValue, l.buyerBlinding, s.spendTags[l.buyerTag]) then Refused(ProofVerificationFailed)
    else if l.buyerValue < l.Price() then Refused(BuyerInsufficientFunds)
    else
      var rest := l.buyerValue - l.Price();
      var pays := Need(opens(l.Price(), l.payment.blinding, l.payment.commitment), ProofVerificationFailed);
      if rest == 0 then pays
      else match l.change
        case None => Refused(MissingChangeOutput)
        case Some(n) =>
          Then(Need(n.value == rest && opens(n.value, n.blinding, n.commitment), ProofVerificationFailed), pays)
  }

  /** `relist_private`. */
  function RelistPrivate<D(==)>(s: Storage<D>, l: Listing<D>, owns: D -> bool, opens: (nat, D, D) -> bool): Step<D> {
    var r := CheckListing(s, l, owns, opens);
    if r.Refused? then Step(s, r)
    else
      var spent := s.(ownersUsed := s.ownersUsed + {l.oldTx}, tagsUsed := s.tagsUsed + {l.buyerTag});
      match InsertNote(spent, l.payment.commitment, l.payment.tag)
      case None => Refuse(s, ProofVerificationFailed)
      case Some(paid) =>
        var changed :=
          if l.buyerValue == l.Price() || l.change.None? then paid
          else match InsertNote(paid, l.change.value.commitment, l.change.value.tag)
            case Some(grown) => grown
            case None => paid;
        Step(changed.(owners := changed.owners[l.newTx := l.newOwnership]), Accepted)
  }

  // ----- runs of legacy calls -----

  /** A legacy call with the verdicts on its proofs. */
  datatype Call<!D> =
    | CallDepositPublic
    | CallPurchaseRwa(p: Purchase<D>, price: nat, zero: D, proves: (D, D) -> bool, signed: bool)
    | CallPurchaseAccess(p: Purchase<D>, price: nat, zero: D, proves: (D, D) -> bool, signed: bool, to: Payee)
    | CallWithdrawPrivate(tag: D, amount: nat, signed: bool, opens: D -> bool, to: Payee)
    | CallRelistPrivate(l: Listing<D>, owns: D -> bool, opensNote: (nat, D, D) -> bool)

  function Run<D(==)>(s: Storage<D>, call: Call<D>): Step<D> {
    match call
    case CallDepositPublic => DepositPublic(s)
    case CallPurchaseRwa(p, price, zero, proves, signed) => PurchaseRwa(s, p, price, zero, proves, signed)
    case CallPurchaseAccess(p, price, zero, proves, signed, to) =>
      PurchaseAccess(s, p, price, zero, proves, signed, to)
    case CallWithdrawPrivate(tag, amount, signed, opens, to) => WithdrawPrivate(s, tag, amount, signed, opens, to)
    case CallRelistPrivate(l, owns, opensNote) => RelistPrivate(s, l, owns, opensNote)
  }

  function RunAll<D(==)>(s: Storage<D>, calls: seq<Call<D>>): Storage<D> {
    if calls == [] then s else Run(RunAll(s, calls[..|calls| - 1]), calls[|calls| - 1]).storage
  }

  /** Without a registered spend tag every legacy call is refused and changes nothing, whatever the
      verdicts on its proofs. */
  lemma Refuses<D>(s: Storage<D>, call: Call<D>)
    requires s.spendTags == map[]
    ensures Run(s, call).storage == s && Run(s, call).outcome.Refused?
  {
  }

  /** So no run of legacy calls, however long, registers the first tag or moves any money. */
  lemma {:induction false} RunsRefused<D>(s: Storage<D>, calls: seq<Call<D>>)
    requires s.spendTags == map[]
    ensures RunAll(s, calls) == s
  {
    if calls != [] {
      RunsRefused(s, calls[..|calls| - 1]);
      Refuses(s, calls[|calls| - 1]);
    }
  }
}
