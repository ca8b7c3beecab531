/** What runs of legacy calls keep from any storage, including one with registered tags. */
module LegacySafety {
  import opened PoolStorage
  import opened LegacyLane
  import PoolChecks

  predicate AcceptedAt<D(==)>(s: Storage<D>, calls: seq<Call<D>>, i: nat)
    requires i < |calls|
  {
    Run(RunAll(s, calls[..i]), calls[i]).outcome == Accepted
  }

  // ----- the checks, in order -----

  function TagChecks<D(==)>(s: Storage<D>, tag: D): seq<Check> {
    [Check(tag in s.spendTags, SpendTagNotFound), Check(tag !in s.tagsUsed, SpendTagAlreadyUsed)]
  }

  function PurchaseChecks<D(==)>(
    s: Storage<D>, p: Purchase<D>, price: nat, unpriced: Error, zero: D, proves: (D, D) -> bool, signed: bool)
    : seq<Check>
  {
    var known := p.changeTag.None? || p.changeTag.value in s.rangeTags;
    var target := if p.changeTag.Some? && known then s.rangeTags[p.changeTag.value] else zero;
    [Check(p.nullifier !in s.nullifiers, NullifierAlreadyUsed)] + TagChecks(s, p.tag)
    + [Check(price > 0, unpriced),
       Check(known && p.tag in s.rangeTags, SpendTagNotFound),
       Check(p.tag in s.rangeTags && proves(s.rangeTags[p.tag], target), ProofVerificationFailed),
       Check(signed, MlDsaFailed)]
  }

  function WithdrawChecks<D(==)>(
    s: Storage<D>, tag: D, amount: nat, signed: bool, opens: D -> bool, to: Payee): seq<Check>
  {
    TagChecks(s, tag)
    + [Check(signed, MlDsaFailed), Check(tag in s.spendTags && opens(s.spendTags[tag]), ProofVerificationFailed)]
    + PoolChecks.PayoutChecks(s.pool, amount, to)
  }

  // What the seller shows, what the buyer spends, and how it is split.
  function RelistChecks<D(==)>(s: Storage<D>, l: Listing<D>, owns: D -> bool, opens: (nat, D, D) -> bool): seq<Check> {
    var exact := l.buyerValue == l.payment.value;
    [Check(l.oldTx in s.owners, OwnershipNotFound),
     Check(l.oldTx !in s.ownersUsed, OwnershipAlreadyUsed),
     Check(l.oldTx in s.owners && owns(s.owners[l.oldTx]), InvalidOwnershipProof)]
    + TagChecks(s, l.buyerTag)
    + [Check(l.buyerTag in s.spendTags && opens(l.buyerValue, l.buyerBlinding, s.spendTags[l.buyerTag]),
             ProofVerificationFailed),
       Check(l.buyerValue >= l.payment.value, BuyerInsufficientFunds),
       Check(exact || l.change.Some?, MissingChangeOutput),
       Check(exact || (l.change.Some? && l.change.value.value + l.payment.value == l.buyerValue
                       && opens(l.change.value.value, l.change.value.blinding, l.change.value.commitment)),
             ProofVerificationFailed),
       Check(opens(l.payment.value, l.payment.blinding, l.payment.commitment)
             && l.payment.commitment !in s.commitments, ProofVerificationFailed)]
  }

  function ChecksOf<D(==)>(s: Storage<D>, call: Call<D>): seq<Check> {
    match call
    case CallDepositPublic => [Check(false, LegacyDisabled)]
    case CallPurchaseRwa(p, price, zero, proves, signed) =>
      PurchaseChecks(s, p, price, RwaPriceNotSet, zero, proves, signed)
    case CallPurchaseAccess(p, price, zero, proves, signed, to) =>
      PurchaseChecks(s, p, price, AccessAppNotConfigured, zero, proves, signed)
      + PoolChecks.PayoutChecks(s.pool, price, to)
    case CallWithdrawPrivate(tag, amount, signed, opens, to) => WithdrawChecks(s, tag, amount, signed, opens, to)
    case CallRelistPrivate(l, owns, opensNote) => RelistChecks(s, l, owns, opensNote)
  }

  lemma OneCheck(a: Check)
    ensures FirstFailure([a]) == Need(a.passes, a.error)
  {
  }

  lemma PayoutOrder(pool: nat, amount: nat, to: Payee)
    ensures PayoutCheck(pool, amount, to) == FirstFailure(PoolChecks.PayoutChecks(pool, amount, to))
  {
    var checks := PoolChecks.PayoutChecks(pool, amount, to);
    TwoChecks(checks[0], checks[1]);
  }

  lemma TagOrder<D>(s: Storage<D>, tag: D)
    ensures FirstFailure(TagChecks(s, tag))
         == Then(Need(tag in s.spendTags, SpendTagNotFound), Need(tag !in s.tagsUsed, SpendTagAlreadyUsed))
  {
    TwoChecks(TagChecks(s, tag)[0], TagChecks(s, tag)[1]);
  }

  lemma PurchaseOrder<D>(
    s: Storage<D>, p: Purchase<D>, price: nat, unpriced: Error, zero: D, proves: (D, D) -> bool, signed: bool)
    ensures CheckPurchase(s, p, price > 0, unpriced, zero, proves, signed)
         == FirstFailure(PurchaseChecks(s, p, price, unpriced, zero, proves, signed))
  {
    var all, tags := PurchaseChecks(s, p, price, unpriced, zero, proves, signed), TagChecks(s, p.tag);
    var first, last := all[..1], all[3..];
    assert all == first + tags + last && last == [all[3], all[4], all[5], all[6]] && first == [all[0]];
    OneCheck(all[0]);
    TagOrder(s, p.tag);
    Unfold(last, all[3], [all[4], all[5], all[6]]);
    ThreeChecks(all[4], all[5], all[6]);
    FirstFailures(first, tags);
    FirstFailures(first + tags, last);
  }

  lemma WithdrawOrder<D>(s: Storage<D>, tag: D, amount: nat, signed: bool, opens: D -> bool, to: Payee)
    ensures WithdrawPrivate(s, tag, amount, signed, opens, to).outcome
         == FirstFailure(WithdrawChecks(s, tag, amount, signed, opens, to))
  {
    var all, payout := WithdrawChecks(s, tag, amount, signed, opens, to), PoolChecks.PayoutChecks(s.pool, amount, to);
    var middle := all[2..4];
    assert all == TagChecks(s, tag) + middle + payout && middle == [all[2], all[3]];
    TagOrder(s, tag);
    TwoChecks(all[2], all[3]);
    PayoutOrder(s.pool, amount, to);
    FirstFailures(TagChecks(s, tag), middle);
    FirstFailures(TagChecks(s, tag) + middle, payout);
  }

  lemma RelistOrder<D>(s: Storage<D>, l: Listing<D>, owns: D -> bool, opens: (nat, D, D) -> bool)
    ensures RelistPrivate(s, l, owns, opens).outcome == FirstFailure(RelistChecks(s, l, owns, opens))
  {
    var all, tags := RelistChecks(s, l, owns, opens), TagChecks(s, l.buyerTag);
    var first, last := all[..3], all[5..];
    assert all == first + tags + last && first == [all[0], all[1], all[2]];
    assert last == [all[5], all[6], all[7], all[8], all[9]];
    ThreeChecks(all[0], all[1], all[2]);
    TagOrder(s, l.buyerTag);
    FiveChecks(all[5], all[6], all[7], all[8], all[9]);
    FirstFailures(first, tags);
    FirstFailures(first + tags, last);
  }

  /** Every legacy call is refused with the error of the first of its checks that fails, and then changes
      nothing. */
  lemma CallOrder<D>(s: Storage<D>, call: Call<D>)
    ensures Run(s, call).outcome == FirstFailure(ChecksOf(s, call))
    ensures Run(s, call).outcome.Refused? ==> Run(s, call).storage == s
  {
    match call
    case CallDepositPublic => OneCheck(Check(false, LegacyDisabled));
    case CallPurchaseRwa(p, price, zero, proves, signed) =>
      PurchaseOrder(s, p, price, RwaPriceNotSet, zero, proves, signed);
    case CallPurchaseAccess(p, price, zero, proves, signed, to) =>
      PurchaseOrder(s, p, price, AccessAppNotConfigured, zero, proves, signed);
      PayoutOrder(s.pool, price, to);
      FirstFailures(PurchaseChecks(s, p, price, AccessAppNotConfigured, zero, proves, signed),
                    PoolChecks.PayoutChecks(s.pool, price, to));
    case CallWithdrawPrivate(tag, amount, signed, opens, to) => WithdrawOrder(s, tag, amount, signed, opens, to);
    case CallRelistPrivate(l, owns, opensNote) => RelistOrder(s, l, owns, opensNote);
  }

  // ----- nothing is used twice -----

  /** What a call can use up. */
  datatype Token<D> = Tag(tag: D) | Nullifier(nullifier: D) | Ownership(tx: TxId) | Commitment(note: D)

  predicate Spent<D(==)>(s: Storage<D>, t: Token<D>) {
    match t
    case Tag(tag) => tag in s.tagsUsed
    case Nullifier(n) => n in s.nullifiers
    case Ownership(tx) => tx in s.ownersUsed
    case Commitment(note) => note in s.commitments
  }

  function TokensOf<D(==)>(call: Call<D>): set<Token<D>> {
    match call
    case CallDepositPublic => {}
    case CallPurchaseRwa(p, _, _, _, _) => {Tag(p.tag), Nullifier(p.nullifier)}
    case CallPurchaseAccess(p, _, _, _, _, _) => {Tag(p.tag), Nullifier(p.nullifier)}
    case CallWithdrawPrivate(tag, _, _, _, _) => {Tag(tag)}
    case CallRelistPrivate(l, _, _) => {Tag(l.buyerTag), Ownership(l.oldTx), Commitment(l.payment.commitment)}
  }

  ghost predicate SpentStays<D(!new)>(s: Storage<D>, t: Storage<D>) {
    forall x :: Spent(s, x) ==> Spent(t, x)
  }

  ghost predicate Spends<D(!new)>(s: Storage<D>, t: Storage<D>, tokens: set<Token<D>>) {
    forall x :: x in tokens ==> !Spent(s, x) && Spent(t, x)
  }

  lemma ConsumeSpends<D(!new)>(s: Storage<D>, p: Purchase<D>, zero: D)
    ensures Consume(s, p, zero).tagsUsed == s.tagsUsed + {p.tag}
    ensures Consume(s, p, zero).nullifiers == s.nullifiers + {p.nullifier}
    ensures Consume(s, p, zero).ownersUsed == s.ownersUsed
    ensures s.commitments <= Consume(s, p, zero).commitments
  {
  }

  lemma RelistSpends<D(!new)>(s: Storage<D>, l: Listing<D>, owns: D -> bool, opens: (nat, D, D) -> bool)
    ensures var step := RelistPrivate(s, l, owns, opens);
      && SpentStays(s, step.storage)
      && (step.outcome == Accepted ==>
            Spends(s, step.storage, {Tag(l.buyerTag), Ownership(l.oldTx), Commitment(l.payment.commitment)}))
  {
  }

  // What one call does to what is used up, from any storage.
  lemma CallSpends<D(!new)>(s: Storage<D>, call: Call<D>)
    ensures SpentStays(s, Run(s, call).storage)
    ensures Run(s, call).outcome == Accepted ==> TokensOf(call) != {} && Spends(s, Run(s, call).storage, TokensOf(call))
  {
    match call
    case CallPurchaseRwa(p, _, zero, _, _) => ConsumeSpends(s, p, zero);
    case CallPurchaseAccess(p, _, zero, _, _, _) => ConsumeSpends(s, p, zero);
    case CallRelistPrivate(l, owns, opensNote) =>
      RelistSpends(s, l, owns, opensNote);
      assert Tag(l.buyerTag) in TokensOf(call);
    case CallWithdrawPrivate(tag, _, _, _, _) => assert Tag(tag) in TokensOf(call);
    case _ =>
  }

  lemma {:induction false} AllSpentStays<D(!new)>(s: Storage<D>, calls: seq<Call<D>>, i: nat)
    requires i <= |calls|
    ensures SpentStays(RunAll(s, calls[..i]), RunAll(s, calls))
    decreases |calls|
  {
    if i == |calls| {
      assert calls[..i] == calls;
    } else {
      var rest := calls[..|calls| - 1];
      assert rest[..i] == calls[..i];
      AllSpentStays(s, rest, i);
      CallSpends(RunAll(s, rest), calls[|calls| - 1]);
    }
  }

  /** In any run from any storage, every accepted call uses something up, and no two of them the same spend
      tag, nullifier, ownership or new note. */
  lemma SpentOnce<D(!new)>(s: Storage<D>, calls: seq<Call<D>>, i: nat, j: nat)
    requires i < j < |calls| && AcceptedAt(s, calls, i) && AcceptedAt(s, calls, j)
    ensures TokensOf(calls[i]) != {} && TokensOf(calls[j]) != {} && TokensOf(calls[i]) !! TokensOf(calls[j])
  {
    var before := calls[..i + 1];
    assert before[..i] == calls[..i] && before[i] == calls[i];
    assert calls[..j][..i + 1] == before;
    CallSpends(RunAll(s, calls[..i]), calls[i]);
    AllSpentStays(s, calls[..j], i + 1);
    CallSpends(RunAll(s, calls[..j]), calls[j]);
  }

  // ----- who owns what -----

  // The ownership record that an accepted call leaves.
  function Records<D>(call: Call<D>): Option<(TxId, D)> {
    match call
    case CallPurchaseRwa(p, _, _, _, _) => Some((p.tx, p.ownership))
    case CallRelistPrivate(l, _, _) => Some((l.newTx, l.newOwnership))
    case _ => None
  }

  function OwnersAfter<D(==)>(s: Storage<D>, calls: seq<Call<D>>): map<TxId, D> {
    if calls == [] then s.owners
    else
      var rest, last := calls[..|calls| - 1], calls[|calls| - 1];
      if Run(RunAll(s, rest), last).outcome == Accepted && Records(last).Some?
      then OwnersAfter(s, rest)[Records(last).value.0 := Records(last).value.1]
      else OwnersAfter(s, rest)
  }

  lemma ConsumeOwners<D>(s: Storage<D>, p: Purchase<D>, zero: D)
    ensures Consume(s, p, zero).owners == s.owners
  {
  }

  lemma RelistOwners<D>(s: Storage<D>, l: Listing<D>, owns: D -> bool, opens: (nat, D, D) -> bool)
    ensures RelistPrivate(s, l, owns, opens).storage.owners
         == if RelistPrivate(s, l, owns, opens).outcome == Accepted then s.owners[l.newTx := l.newOwnership]
            else s.owners
  {
  }

  lemma CallOwners<D>(s: Storage<D>, call: Call<D>)
    ensures Run(s, call).storage.owners
         == if Run(s, call).outcome == Accepted && Records(call).Some?
            then s.owners[Records(call).value.0 := Records(call).value.1] else s.owners
  {
    match call
    case CallPurchaseRwa(p, _, zero, _, _) => ConsumeOwners(s, p, zero);
    case CallPurchaseAccess(p, _, zero, _, _, _) => ConsumeOwners(s, p, zero);
    case CallRelistPrivate(l, owns, opensNote) => RelistOwners(s, l, owns, opensNote);
    case _ =>
  }

  /** The ownership records are those of the accepted asset purchases and relistings, the latest under each
      transaction. */
  lemma {:induction false} OwnersRecorded<D>(s: Storage<D>, calls: seq<Call<D>>)
    ensures RunAll(s, calls).owners == OwnersAfter(s, calls)
  {
    if calls != [] {
      OwnersRecorded(s, calls[..|calls| - 1]);
      CallOwners(RunAll(s, calls[..|calls| - 1]), calls[|calls| - 1]);
    }
  }

  // ----- what the legacy lane leaves alone -----

  /** The v2 tree and its window, and the range tags. */
  ghost predicate TreeUntouched<D>(s: Storage<D>, t: Storage<D>) {
    && t.nodes == s.nodes && t.leafCount == s.leafCount && t.leafIndex == s.leafIndex
    && t.currentRoot == s.currentRoot && t.recentRoots == s.recentRoots && t.rangeTags == s.rangeTags
  }

  lemma ConsumeLeavesTree<D>(s: Storage<D>, p: Purchase<D>, zero: D)
    ensures TreeUntouched(s, Consume(s, p, zero))
  {
  }

  lemma RelistLeavesTree<D>(s: Storage<D>, l: Listing<D>, owns: D -> bool, opens: (nat, D, D) -> bool)
    ensures TreeUntouched(s, RelistPrivate(s, l, owns, opens).storage)
  {
  }

  lemma CallLeavesTree<D>(s: Storage<D>, call: Call<D>)
    ensures TreeUntouched(s, Run(s, call).storage)
  {
    match call
    case CallPurchaseRwa(p, _, zero, _, _) => ConsumeLeavesTree(s, p, zero);
    case CallPurchaseAccess(p, _, zero, _, _, _) => ConsumeLeavesTree(s, p, zero);
    case CallRelistPrivate(l, owns, opensNote) => RelistLeavesTree(s, l, owns, opensNote);
    case _ =>
  }

  lemma {:induction false} RunLeavesTree<D>(s: Storage<D>, calls: seq<Call<D>>)
    ensures TreeUntouched(s, RunAll(s, calls))
  {
    if calls != [] {
      RunLeavesTree(s, calls[..|calls| - 1]);
      CallLeavesTree(RunAll(s, calls[..|calls| - 1]), calls[|calls| - 1]);
    }
  }

  // ----- which change commitments are on record -----

  // The change tag under which an accepted call records the commitment that it was checked against.
  function ChangeTagOf<D>(call: Call<D>): Option<D> {
    match call
    case CallPurchaseRwa(p, _, _, _, _) => if p.changeCommitment.Some? then p.changeTag else None
    case CallPurchaseAccess(p, _, _, _, _, _) => if p.changeCommitment.Some? then p.changeTag else None
    case _ => None
  }

  function ChangesAfter<D(==)>(s: Storage<D>, calls: seq<Call<D>>): map<D, D> {
    if calls == [] then s.changeTags
    else
      var rest, last := calls[..|calls| - 1], calls[|calls| - 1];
      var tag := ChangeTagOf(last);
      if Run(RunAll(s, rest), last).outcome == Accepted && tag.Some? && tag.value in s.rangeTags
      then ChangesAfter(s, rest)[tag.value := s.rangeTags[tag.value]]
      else ChangesAfter(s, rest)
  }

  lemma ConsumeChanges<D>(s: Storage<D>, p: Purchase<D>, zero: D)
    ensures Consume(s, p, zero).changeTags
         == if p.changeCommitment.Some? && p.changeTag.Some? && p.changeTag.value in s.rangeTags
            then s.changeTags[p.changeTag.value := s.rangeTags[p.changeTag.value]] else s.changeTags
  {
  }

  lemma RelistChanges<D>(s: Storage<D>, l: Listing<D>, owns: D -> bool, opens: (nat, D, D) -> bool)
    ensures RelistPrivate(s, l, owns, opens).storage.changeTags == s.changeTags
  {
  }

  lemma CallChanges<D>(s: Storage<D>, call: Call<D>)
    ensures var tag := ChangeTagOf(call);
      Run(s, call).storage.changeTags
      == if Run(s, call).outcome == Accepted && tag.Some? && tag.value in s.rangeTags
         then s.changeTags[tag.value := s.rangeTags[tag.value]] else s.changeTags
  {
    match call
    case CallPurchaseRwa(p, _, zero, _, _) => ConsumeChanges(s, p, zero);
    case CallPurchaseAccess(p, _, zero, _, _, _) => ConsumeChanges(s, p, zero);
    case CallRelistPrivate(l, owns, opensNote) => RelistChanges(s, l, owns, opensNote);
    case _ =>
  }

  /** The recorded change commitments are the registered ones under the change tags of the accepted
      purchases. */
  lemma {:induction false} ChangesRecorded<D>(s: Storage<D>, calls: seq<Call<D>>)
    ensures RunAll(s, calls).changeTags == ChangesAfter(s, calls)
  {
    if calls != [] {
      var rest := calls[..|calls| - 1];
      ChangesRecorded(s, rest);
      RunLeavesTree(s, rest);
      CallChanges(RunAll(s, rest), calls[|calls| - 1]);
    }
  }

  // ----- what leaves the pool -----

  // What an accepted call takes from the pool.
  function TakenBy<D(==)>(s: Storage<D>, call: Call<D>): nat {
    if Run(s, call).outcome.Refused? then 0
    else match call
      case CallPurchaseAccess(_, price, _, _, _, to) => price - Retained(price, to)
      case CallWithdrawPrivate(_, amount, _, _, to) => amount - Retained(amount, to)
      case _ => 0
  }

  function Taken<D(==)>(s: Storage<D>, calls: seq<Call<D>>): nat {
    if calls == [] then 0
    else var rest := calls[..|calls| - 1]; Taken(s, rest) + TakenBy(RunAll(s, rest), calls[|calls| - 1])
  }

  // A pool that gave up `taken`, and at most the dust on top of it when it was emptied.
  ghost predicate Gave(before: nat, after: nat, taken: nat) {
    && AtRest(after)
    && (after + taken == before || (after == 0 && taken <= before < taken + EXISTENTIAL_DEPOSIT))
  }

  lemma CallTakes<D>(s: Storage<D>, call: Call<D>)
    requires AtRest(s.pool)
    ensures Gave(s.pool, Run(s, call).storage.pool, TakenBy(s, call))
  {
  }

  /** Over any run of legacy calls the pool loses exactly what the accepted ones took, except that it may
      once lose a remainder below the existential deposit, and is empty then. */
  lemma {:induction false} RunTakes<D>(s: Storage<D>, calls: seq<Call<D>>)
    requires AtRest(s.pool)
    ensures Gave(s.pool, RunAll(s, calls).pool, Taken(s, calls))
  {
    if calls != [] {
      RunTakes(s, calls[..|calls| - 1]);
      CallTakes(RunAll(s, calls[..|calls| - 1]), calls[|calls| - 1]);
    }
  }

  // ----- what the payouts are backed by -----

  // The registered tags that were not used yet.
  function Unused<D>(s: Storage<D>): set<D> {
    s.spendTags.Keys - s.tagsUsed
  }

  ghost function Total<D>(tags: set<D>, notes: map<D, D>, val: D -> nat): nat
    requires tags <= notes.Keys
  {
    if tags == {} then 0
    else var t :| t in tags; val(notes[t]) + Total(tags - {t}, notes, val)
  }

  lemma {:induction false} TotalWithout<D>(tags: set<D>, notes: map<D, D>, val: D -> nat, t: D)
    requires tags <= notes.Keys && t in tags
    ensures Total(tags, notes, val) == val(notes[t]) + Total(tags - {t}, notes, val)
  {
    var u :| u in tags && Total(tags, notes, val) == val(notes[u]) + Total(tags - {u}, notes, val);
    if u != t {
      TotalWithout(tags - {u}, notes, val, t);
      TotalWithout(tags - {t}, notes, val, u);
      assert tags - {u} - {t} == tags - {t} - {u};
    }
  }

  lemma {:induction false} TotalElsewhere<D>(tags: set<D>, notes: map<D, D>, more: map<D, D>, val: D -> nat)
    requires tags <= notes.Keys && tags <= more.Keys
    requires forall t :: t in tags ==> notes[t] == more[t]
    ensures Total(tags, notes, val) == Total(tags, more, val)
  {
    if t :| t in tags {
      TotalWithout(tags, notes, val, t);
      TotalWithout(tags, more, val, t);
      TotalElsewhere(tags - {t}, notes, more, val);
    }
  }

  /** What the unused notes are worth, when a commitment is worth `val`. */
  ghost function Worth<D>(s: Storage<D>, val: D -> nat): nat {
    Total(Unused(s), s.spendTags, val)
  }

  // Using a tag takes its note away.
  lemma UseWorth<D>(s: Storage<D>, t: Storage<D>, tag: D, val: D -> nat)
    requires tag in s.spendTags && tag !in s.tagsUsed
    requires t.spendTags == s.spendTags && t.tagsUsed == s.tagsUsed + {tag}
    ensures Worth(t, val) + val(s.spendTags[tag]) == Worth(s, val)
  {
    TotalWithout(Unused(s), s.spendTags, val, tag);
    assert Unused(t) == Unused(s) - {tag};
  }

  // Registering a note adds at most its worth, and exactly that under a new tag.
  lemma RegisterWorth<D>(s: Storage<D>, t: Storage<D>, tag: D, note: D, val: D -> nat)
    requires t.spendTags == s.spendTags[tag := note] && t.tagsUsed == s.tagsUsed
    ensures Worth(t, val) <= Worth(s, val) + val(note)
    ensures tag !in s.spendTags && tag !in s.tagsUsed ==> Worth(t, val) == Worth(s, val) + val(note)
  {
    var others := Unused(s) - {tag};
    TotalElsewhere(others, s.spendTags, t.spendTags, val);
    if tag in Unused(s) {
      TotalWithout(Unused(s), s.spendTags, val, tag);
    } else {
      assert others == Unused(s);
    }
    if tag in s.tagsUsed {
      assert Unused(t) == others;
    } else {
      TotalWithout(Unused(t), t.spendTags, val, tag);
      assert Unused(t) - {tag} == others;
    }
  }

  lemma InsertWorth<D>(s: Storage<D>, note: D, tag: D, val: D -> nat)
    ensures var t := InsertNote(s, note, tag);
      t.Some? ==> Worth(t.value, val) <= Worth(s, val) + val(note)
  {
    if note !in s.commitments {
      RegisterWorth(s, InsertNote(s, note, tag).value, tag, note, val);
    }
  }

  // The openings that a call checks are those of commitments worth what it claims.
  ghost predicate Binding<D(!new)>(call: Call<D>, val: D -> nat) {
    match call
    case CallWithdrawPrivate(_, amount, _, opens, _) => forall c :: opens(c) ==> val(c) == amount
    case CallRelistPrivate(_, _, opensNote) => forall v, b, c :: opensNote(v, b, c) ==> val(c) == v
    case _ => true
  }

  function ChangeWorth<D>(p: Purchase<D>, val: D -> nat): nat {
    match p.changeCommitment
    case None => 0
    case Some(note) => val(note)
  }

  /** What a purchase must respect for its payout to be backed, and the call does not check: the note that it
      registers as change is worth no more than the note it spends, less the price that is paid out. */
  ghost predicate ChangeFits<D>(s: Storage<D>, call: Call<D>, val: D -> nat) {
    match call
    case CallPurchaseRwa(p, _, _, _, _) =>
      p.tag in s.spendTags ==> ChangeWorth(p, val) <= val(s.spendTags[p.tag])
    case CallPurchaseAccess(p, price, _, _, _, _) =>
      p.tag in s.spendTags ==> ChangeWorth(p, val) + price <= val(s.spendTags[p.tag])
    case _ => true
  }

  lemma ConsumeWorth<D>(s: Storage<D>, p: Purchase<D>, zero: D, val: D -> nat)
    requires p.tag in s.spendTags && p.tag !in s.tagsUsed
    ensures Worth(Consume(s, p, zero), val) + val(s.spendTags[p.tag]) <= Worth(s, val) + ChangeWorth(p, val)
  {
    var spent := s.(nullifiers := s.nullifiers + {p.nullifier}, tagsUsed := s.tagsUsed + {p.tag});
    UseWorth(s, spent, p.tag, val);
    match (p.changeCommitment, p.changeTag, ChangeTarget(s, p, zero))
    case (Some(note), Some(tag), Some(target)) =>
      InsertWorth(spent.(changeTags := spent.changeTags[tag := target]), note, tag, val);
    case _ =>
  }

  lemma PurchaseWorth<D>(s: Storage<D>, p: Purchase<D>, zero: D, t: Storage<D>, val: D -> nat)
    requires p.tag in s.spendTags && p.tag !in s.tagsUsed
    requires t.spendTags == Consume(s, p, zero).spendTags && t.tagsUsed == Consume(s, p, zero).tagsUsed
    ensures Worth(t, val) + val(s.spendTags[p.tag]) <= Worth(s, val) + ChangeWorth(p, val)
  {
    ConsumeWorth(s, p, zero, val);
  }

  lemma WithdrawWorth<D(!new)>(
    s: Storage<D>, tag: D, amount: nat, signed: bool, opens: D -> bool, to: Payee, val: D -> nat)
    requires forall c :: opens(c) ==> val(c) == amount
    ensures var step := WithdrawPrivate(s, tag, amount, signed, opens, to);
      step.outcome == Accepted ==> Worth(step.storage, val) + amount == Worth(s, val)
  {
    var step := WithdrawPrivate(s, tag, amount, signed, opens, to);
    if step.outcome == Accepted {
      UseWorth(s, step.storage, tag, val);
    }
  }

  lemma RelistWorth<D(!new)>(s: Storage<D>, l: Listing<D>, owns: D -> bool, opens: (nat, D, D) -> bool, val: D -> nat)
    requires forall v, b, c :: opens(v, b, c) ==> val(c) == v
    ensures Worth(RelistPrivate(s, l, owns, opens).storage, val) <= Worth(s, val)
  {
    if CheckListing(s, l, owns, opens) == Accepted {
      var spent := s.(ownersUsed := s.ownersUsed + {l.oldTx}, tagsUsed := s.tagsUsed + {l.buyerTag});
      UseWorth(s, spent, l.buyerTag, val);
      InsertWorth(spent, l.payment.commitment, l.payment.tag, val);
      var paid := InsertNote(spent, l.payment.commitment, l.payment.tag);
      if paid.Some? && l.change.Some? {
        InsertWorth(paid.value, l.change.value.commitment, l.change.value.tag, val);
      }
    }
  }

  lemma CallBacked<D(!new)>(s: Storage<D>, call: Call<D>, val: D -> nat)
    requires Binding(call, val) && ChangeFits(s, call, val)
    ensures Worth(Run(s, call).storage, val) + TakenBy(s, call) <= Worth(s, val)
  {
    if Run(s, call).outcome == Accepted {
      match call
      case CallPurchaseRwa(p, _, zero, _, _) => PurchaseWorth(s, p, zero, Run(s, call).storage, val);
      case CallPurchaseAccess(p, _, zero, _, _, _) => PurchaseWorth(s, p, zero, Run(s, call).storage, val);
      case CallWithdrawPrivate(tag, amount, signed, opens, to) =>
        WithdrawWorth(s, tag, amount, signed, opens, to, val);
      case CallRelistPrivate(l, owns, opensNote) => RelistWorth(s, l, owns, opensNote, val);
      case _ =>
    }
  }

  /** Over any run with binding openings whose purchases register no more change than they may, all that was
      taken from the pool came out of the notes that were registered before. */
  lemma {:induction false} RunBacked<D(!new)>(s: Storage<D>, calls: seq<Call<D>>, val: D -> nat)
    requires forall i :: 0 <= i < |calls| ==> Binding(calls[i], val)
    requires forall i :: 0 <= i < |calls| ==> ChangeFits(RunAll(s, calls[..i]), calls[i], val)
    ensures Worth(RunAll(s, calls), val) + Taken(s, calls) <= Worth(s, val)
  {
    if calls != [] {
      var rest := calls[..|calls| - 1];
      assert forall i :: 0 <= i < |rest| ==> rest[..i] == calls[..i];
      RunBacked(s, rest, val);
      CallBacked(RunAll(s, rest), calls[|calls| - 1], val);
    }
  }

  /** The condition on purchases is exact: an access purchase that pays another account and registers its
      change under a new tag keeps what was taken within the registered worth if and only if its change
      fits. */
  lemma PurchaseBackedIff<D(!new)>(
    s: Storage<D>, p: Purchase<D>, price: nat, zero: D, proves: (D, D) -> bool, signed: bool, to: Payee,
    val: D -> nat)
    requires Run(s, CallPurchaseAccess(p, price, zero, proves, signed, to)).outcome == Accepted && !to.isPool
    requires p.changeCommitment.Some? && p.changeCommitment.value !in s.commitments
    requires p.changeTag.Some? && p.changeTag.value !in s.spendTags && p.changeTag.value !in s.tagsUsed
    ensures var call := CallPurchaseAccess(p, price, zero, proves, signed, to);
      Worth(Run(s, call).storage, val) + TakenBy(s, call) <= Worth(s, val) <==> ChangeFits(s, call, val)
  {
    var spent := s.(nullifiers := s.nullifiers + {p.nullifier}, tagsUsed := s.tagsUsed + {p.tag});
    UseWorth(s, spent, p.tag, val);
    RegisterWorth(spent, Run(s, CallPurchaseAccess(p, price, zero, proves, signed, to)).storage,
                  p.changeTag.value, p.changeCommitment.value, val);
  }

  /** A relisting whose new notes and tags are new moves the worth of the buyer's note to them, whole. */
  lemma RelistConserves<D(!new)>(
    s: Storage<D>, l: Listing<D>, owns: D -> bool, opens: (nat, D, D) -> bool, val: D -> nat)
    requires Binding(CallRelistPrivate(l, owns, opens), val)
    requires Run(s, CallRelistPrivate(l, owns, opens)).outcome == Accepted
    requires l.payment.tag !in s.spendTags && l.payment.tag !in s.tagsUsed
    requires l.change.Some? ==>
      && l.change.value.tag !in s.spendTags && l.change.value.tag !in s.tagsUsed
      && l.change.value.tag != l.payment.tag
      && l.change.value.commitment !in s.commitments && l.change.value.commitment != l.payment.commitment
    ensures Worth(Run(s, CallRelistPrivate(l, owns, opens)).storage, val) == Worth(s, val)
  {
    var spent := s.(ownersUsed := s.ownersUsed + {l.oldTx}, tagsUsed := s.tagsUsed + {l.buyerTag});
    UseWorth(s, spent, l.buyerTag, val);
    var paid := InsertNote(spent, l.payment.commitment, l.payment.tag).value;
    RegisterWorth(spent, paid, l.payment.tag, l.payment.commitment, val);
    if l.buyerValue != l.Price() && l.change.Some? {
      RegisterWorth(paid, InsertNote(paid, l.change.value.commitment, l.change.value.tag).value,
                    l.change.value.tag, l.change.value.commitment, val);
    }
  }
}
