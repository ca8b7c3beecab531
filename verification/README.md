# Nulla v2 membership circuits and shielded pool

A Dafny model of the v2 zero-knowledge membership code of ProofHub, with proofs of what it is for:

- **Hashes** (`Poseidon.dfy`, `Sponge.dfy`, `Encoding.dfy`): the 64-round Poseidon permutation and the packing
  of two field elements into 32 bytes. Packing round trips exactly on canonical digests, the four hashes are one
  sponge over the limbs of their inputs, every round, hence the permutation, is injective, and so the state
  before the last squeeze has lost nothing of what was absorbed.
- **The note tree** (`Merkle.dfy`, `NoteTree.dfy`): the incremental frontier refines the padded tree for every
  depth and every leaf sequence, every inserted leaf's extracted path is accepted against the frontier's root
  while a slot is free, and an accepted path names the leaf at its position or exhibits two inputs of the node
  hash with one output.
- **SpendAir** (`SpendAir.dfy`, `Blocks.dfy`, `SpendMasks.dfy`, `SpendSoundness.dfy`, `SpendTrace.dfy`,
  `SpendBuilder.dfy`, `SpendCompleteness.dfy`, `SpendTraces.dfy`, `SpendProver.dfy`): 8192 rows, 14 columns, 22
  polynomials, 15 masks, 8 assertions. The polynomials vanish at a step exactly when the scheduled instruction
  was carried out there; every satisfying trace opens the spend relation over the integers; the in-place builder
  produces a satisfying trace exactly for balanced values; so the circuit is satisfiable if and only if the
  relation has an opening. The satisfying traces are exactly the prover's traces of the openings, in every cell
  but those that no constraint ties, and these are named.
- **DepositV2Air** (`DepositAir.dfy`) and the legacy **PurchaseAir** (`PurchaseAir.dfy`): the same two
  directions, and exactly the satisfying traces. For PurchaseAir the change commitment turns out to be opened
  independently of the input commitment.
- **The pool** (`PoolLedger.dfy`, `PoolStorage.dfy`, `LegacyLane.dfy`, `LegacySafety.dfy`, `ShieldedPool.dfy`,
  `PoolChecks.dfy`, `PoolSafety.dfy`, `PoolCircuits.dfy`): the v2 calls of the proofs pallet, in place, each
  proved to keep storage and records in step, and the legacy calls, all of which are refused on a chain that
  started empty and which, from any storage, use up each spend tag, nullifier and ownership at most once. Every
  call is refused with the error of the first of its checks that fails, in an order written out check by check.
  What every reachable state promises is stated with its exact condition; three promises that one might expect
  do not hold without one:
  - *A note is spent at most once* holds while no two recorded nullifiers spell the same limbs. The pallet compares
    32 bytes and the circuit compares limbs, so an opening passes again under another spelling, if there is one.
    There is one exactly when a limb, reduced, is below 2^128 minus the modulus.
  - *The pool covers the unspent notes*, on top of what payments have left in it, holds exactly when no payout has
    left a remainder strictly between zero and the existential deposit, because such a remainder is burned with the
    account. Payments leave in it the prices of RWA purchases and the payouts that go to the pool account itself.
  - *The owner can spend an inserted note* holds exactly when the note is not in the last slot of the tree, which no
    root that is ever published covers, when its nullifier is not used yet, and, for a withdrawal, when the payout
    can be made. The nullifier depends on the blinding alone, so of two notes with one blinding only the first to
    be spent ever is.

  The first two are proved up to an exhibited break of a hash: a collision on the walk down a path, a digest of zero,
  or two notes with one digest. The third speaks of openings that exhibit no such break, and the honest one exhibits
  none unless the note's own digest or the root unpacks to zero.
- **The framing of range proofs** (`RangeProofWire.dfy`) and **the era payout** of the relay runtime
  (`EraPayout.dfy`).

`Bits.dfy` and `Field.dfy` hold the arithmetic underneath.

## Assumptions

- The field is any structure with the laws of `Field.Lawful`. They ask that x(x - 1) has no other roots than 0 and
  1 and that the modulus lies above 2^65 and not above 2^128. Integers modulo the f128 modulus meet all of them,
  given that this modulus has no zero divisors (`Fields.Mod128Lawful`).
- Round constants and initial values, which the code derives with BLAKE3, are parameters, so every theorem holds
  for any choice of them.
- The STARK library enforces transitions at steps 0 to TRACE_LEN - 2 and assertions at their rows. The pallet
  calls take the verdict on a proof as a boolean that is true only of provable statements; provable is then proved
  equivalent to satisfiable.
- A failed pallet call leaves no trace in storage, which is how FRAME dispatches calls. The pallet methods restore
  the storage they took.
- The balances pallet moves nothing when asked to move zero, refuses a payment that would leave the receiver below
  the existential deposit, and, when a payment may end the payer's account, ends it and burns what is left below
  the existential deposit (`PoolStorage`). A transfer from an account to itself succeeds and moves nothing, so a
  payout whose destination is the pool account stays in the pool. Only these calls move money in or out of the pool
  account.
- `FixedU128::from_rational` and `saturating_mul_int` round down and saturate.
- Cubing is injective. Everything else that the injectivity of the permutation needs is proved of the f128 field.
- Offsets of the range proof framing are unbounded, as on a usize wide enough that `off + len` cannot wrap.

## Conditions under which a property holds

- The frontier's root is the root of the inserted leaves only while one slot is free. Filling the last slot
  stores nothing and the fold returns the empty root (`Merkle.InsertAll`).
- `pack(unpack(d)) == d` holds exactly for canonical digests, both limbs below the modulus (`Encoding.PackUnpack`).
- A digest is the only one with its limbs exactly when neither limb, reduced, is below 2^128 minus the modulus
  (`Encoding.AliasIff`). Given that, the nullifier set identifies a note; without it, the same opening is accepted
  again (`PoolSafety.SpendableAgainIff`, `PoolSafety.WithdrawTwice`).
- Coverage of the unspent notes holds exactly when nothing was burned (`PoolSafety.PoolCoversIff`). Call by call, a
  payout keeps it exactly when it pays nothing, pays the pool itself, or leaves the pool empty or at or above the
  existential deposit, which a caller can check first (`PoolSafety.PayoutCovers`). Two deposits of twice the
  existential deposit and of one, then a withdrawal of the first, empty the pool (`PoolSafety.ReapedPool`).
- An owner's withdrawal is accepted, against some root in the window and without a break, exactly when the note is not
  in the last slot, its nullifier is unused, and the payout can be made (`PoolCircuits.OwnerWithdrawsIff`); a
  purchase exactly when the nullifier is unused, the price is not zero, the change leaf is new and the tree has a free
  slot, and, for an access purchase, when its payout can be made (`PoolCircuits.OwnerBuysIff` is about all checks but
  the payout). The digest of the note and the latest root that covers leaves must not unpack to
  zero (`PoolSafety.NoZeros`).
- Two notes with one blinding can both be deposited. Once one is withdrawn the other is refused
  (`PoolCircuits.TwoNotesOneBlinding`), and so is every later claim on it if the used nullifier has no other spelling
  (`PoolSafety.BlindingFrozen`).
- The trace of `prove_spend` in withdraw mode satisfies the circuit exactly when, besides the values, the change
  key digest unpacks to zero and the change blinding opens the zero change leaf (`SpendCompleteness.NoChange`).
- The description of PurchaseAir asks that the change commitment hide the value less the price. The bridge step
  switches every constraint off, so the circuit is satisfiable exactly when the input commitment opens to a
  value from the price to below the price plus 2^64 and the change commitment opens to anything
  (`PurchaseAir.PurchaseIff`); `PurchaseAir.AnyChangeSatisfies` gives inputs that meet the circuit and not the
  description.
- What the legacy calls take from the pool stays within the worth of the registered notes as long as no purchase
  registers change worth more than its note less the price (`LegacySafety.RunBacked`). The purchases do not check
  this, and for a single one that pays out it is exactly the condition (`LegacySafety.PurchaseBackedIff`).
- Four limbs cannot go into two injectively, so binding is stated by collision: `Merkle.FindCollision` walks down
  an accepted path and returns the two pairs.
- The repository's era tests expect a 15% treasury share (`runtime/src/tests.rs`); the code uses 20%, and so does
  the model.

## Model

| member | source | states |
|---|---|---|
| Fields.Mod128Lawful | proofhub/verifier/src/lib.rs:627-631 | arithmetic modulo the f128 modulus has every law that the circuits rely on, given no zero divisors |
| Fields.Field.OfIntInjective | proofhub/verifier/src/lib.rs:1085-1088 | integers below the modulus that embed alike are equal |
| Encoding.UnpackPack | proofhub/verifier/src/lib.rs:625-640 | unpacking a packed pair gives the pair back, for all field elements |
| Encoding.UnpackReads | proofhub/verifier/src/lib.rs:625-631 | the two limbs are the low and the high 128 bits of the 32 bytes as a little-endian integer, each reduced by the modulus |
| Encoding.PackWrites | proofhub/verifier/src/lib.rs:633-640 | the packed 32 bytes are the little-endian integer whose low and high 128 bits are the two field elements |
| Encoding.PackUnpack | proofhub/verifier/src/lib.rs:625-640 | a digest survives unpack and pack if and only if both 16-byte limbs are below the modulus |
| Encoding.AliasIff | proofhub/verifier/src/lib.rs:625-640 | another digest has the same limbs if and only if one limb, reduced, is below 2^128 minus the modulus |
| Encoding.UnpackInjective | proofhub/verifier/src/lib.rs:625-631 | two canonical digests with the same limbs are the same bytes |
| Encoding.ZeroDigestIsZeros | proofhub/verifier/src/lib.rs:681-685 | the packing of two zeros is the digest of 32 zero bytes, Z[0] |
| Poseidon.PermInPlace | proofhub/verifier/src/lib.rs:214-220 | the in-place loop leaves the 64-round iterate of the round function in the state |
| Poseidon.NoteHashUnpacks | proofhub/verifier/src/lib.rs:651-660 | note_hash on bytes unpacks to the two-permutation sponge on field elements |
| Poseidon.NullifierHashUnpacks | proofhub/verifier/src/lib.rs:663-668 | nullifier_hash on bytes unpacks to the one-permutation hash of the blinding's limbs |
| Poseidon.HashesSeeLimbsOnly | proofhub/verifier/src/lib.rs:651-679 | note, nullifier and node hashes are unchanged when any digest input is unpacked and packed again |
| Poseidon.AllMixSums | proofhub/verifier/src/lib.rs:209-210 | the linear layer multiplies the column sum by five |
| Poseidon.EveryRoundInjective | proofhub/verifier/src/lib.rs:179-211 | over any lawful commutative field where cubing and multiplying by five are injective, every full and every partial round is injective |
| Poseidon.PermInjective | proofhub/verifier/src/lib.rs:200-220 | under the same field laws the whole permutation is injective |
| Poseidon.Mod128PermInjective | proofhub/verifier/src/lib.rs:200-220 | over the f128 field the permutation is injective, given only that the modulus has no zero divisors and cubing is injective |
| Sponge.HashesAreSponges | proofhub/verifier/src/lib.rs:222-232 | together with lines 651-679: note, nullifier, node and commitment hash are one sponge over the limbs of their inputs in order, low limb first, each under its own initial value |
| Sponge.EveryRoundByColumns | proofhub/verifier/src/lib.rs:179-211 | round r adds its four constants, cubes column 0, and in the first and the last four rounds the others too, and multiplies by the matrix with two on the diagonal and one elsewhere |
| Sponge.LawsMakePermDiffer | proofhub/verifier/src/lib.rs:200-220 | the field laws make the permutation tell any two states apart |
| Sponge.Mod128PermDiffers | proofhub/verifier/src/lib.rs:200-220 | so does the f128 field, given only that the modulus has no zero divisors and cubing is injective |
| Sponge.NullifierKeepsBlinding | proofhub/verifier/src/lib.rs:663-668 | the state that a nullifier is squeezed from determines both limbs of the blinding |
| Sponge.NoteKeepsInputs | proofhub/verifier/src/lib.rs:651-660 | the state after the first permutation of a note determines its value and blinding, and given it the last state determines the key digest |
| Sponge.NodeKeepsChildren | proofhub/verifier/src/lib.rs:671-679 | the state after the first permutation of a node determines three limbs of its children, and given it the last state determines the fourth |
| Merkle.ZeroSubtrees | proofhub/verifier/src/lib.rs:681-691 | entry d is the root of the empty subtree of height d |
| Merkle.NextLevel | proofhub/verifier/src/lib.rs:753-760 | pairing a level, with Z[d] for a missing right child, gives the next level of the padded tree |
| Merkle.ReferenceRoot | proofhub/verifier/src/lib.rs:747-765 | the rebuilt tree has the root of the padded tree, for any number of leaves |
| Merkle.NodeStable | proofhub/verifier/src/lib.rs:725-730 | a complete subtree keeps its root when a leaf is appended |
| Merkle.NodePastEnd | proofhub/verifier/src/lib.rs:725-730 | nodes past the last leaf are the zero subtrees |
| Merkle.NodeLocal | proofhub/verifier/src/lib.rs:749-765 | a node depends only on the 2^d leaves below it |
| Merkle.PendingNode | proofhub/verifier/src/lib.rs:693-699 | for each set bit d of n the pending node is the root of the perfect subtree over the 2^d leaves from (n >> (d+1)) << (d+1) |
| Merkle.StoreKeepsPending | proofhub/verifier/src/lib.rs:709-723 | storing the carried node at the first clear bit keeps every pending node right; slots at clear bits stay unconstrained |
| Merkle.Frontier.constructor | proofhub/verifier/src/lib.rs:701-705 | the default frontier stands for no leaves |
| Merkle.Frontier.Insert | proofhub/verifier/src/lib.rs:708-723 | accepts exactly while the count is below 2^D, appends the leaf to the history and keeps the binary-counter invariant; otherwise changes nothing |
| Merkle.Frontier.CurrentRoot | proofhub/verifier/src/lib.rs:725-744 | the fold is the root of exactly the inserted leaves while a slot is free, and the empty root when full |
| Merkle.InsertAll | proofhub/verifier/src/lib.rs:695-765 | a whole run from the default state: the final root for every leaf sequence and depth, and how many leaves are accepted |
| Merkle.VerifyMerklePath | proofhub/verifier/src/lib.rs:767-786 | accepts exactly when the path folds to the root |
| Merkle.ExtractPath | proofhub/verifier/src/lib.rs:1820-1839 | the wallet's level-by-level extraction gives the neighbours of the position, Z[d] past the end |
| Merkle.EveryLeafProvable | proofhub/verifier/src/lib.rs:1818-1840 | the path of any position is accepted against the root of the tree |
| Merkle.InsertedLeafVerifies | proofhub/verifier/src/lib.rs:1818-1840 | insert any leaves that leave a slot free, extract the path of any position: it is accepted against the root that the frontier gives |
| Merkle.PathBinds | proofhub/verifier/src/lib.rs:749-786 | an accepted path names the leaf at its position, or two different inputs of the node hash with one output are exhibited |
| Merkle.OwnPathIsSame | proofhub/verifier/src/lib.rs:749-786 | the tree's own path of a position exhibits no collision |
| NoteTree.UnpackCarries | proofhub/verifier/src/lib.rs:670-691 | unpacking carries the byte tree to the tree on field elements |
| NoteTree.BytePathBinds | proofhub/verifier/src/lib.rs:671-786 | on bytes, an accepted path names its leaf up to unpack, or two unpacked pairs with one node hash are exhibited |
| NoteTree.PackedCollision | proofhub/verifier/src/lib.rs:671-679 | such a pair of pairs is a collision of merkle_hash2 on bytes |
| Blocks.RunPermRows | proofhub/verifier/src/lib.rs:1176-1187 | writes the successive rounds of the state at its start row and touches nothing else |
| Blocks.FreezeStateRows | proofhub/verifier/src/lib.rs:1189-1193 | copies the state above the range into every row of it and touches nothing else |
| Blocks.BlockPermutes | proofhub/verifier/src/lib.rs:865-909 | 64 round steps and the freeze steps after them carry poseidon_perm of a block's first state to every later row of the block |
| SpendMasks.BuildMasks | proofhub/verifier/src/lib.rs:884-934 | the filled arrays are the indicator functions of the schedule, one instruction per step |
| SpendMasks.BuildRoundKeys | proofhub/verifier/src/lib.rs:865-882 | the filled round schedule holds the keys of round s - 1 at block steps 1 to 64 and zeros elsewhere |
| SpendMasks.PeriodicMatches | proofhub/verifier/src/lib.rs:995-999 | all twenty columns read from the filled arrays, the round schedule repeating in every block, are the ones the constraints are evaluated with |
| SpendAir.StateConstraintSelects | proofhub/verifier/src/lib.rs:1054-1062 | a state constraint vanishes exactly when its column takes the value of the one scheduled instruction |
| SpendAir.StateMeaning | proofhub/verifier/src/lib.rs:1027-1062 | constraints 0 to 3 vanish exactly when the next state is the round, frozen, linked or absorbed state |
| SpendAir.RangeMeaning | proofhub/verifier/src/lib.rs:1066-1072 | constraints 5 to 7 vanish exactly when the accumulator steps, resets and is compared as scheduled |
| SpendAir.CarriesMeaning | proofhub/verifier/src/lib.rs:1073-1084 | constraints 8 to 15 vanish exactly when carried columns hold and the right child's high limb is latched |
| SpendAir.ValuesMeaning | proofhub/verifier/src/lib.rs:1064-1093 | constraints 4 and 16 to 21 vanish exactly when bits are bits, values balance in the field and row 0 starts the nullifier |
| SpendAir.StepMeaning | proofhub/verifier/src/lib.rs:1001-1094 | all twenty-two polynomials vanish at a step if and only if the scheduled instruction was carried out |
| SpendSoundness.AccumulatorCounts | proofhub/verifier/src/lib.rs:1064-1070 | the accumulator columns hold the integer of the bits seen so far and the next power of two |
| SpendSoundness.ValueIsSmall | proofhub/verifier/src/lib.rs:1064-1072 | the value column is a 64-bit integer, read from the first 64 bit rows |
| SpendSoundness.ChangeIsSmall | proofhub/verifier/src/lib.rs:1064-1072 | the change column is a 64-bit integer, read from the next 64 bit rows |
| SpendSoundness.NothingWraps | proofhub/verifier/src/lib.rs:1085-1088 | the two field equations hold if and only if v = cv + price, or v = amount and cv = 0, over the integers |
| SpendSoundness.NoteRuns | proofhub/verifier/src/lib.rs:796-801 | the first Merkle row holds the note hash of the carried value, blinding and public key digest |
| SpendSoundness.ChangeRuns | proofhub/verifier/src/lib.rs:801-803 | the change row holds the note hash of the carried change value, its blinding and the public change key digest |
| SpendSoundness.LevelCarried | proofhub/verifier/src/lib.rs:1078-1084 | in any run the 256 rows of a level hold one sibling, one index bit and one carried limb |
| SpendSoundness.EdgesCarried | proofhub/verifier/src/lib.rs:1078-1084 | in any run sibling and carried limb are constant up to row 384 and again after row 5504 |
| SpendSoundness.LevelRuns | proofhub/verifier/src/lib.rs:1040-1062 | the link and absorb steps of a level compute one merkle_hash2 with the children ordered by the index bit |
| SpendSoundness.LevelsFold | proofhub/verifier/src/lib.rs:913-918 | by induction over levels, every level's row holds the fold of the path so far |
| SpendSoundness.PathRuns | proofhub/verifier/src/lib.rs:769-786 | the asserted root row holds the whole path fold of the siblings and bits in the trace |
| SpendSoundness.SpendSound | proofhub/verifier/src/lib.rs:887-1110 | every satisfying trace contains values below 2^64, blindings, 20 bits and 20 siblings that open the nullifier, root and change leaf, with the values balanced as integers |
| SpendTrace.PlanLinked | proofhub/verifier/src/lib.rs:1255-1320 | every block of the planned trace starts where the schedule says, given where earlier blocks ended |
| SpendTrace.PathEnds | proofhub/verifier/src/lib.rs:1278-1307 | the last Merkle block of the planned trace ends with the fold of the witness path |
| SpendBuilder.BuildSpendTrace | proofhub/verifier/src/lib.rs:1195-1323 | the in-place builder fills every cell of all 8192 rows as planned for the unpacked witness |
| SpendCompleteness.EveryStateFollows | proofhub/verifier/src/lib.rs:1255-1320 | the planned state columns follow the schedule at every step |
| SpendCompleteness.HonestSatisfies | proofhub/verifier/src/lib.rs:1001-1110 | the planned trace satisfies the circuit if and only if the public key digests are the witness's, the values balance in the field and the public outputs are the witness's |
| SpendCompleteness.SpendIff | proofhub/verifier/src/lib.rs:887-1110 | SpendAir is satisfiable for given public inputs if and only if the spend relation has an opening |
| SpendCompleteness.ProveSpendComplete | proofhub/verifier/src/lib.rs:1365-1385 | for every witness and the public inputs of prove_spend, the trace satisfies the circuit if and only if v = cv + price, or v = amount, cv = 0 and the change fields open the zero change leaf |
| SpendCompleteness.FittingOpens | proofhub/verifier/src/lib.rs:1365-1385 | a fitting witness is itself an opening, at its own index, of the public inputs computed for it |
| SpendTraces.StepPins | proofhub/verifier/src/lib.rs:1001-1094 | two runs that agree before a step and make the same choices at it agree after it, in every cell that a constraint ties |
| SpendTraces.SpendTracesIff | proofhub/verifier/src/lib.rs:887-1110 | a trace satisfies the circuit if and only if it is the prover's trace of some opening of the relation, in every cell but the named free ones, of which only bits and constants are asked |
| SpendTraces.FreeCells | proofhub/verifier/src/lib.rs:1195-1323 | what the prover puts into the free cells: zeros before the first level and cleared bits outside the range and Merkle rows, the last value elsewhere |
| SpendProver.ProveSpend | proofhub/verifier/src/lib.rs:1365-1385 | the computed public inputs are the path fold, nullifier and change leaf of the witness, and for every witness the built arrays satisfy the circuit exactly when it fits |
| DepositAir.StepMeaning | proofhub/verifier/src/lib.rs:1475-1504 | the six polynomials vanish at a step if and only if it rounds, holds or absorbs as scheduled |
| DepositAir.LeafRow | proofhub/verifier/src/lib.rs:1429-1443 | the leaf row holds the two-permutation sponge of the first row and the carried key digest |
| DepositAir.DepositSound | proofhub/verifier/src/lib.rs:1475-1514 | every satisfying trace carries a blinding and a key digest that open the leaf with the public amount |
| DepositAir.HonestSatisfies | proofhub/verifier/src/lib.rs:1566-1591 | the honest trace satisfies the circuit if and only if the leaf is the witness's note hash up to unpack |
| DepositAir.BuildDepositTrace | proofhub/verifier/src/lib.rs:1566-1591 | the in-place builder fills all 256 rows with the honest trace |
| DepositAir.DepositIff | proofhub/verifier/src/lib.rs:1429-1514 | DepositV2Air is satisfiable if and only if some blinding and key digest hash with the amount to the leaf, up to unpack |
| DepositAir.SatisfyingIsHonest | proofhub/verifier/src/lib.rs:1475-1514 | a satisfying trace is the prover's trace of the witness it carries, in all 256 rows and all six columns |
| DepositAir.DepositTraces | proofhub/verifier/src/lib.rs:1429-1514 | a trace satisfies the circuit if and only if it is the prover's trace of some opening of the leaf |
| PurchaseAir.AccumulatorCounts | proofhub/verifier/src/lib.rs:466-469 | the 64-row accumulator holds the integer of the bits seen so far |
| PurchaseAir.LinkedValue | proofhub/verifier/src/lib.rs:461-463 | the link step adds the price to the accumulated remainder below 2^64 |
| PurchaseAir.StepMeaning | proofhub/verifier/src/lib.rs:442-474 | the seven polynomials vanish at a step if and only if it accumulated a bit, linked the price, ran a round or held still as scheduled; step 191 is free |
| PurchaseAir.InputOpens | proofhub/verifier/src/lib.rs:421-509 | any satisfying trace contains an opening v of rp_commitment under the fixed IV with price <= v < price + 2^64, and an opening of the change commitment |
| PurchaseAir.OpeningSatisfies | proofhub/verifier/src/lib.rs:421-509 | every such pair of openings gives satisfying traces, whatever the free cells hold |
| PurchaseAir.PurchaseTraces | proofhub/verifier/src/lib.rs:421-509 | a trace satisfies the circuit if and only if it is the trace of some such pair of openings, all 512 rows, up to five free values |
| PurchaseAir.PurchaseIff | proofhub/verifier/src/lib.rs:421-509 | the circuit is satisfiable if and only if rp_commitment opens to some v with price <= v < price + 2^64 and the change commitment opens to anything |
| PurchaseAir.AnyChangeSatisfies | proofhub/verifier/src/lib.rs:579-581 | the described relation between the two values is not enforced: a note of at least the price satisfies the circuit with a change commitment to any value, or with none |
| RangeProofWire.VerifyRangeProof | proofhub/verifier/src/lib.rs:535-573 | true exactly when the input begins with a framing whose two proofs verify; every offset stays in bounds |
| RangeProofWire.FramesUnique | proofhub/verifier/src/lib.rs:524-530 | an input frames at most one triple of parts |
| RangeProofWire.Reframes | proofhub/verifier/src/lib.rs:540-564 | re-serialising what was parsed gives a prefix of the input |
| EraPayout.NothingSaturates | runtime/src/lib.rs:710-720 | for every u64 duration no intermediate value saturates |
| EraPayout.YearEmitsEightPercent | runtime/src/lib.rs:705-718 | a year of 365.25 days emits exactly eight percent of the fixed issuance, rounded down |
| EraPayout.PayoutConserves | runtime/src/lib.rs:721-729 | stakers and treasury add up to the emission exactly, and the treasury gets a fifth rounded down |
| EraPayout.EmissionMonotone | runtime/src/lib.rs:711-720 | a longer era never emits less |
| EraPayout.NearlyAdditive | runtime/src/lib.rs:711-720 | emission(a + b) exceeds emission(a) + emission(b) by 0, 1 or 2 |
| PoolLedger.DepositRecorded | proofhub/pallets/proofs/src/lib.rs:1311-1329 | a proved deposit keeps the records consistent, its note worth the amount paid |
| PoolLedger.PurchaseRecorded | proofhub/pallets/proofs/src/lib.rs:1340-1410 | a proved purchase keeps the records consistent, its change note worth value minus price |
| PoolLedger.WithdrawRecorded | proofhub/pallets/proofs/src/lib.rs:1417-1463 | a proved withdrawal keeps the records consistent |
| PoolLedger.SpendNamesEntry | proofhub/pallets/proofs/src/lib.rs:769-773 | an accepted spend opened exactly the note inserted at its index, before its anchor root stood and never in the last slot, or exhibits a break |
| PoolLedger.SharedNoteAliased | proofhub/pallets/proofs/src/lib.rs:1350-1351 | two accepted spends open the same note only under two spellings of one nullifier |
| PoolLedger.NoDoubleSpend | proofhub/pallets/proofs/src/lib.rs:1350-1351 | two accepted spends never open the same note while no two recorded nullifiers are aliases |
| PoolLedger.AliasFreeSuffices | proofhub/pallets/proofs/src/lib.rs:1350-1351 | checking each nullifier before it is accepted would rule aliases out |
| PoolLedger.Conserved | proofhub/pallets/proofs/src/lib.rs:1303-1329 | deposits are exactly what was paid out plus the value of the notes no spend has named |
| PoolLedger.Solvent | proofhub/pallets/proofs/src/lib.rs:1303-1329 | what spends paid out never exceeds what deposits paid in |
| PoolLedger.UnspentCovered | proofhub/pallets/proofs/src/lib.rs:1303-1329 | what remains covers any note not spent yet |
| LegacyLane.Refuses | proofhub/pallets/proofs/src/lib.rs:812-1224 | without a registered spend tag every legacy call is refused and changes nothing |
| LegacyLane.RunsRefused | proofhub/pallets/proofs/src/lib.rs:812-1224 | no run of legacy calls from such storage registers a tag or moves money |
| LegacySafety.CallOrder | proofhub/pallets/proofs/src/lib.rs:812-1224 | every legacy call is refused with the error of the first failing check of a written-out list, and then changes nothing |
| LegacySafety.SpentOnce | proofhub/pallets/proofs/src/lib.rs:812-1224 | in any run from any storage every accepted call uses something up, and no two the same spend tag, nullifier, ownership or new note |
| LegacySafety.OwnersRecorded | proofhub/pallets/proofs/src/lib.rs:812-1224 | after any run the ownership records are those of the accepted asset purchases and relistings, the latest under each transaction |
| LegacySafety.ChangesRecorded | proofhub/pallets/proofs/src/lib.rs:812-1224 | after any run the recorded change commitments are the registered ones under the change tags of the accepted purchases |
| LegacySafety.RunLeavesTree | proofhub/pallets/proofs/src/lib.rs:812-1224 | no run of legacy calls touches the v2 tree, its roots or the range tags |
| LegacySafety.RunTakes | proofhub/pallets/proofs/src/lib.rs:812-1224 | over any run of legacy calls the pool loses exactly what the accepted ones took, except once for a remainder below the existential deposit, and is empty then |
| LegacySafety.RunBacked | proofhub/pallets/proofs/src/lib.rs:812-1224 | with binding openings and fitting change, what a run takes from the pool plus what its unused notes are worth never exceeds what they were worth before |
| LegacySafety.PurchaseBackedIff | proofhub/pallets/proofs/src/lib.rs:1153-1224 | an access purchase with a new change note keeps that bound if and only if the change is worth at most the spent note less the price |
| LegacySafety.RelistConserves | proofhub/pallets/proofs/src/lib.rs:991-1105 | a relisting with new notes and tags conserves the worth of the unused notes exactly |
| ShieldedPool.WindowMoves | proofhub/pallets/proofs/src/lib.rs:789-800 | after an insertion the window again holds exactly the latest 64 earlier roots, oldest first, never the one before the first leaf |
| ShieldedPool.Pool.constructor | proofhub/pallets/proofs/src/lib.rs:371-397 | default storage agrees with empty records |
| ShieldedPool.Pool.V2RootAnchored | proofhub/pallets/proofs/src/lib.rs:769-773 | true exactly for the current root and the earlier roots still in the window |
| ShieldedPool.TreeGrows | proofhub/pallets/proofs/src/lib.rs:786-800 | frontier, index map, current root and window stay in step with the leaves when one is inserted |
| ShieldedPool.V2InsertLeaf | proofhub/runtime/src/configs/mod.rs:403-412 | a frontier taken up from storage gives the frontier and root with the leaf appended, or nothing exactly when full |
| ShieldedPool.Pool.V2Insert | proofhub/pallets/proofs/src/lib.rs:775-803 | refuses a leaf already in the tree, then a full tree, changing nothing; otherwise appends it and moves frontier, index map, root and window |
| ShieldedPool.Pool.DepositV2 | proofhub/pallets/proofs/src/lib.rs:1311-1329 | the order of refusals; on success the leaf enters the tree and the records, after all earlier ones, as the very note whose opening was proved, and the pool grows by the amount; on refusal nothing changes |
| ShieldedPool.Pool.CheckSpend | proofhub/pallets/proofs/src/lib.rs:1350-1379 | the order of the checks that the spending calls share |
| ShieldedPool.Pool.PurchaseRwaV2 | proofhub/pallets/proofs/src/lib.rs:1340-1410 | the order of refusals; on success nullifier, change leaf and ownership record are added, the opened spend and the change note are recorded after all earlier ones, and the pool keeps the price; on refusal nothing changes |
| ShieldedPool.Pool.PurchaseAccessV2 | proofhub/pallets/proofs/src/lib.rs:1237-1301 | the same with the price paid out of the pool, a remainder below the existential deposit burned, nothing moved when the payment account is the pool itself, and all undone when the late steps fail |
| ShieldedPool.Pool.WithdrawV2 | proofhub/pallets/proofs/src/lib.rs:1417-1463 | the order of refusals; on success only the nullifier set and the pool change and the opened spend is recorded after all earlier ones, a remainder below the existential deposit being burned and a payout to the pool itself moving nothing; on refusal nothing changes |
| ShieldedPool.Pool.RunLegacy | proofhub/pallets/proofs/src/lib.rs:812-1224 | any legacy call is refused in every state that the v2 calls can reach, with nothing changed |
| PoolChecks.DepositOrder | proofhub/pallets/proofs/src/lib.rs:1311-1329 | the outcome of a deposit is that of its first failing check: the proof, then amount 0 or a paid amount that leaves the pool at 10^9 or more, then a new leaf, then fewer than 2^20 leaves |
| PoolChecks.UnpaidDeposit | proofhub/pallets/proofs/src/lib.rs:1325 | a deposit of a nonzero amount that is not paid is refused and changes nothing |
| PoolChecks.PurchaseOrder | proofhub/pallets/proofs/src/lib.rs:1237-1410 | the outcome of either purchase is that of its first failing check, in a written-out list of seven and nine checks |
| PoolChecks.WithdrawOrder | proofhub/pallets/proofs/src/lib.rs:1417-1463 | the outcome of a withdrawal is that of its first failing check, in a written-out list of seven checks |
| PoolChecks.WindowIs64 | proofhub/pallets/proofs/src/lib.rs:389-392 | with n > 0 leaves exactly the roots after m leaves with 1 <= m <= n <= m + 64 are accepted |
| PoolChecks.AnchoredIff | proofhub/pallets/proofs/src/lib.rs:769-800 | a claim passes the check of its root if and only if that root stood at most 64 insertions ago |
| PoolSafety.SpendableAgainIff | proofhub/pallets/proofs/src/lib.rs:1428 | after a nullifier is used, the same opening passes again under some unused digest if and only if the nullifier is not the only digest with its limbs |
| PoolSafety.WithdrawTwice | proofhub/pallets/proofs/src/lib.rs:1417-1463 | the counterexample: a nullifier and another spelling of it are both accepted for one opening and the pool pays twice |
| PoolSafety.BlindingFrozen | proofhub/pallets/proofs/src/lib.rs:1428 | once a nullifier without other spellings is used, every claim that opens a note with that blinding is refused, whatever its root, price and proofs |
| PoolSafety.PoolHolds | proofhub/pallets/proofs/src/lib.rs:1455-1459 | balance plus burned dust equals the unspent notes plus what payments left in the pool: RWA prices and payouts to the pool itself |
| PoolSafety.PoolCoversIff | proofhub/pallets/proofs/src/lib.rs:1455-1459 | the pool covers the unspent notes and what payments left in it if and only if no payout burned anything |
| PoolSafety.PayoutCovers | proofhub/pallets/proofs/src/lib.rs:1455-1459 | an accepted payout keeps the pool covering if and only if it pays nothing, pays the pool itself, or leaves the pool empty or at or above the existential deposit |
| PoolSafety.PoolCovers | proofhub/pallets/proofs/src/lib.rs:1455-1459 | while nothing was burned, the pool can pay any one unspent note |
| PoolSafety.ReapedPool | proofhub/pallets/proofs/src/lib.rs:1455-1459 | the counterexample: two deposits and one withdrawal leave the pool empty with a note unspent |
| PoolSafety.SoundWhenAliasFree | proofhub/pallets/proofs/src/lib.rs:1417-1463 | with alias-free nullifiers every reachable unbroken state has no double spend, is solvent, and covers exactly when nothing was burned |
| PoolSafety.AnchorCovers | proofhub/pallets/proofs/src/lib.rs:769-773 | a spend opens a leaf that its anchor root covers, or exhibits a break |
| PoolSafety.HonestUnbroken | proofhub/verifier/src/lib.rs:767-786 | an opening with the tree's own path and note exhibits no break, unless its leaf or its root unpacks to zero |
| PoolSafety.CoveredIff | proofhub/pallets/proofs/src/lib.rs:789-800 | some root in the window covers an inserted leaf if and only if it is not in the last slot |
| PoolSafety.LastSlotLost | proofhub/verifier/src/lib.rs:709-744 | no claim ever opens the note in the last slot without exhibiting a break |
| PoolSafety.OnlyCoveredOpens | proofhub/pallets/proofs/src/lib.rs:769-773 | a position that is opened without a break against a root in the window is not the last slot |
| PoolSafety.WithdrawsIff | proofhub/pallets/proofs/src/lib.rs:1428-1459 | some proved withdrawal of a position is accepted if and only if a root in the window opens it, its nullifier is unused and the payout can be made |
| PoolSafety.BuysIff | proofhub/pallets/proofs/src/lib.rs:1350-1396 | some proved purchase with a position passes all checks up to its payout if and only if a root in the window opens it, its nullifier is unused, the price is set, the change leaf is new and a slot is free |
| PoolSafety.Payable | proofhub/pallets/proofs/src/lib.rs:1428-1459 | a note whose nullifier is unused in every spelling can be paid and its nullifier passes, while nothing was burned |
| PoolSafety.WithdrawOpened | proofhub/pallets/proofs/src/lib.rs:1417-1463 | an opened withdrawal against the latest covering root, with an unused nullifier and a payout that can be made, is accepted and paid in full |
| PoolCircuits.HashesCohere | proofhub/runtime/src/configs/mod.rs:403-416 | the Poseidon hashes meet what the pool theorems ask of hashes |
| PoolCircuits.AliasFreeIff | proofhub/verifier/src/lib.rs:625-631 | a stored digest is the only one with its limbs if and only if no limb, reduced, is below 2^128 minus the modulus |
| PoolCircuits.PoolSound | proofhub/pallets/proofs/src/lib.rs:1417-1463 | with the Poseidon hashes and nullifiers outside the gap, every reachable unbroken state has no double spend, is solvent, and covers exactly when nothing was burned |
| PoolCircuits.SpendProvableIffSatisfiable | proofhub/pallets/proofs/src/lib.rs:1367-1379 | what the pallet accepts as provable is exactly what SpendAir is satisfiable for |
| PoolCircuits.DepositProvableIffSatisfiable | proofhub/pallets/proofs/src/lib.rs:1319-1322 | what the pallet accepts as a provable deposit is exactly what DepositV2Air is satisfiable for |
| PoolCircuits.OwnerCanSpend | proofhub/verifier/src/lib.rs:1365-1385 | who knows the opening of an inserted note can open its spend, at its own index, against every root that covers it |
| PoolCircuits.OwnerSpendsIff | proofhub/pallets/proofs/src/lib.rs:769-803 | the owner of an inserted note can open its spend against some root in the window, without exhibiting a break, if and only if the note is not in the last slot |
| PoolCircuits.OwnerWithdrawsIff | proofhub/pallets/proofs/src/lib.rs:1417-1463 | the owner's withdrawal is accepted against some root in the window if and only if the note is not in the last slot, its nullifier is unused and the payout can be made |
| PoolCircuits.OwnerBuysIff | proofhub/pallets/proofs/src/lib.rs:1340-1410 | the owner's purchase passes all checks up to its payout, against some root in the window, if and only if its nullifier is unused, the price is set, the change leaf is new and a slot is free |
| PoolCircuits.OwnerWithdraws | proofhub/pallets/proofs/src/lib.rs:1417-1463 | in place, the owner's withdrawal of an inserted note is accepted and paid in full whenever the note is not in the last slot, its nullifier is unused and the payout can be made |
| PoolCircuits.DepositThenWithdraw | proofhub/pallets/proofs/src/lib.rs:1311-1463 | from any state, a deposited note that does not fill the tree and whose nullifier is unused can be withdrawn at once: its value comes in and goes out |
| PoolCircuits.TwoNotesOneBlinding | proofhub/pallets/proofs/src/lib.rs:1311-1463 | the counterexample: two notes with one blinding are deposited, the first is withdrawn, and the provable and funded withdrawal of the second is refused |

## Left out

- The STARK protocol (FRI, proof bytes, security levels): a library that is not part of this model. Only the constraint systems handed to it are modelled.
- ML-DSA-44 signatures and BLAKE3: the verdict on a signature and the digest of the key enter the pallet calls as parameters, and so do `auth.len()` and the decoding of public inputs.
- DepositCommitAir: its assertions fix only one column of the first row, so equality with `poseidon_hash` does not follow; deposit_v2 replaces it.
- Chains that carry legacy notes from before legacy deposits were disabled: their spend tags let the legacy calls pay out of the shared pool account, so the pool theorems are about chains that started from default storage. The legacy Merkle tree is written but never read by a call, and is not modelled.
- The depositor's own balance, the credited account and account decoding: whether a transfer is otherwise possible is a parameter, while the pool's own balance and its existential deposit are modelled. Gifts to the pool account are not.
- Events, cross-chain messages, transaction validation and weights.
- The u32 width of `leaf_count` and `index`: counts never exceed 2^20, and an index is any natural number of which the path reads the low bits.
- PoolLedger.NoDoubleSpend: conditional on `PoolLedger.Unbroken` and `PoolLedger.Unaliased`. The first names the collisions and zero digests that would have to be on record otherwise; the second is false of the code in general, as `PoolSafety.WithdrawTwice` shows.
- PoolSafety.WithdrawTwice: does not construct a blinding whose nullifier has a second spelling, because the round constants are parameters; it shows what follows from one.
- Proxy filters, governance, origins, genesis, bag thresholds, XCM configuration, the CLI and the scripts: finite tables and plumbing.
