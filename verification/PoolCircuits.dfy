/** The pool with the Poseidon hashes: what the pallet calls provable is exactly what the two circuits
    can be satisfied for, and the owner of an inserted note always has a satisfying trace. */
module PoolCircuits {
  import opened Bits
  import opened Fields
  import opened Encoding
  import opened Poseidon
  import opened Merkle
  import opened NoteTree
  import opened PoolLedger
  import opened PoolStorage
  import opened ShieldedPool
  import opened PoolSafety
  import SpendAir
  import SpendSoundness
  import SpendTrace
  import SpendCompleteness
  import DepositAir

  function HashesOf<F(!new)>(k: Suite<F>): Hashes<Digest, Limbs<F>> {
    Hashes(ByteHasher(k), LimbHasher(k), k.LimbsOf, k.NoteOf, k.NullifierOf)
  }

  /** Stored digests unpack to what the circuits see. */
  lemma HashesCohere<F(!new)>(k: Suite<F>)
    requires k.field.Lawful()
    ensures HashesOf(k).Coherent()
  {
    UnpackCarries(k);
  }

  /** A stored digest is the only one with its limbs exactly when neither limb, reduced, lies in the gap
      between the modulus and 2^128. */
  lemma AliasFreeIff<F(!new)>(k: Suite<F>, d: Digest)
    requires k.field.Lawful()
    ensures AliasFree(HashesOf(k), d) <==> !Spare(k.field, d[..16]) && !Spare(k.field, d[16..])
  {
    var c := HashesOf(k);
    AliasIff(k.field, d);
    if HasAlias(k.field, d) {
      var e: Digest :| Aliases(k.field, d, e);
      assert c.unpack(e) == c.unpack(d) && e != d;
    }
    if !AliasFree(c, d) {
      var e: Digest :| c.unpack(e) == c.unpack(d) && e != d;
      assert Aliases(k.field, d, e);
    }
  }

  // The public inputs that the pallet hands to the spend verifier.
  function InputsOf(p: Claim<Digest>): SpendAir.SpendInputs {
    SpendAir.SpendInputs(p.root, p.nullifier, p.pkd, p.price, p.changeLeaf, p.changePkd, if p.purchase then 1 else 0)
  }

  function OpeningOf<F>(w: Secret<Limbs<F>>): SpendSoundness.Opening<F> {
    SpendSoundness.Opening(w.v, w.b, w.index, w.siblings, w.cv, w.cb)
  }

  function SecretOf<F>(w: SpendSoundness.Opening<F>): Secret<Limbs<F>> {
    Secret(w.v, w.b, w.index, w.siblings, w.cv, w.cb)
  }

  lemma NoteOfMeans<F(!new)>(k: Suite<F>, n: Note<Limbs<F>>)
    ensures HashesOf(k).NoteOf(n) == NoteDigest(k, k.field.OfInt(n.v), n.b, n.pkd)
  {
  }

  lemma NullifierMeans<F(!new)>(k: Suite<F>, b: Limbs<F>)
    ensures HashesOf(k).nullifier(b) == NullifierDigest(k, b)
  {
  }

  // The hashes of a claim and its secret, in the two vocabularies.
  ghost predicate SameHashes<F(!new)>(k: Suite<F>, c: Hashes<Digest, Limbs<F>>, p: Claim<Digest>, w: Secret<Limbs<F>>) {
    && c.limbs == LimbHasher(k) && c.unpack == k.LimbsOf
    && c.nullifier(w.b) == NullifierDigest(k, w.b)
    && c.NoteOf(Note(w.v, w.b, k.LimbsOf(p.pkd))) == NoteDigest(k, k.field.OfInt(w.v), w.b, k.LimbsOf(p.pkd))
    && c.NoteOf(Note(w.cv, w.cb, k.LimbsOf(p.changePkd)))
       == NoteDigest(k, k.field.OfInt(w.cv), w.cb, k.LimbsOf(p.changePkd))
  }

  lemma ClaimToCircuit<F(!new)>(k: Suite<F>, c: Hashes<Digest, Limbs<F>>, p: Claim<Digest>, w: Secret<Limbs<F>>)
    requires SameHashes(k, c, p, w) && SpendOpens(c, p, w)
    ensures SpendSoundness.Opens(k, InputsOf(p), OpeningOf(w))
  {
  }

  lemma CircuitToClaim<F(!new)>(k: Suite<F>, c: Hashes<Digest, Limbs<F>>, p: Claim<Digest>, w: Secret<Limbs<F>>)
    requires SameHashes(k, c, p, w) && SpendSoundness.Opens(k, InputsOf(p), OpeningOf(w))
    ensures SpendOpens(c, p, w)
  {
  }

  lemma HashesMatch<F(!new)>(k: Suite<F>, p: Claim<Digest>, w: Secret<Limbs<F>>)
    ensures SameHashes(k, HashesOf(k), p, w)
  {
    NullifierMeans(k, w.b);
    NoteOfMeans(k, Note(w.v, w.b, k.LimbsOf(p.pkd)));
    NoteOfMeans(k, Note(w.cv, w.cb, k.LimbsOf(p.changePkd)));
  }

  lemma ClaimOpens<F(!new)>(k: Suite<F>, p: Claim<Digest>)
    requires SpendProvable(HashesOf(k), p)
    ensures SpendCompleteness.Openable(k, InputsOf(p))
  {
    var w :| SpendOpens(HashesOf(k), p, w);
    HashesMatch(k, p, w);
    ClaimToCircuit(k, HashesOf(k), p, w);
  }

  /** The pallet's relation is the one that SpendAir was proved to enforce. */
  lemma ProvableOpens<F(!new)>(k: Suite<F>, p: Claim<Digest>)
    ensures SpendProvable(HashesOf(k), p) <==> SpendCompleteness.Openable(k, InputsOf(p))
  {
    if SpendProvable(HashesOf(k), p) {
      ClaimOpens(k, p);
    }
    if SpendCompleteness.Openable(k, InputsOf(p)) {
      var w :| SpendSoundness.Opens(k, InputsOf(p), w);
      HashesMatch(k, p, SecretOf(w));
      CircuitToClaim(k, HashesOf(k), p, SecretOf(w));
    }
  }

  /** A spend is provable exactly when SpendAir can be satisfied for its public inputs. */
  lemma SpendProvableIffSatisfiable<F(!new)>(k: Suite<F>, p: Claim<Digest>)
    requires k.field.Lawful()
    ensures SpendProvable(HashesOf(k), p) <==> SpendCompleteness.Satisfiable(k, InputsOf(p))
  {
    ProvableOpens(k, p);
    SpendCompleteness.SpendIff(k, InputsOf(p));
  }

  lemma DepositMeaning<F(!new)>(k: Suite<F>, amount: U64, b: Digest, pkd: Digest)
    requires k.field.Lawful()
    ensures HashesOf(k).NoteOf(Note(amount, k.LimbsOf(b), k.LimbsOf(pkd))) == k.LimbsOf(NoteHash(k, amount, b, pkd))
  {
    NoteHashUnpacks(k, amount, b, pkd);
    NoteOfMeans(k, Note(amount, k.LimbsOf(b), k.LimbsOf(pkd)));
  }

  lemma ProvableDeposit<F(!new)>(k: Suite<F>, amount: U64, leaf: Digest)
    requires k.field.Lawful() && DepositProvable(HashesOf(k), amount, leaf)
    ensures DepositAir.Openable(k, DepositAir.DepositInputs(amount, leaf))
  {
    var b, pkd :| DepositOpens(HashesOf(k), amount, leaf, b, pkd);
    UnpackPack(k.field, b);
    UnpackPack(k.field, pkd);
    DepositMeaning(k, amount, Pack(k.field, b), Pack(k.field, pkd));
  }

  lemma OpenDeposits<F(!new)>(k: Suite<F>, amount: U64, leaf: Digest)
    requires k.field.Lawful() && DepositAir.Openable(k, DepositAir.DepositInputs(amount, leaf))
    ensures DepositProvable(HashesOf(k), amount, leaf)
  {
    var b: Digest, pkd: Digest :| k.LimbsOf(NoteHash(k, amount, b, pkd)) == k.LimbsOf(leaf);
    DepositMeaning(k, amount, b, pkd);
    assert DepositOpens(HashesOf(k), amount, leaf, k.LimbsOf(b), k.LimbsOf(pkd));
  }

  /** A deposit is provable exactly when DepositV2Air can be satisfied for its public inputs. */
  lemma DepositProvableIffSatisfiable<F(!new)>(k: Suite<F>, amount: U64, leaf: Digest)
    requires k.field.Lawful()
    ensures DepositProvable(HashesOf(k), amount, leaf)
       <==> DepositAir.Satisfiable(k, DepositAir.DepositInputs(amount, leaf))
  {
    DepositAir.DepositIff(k, DepositAir.DepositInputs(amount, leaf));
    if DepositProvable(HashesOf(k), amount, leaf) {
      ProvableDeposit(k, amount, leaf);
    }
    if DepositAir.Openable(k, DepositAir.DepositInputs(amount, leaf)) {
      OpenDeposits(k, amount, leaf);
    }
  }

  // ----- the pool theorems for these hashes -----

  predicate OutsideGap<F(!new)>(f: Field<F>, d: Digest)
    requires f.modulus > 0
  {
    !Spare(f, d[..16]) && !Spare(f, d[16..])
  }

  /** With the Poseidon hashes, every reachable state that exhibits no break of a hash and whose nullifiers
      all lie outside the gap is sound. */
  lemma PoolSound<F(!new)>(k: Suite<F>, s: Storage<Digest>, h: History<Digest, Limbs<F>>)
    requires k.field.Lawful() && Clean(HashesOf(k), s, h)
    requires forall i :: 0 <= i < |h.spends| ==> OutsideGap(k.field, h.spends[i].nullifier)
    ensures Sound(s, h)
  {
    AllAliasFree(k, h.spends);
    SoundWhenAliasFree(HashesOf(k), s, h);
  }

  lemma AllAliasFree<F(!new)>(k: Suite<F>, ss: seq<Spend<Digest, Limbs<F>>>)
    requires k.field.Lawful()
    requires forall i :: 0 <= i < |ss| ==> OutsideGap(k.field, ss[i].nullifier)
    ensures NullifiersAliasFree(HashesOf(k), ss)
  {
    forall i | 0 <= i < |ss| ensures AliasFree(HashesOf(k), ss[i].nullifier) {
      assert OutsideGap(k.field, ss[i].nullifier);
      AliasFreeIff(k, ss[i].nullifier);
    }
  }

  // ----- what an owner can do -----

  function PathOf<D(!new)>(h: Hasher<D>, leaves: seq<D>, index: nat, depth: nat): (siblings: seq<D>)
    ensures |siblings| == depth && IsPathOf(h, leaves, index, siblings)
  {
    seq(depth, d requires 0 <= d < depth => Node(h, leaves, d, Sibling(Shr(index, d))))
  }

  // The claim of an owner against a root: a withdrawal, or a purchase with change.
  function OwnerClaim<F(!new)>(
    k: Suite<F>, root: Digest, w: SpendTrace.SpendWitness, price: U64, purchase: bool): Claim<Digest>
  {
    Claim(root, NullifierHash(k, w.b), w.pkd, price,
          if purchase then NoteHash(k, w.cv, w.cb, w.cpkd) else SpendCompleteness.ZeroChangeLeaf(k),
          if purchase then w.cpkd else ZeroDigest(k.field),
          purchase)
  }

  // What the owner keeps private.
  function OwnerSecret<F(!new)>(k: Suite<F>, w: SpendTrace.SpendWitness): Secret<Limbs<F>> {
    Secret(w.v, k.LimbsOf(w.b), w.index, Map(k.LimbsOf, w.siblings), w.cv, k.LimbsOf(w.cb))
  }

  // The witness opens the note at its index and its values fit.
  ghost predicate Owns<F(!new)>(
    k: Suite<F>, leaves: seq<Digest>, w: SpendTrace.SpendWitness, price: U64, purchase: bool)
  {
    && w.index < |leaves| && leaves[w.index] == NoteHash(k, w.v, w.b, w.pkd)
    && SpendCompleteness.WitnessFits(w.v, w.cv, price, if purchase then 1 else 0,
                                     SpendCompleteness.NoChange(k, k.LimbsOf(w.cb), k.LimbsOf(w.cpkd)))
  }

  lemma CoveredFolds<D(!new), L(!new)>(c: Hashes<D, L>, leaves: seq<D>, m: nat, index: nat, siblings: seq<D>)
    requires index < m <= |leaves| && m < Pow2(MERKLE_DEPTH)
    requires |siblings| == MERKLE_DEPTH && IsPathOf(c.bytes, leaves[..m], index, siblings)
    ensures Fold(c.bytes, leaves[index], index, siblings, MERKLE_DEPTH) == RootAfter(c, leaves, m)
  {
    EveryLeafProvable(c.bytes, leaves[..m], index, siblings);
    assert leaves[..m][index] == leaves[index];
  }

  lemma OwnerInputs<F(!new)>(k: Suite<F>, root: Digest, w: SpendTrace.SpendWitness, price: U64, purchase: bool)
    requires w.Valid()
    requires Fold(ByteHasher(k), NoteHash(k, w.v, w.b, w.pkd), w.index, w.siblings, MERKLE_DEPTH) == root
    ensures InputsOf(OwnerClaim(k, root, w, price, purchase))
         == SpendCompleteness.ProveInputs(k, w, price, if purchase then 1 else 0)
  {
  }

  lemma FittingClaim<F(!new)>(
    k: Suite<F>, p: Claim<Digest>, w: SpendTrace.SpendWitness, price: U64, mode: nat)
    requires k.field.Lawful() && w.Valid() && w.index < Pow2(MERKLE_DEPTH) && mode in {0, 1}
    requires InputsOf(p) == SpendCompleteness.ProveInputs(k, w, price, mode)
    requires SpendCompleteness.WitnessFits(w.v, w.cv, price, mode,
                                           SpendCompleteness.NoChange(k, k.LimbsOf(w.cb), k.LimbsOf(w.cpkd)))
    ensures SpendOpens(HashesOf(k), p, OwnerSecret(k, w))
  {
    SpendCompleteness.FittingOpens(k, InputsOf(p), w, price, mode);
    HashesMatch(k, p, OwnerSecret(k, w));
    assert SpendCompleteness.OpeningOf(SpendTrace.Unpacked(k, w)) == OpeningOf(OwnerSecret(k, w));
    CircuitToClaim(k, HashesOf(k), p, OwnerSecret(k, w));
  }

  lemma CoveredInputs<F(!new)>(
    k: Suite<F>, leaves: seq<Digest>, m: nat, w: SpendTrace.SpendWitness, price: U64, purchase: bool)
    requires w.Valid() && w.index < m <= |leaves| && m < Pow2(MERKLE_DEPTH)
    requires leaves[w.index] == NoteHash(k, w.v, w.b, w.pkd)
    requires IsPathOf(ByteHasher(k), leaves[..m], w.index, w.siblings)
    ensures InputsOf(OwnerClaim(k, RootAfter(HashesOf(k), leaves, m), w, price, purchase))
         == SpendCompleteness.ProveInputs(k, w, price, if purchase then 1 else 0)
  {
    CoveredFolds(HashesOf(k), leaves, m, w.index, w.siblings);
    OwnerInputs(k, RootAfter(HashesOf(k), leaves, m), w, price, purchase);
  }

  /** Whoever knows the opening of an inserted note can prove its spend, at its own index, against every
      root that covers the note: a withdrawal of its whole value, or a purchase at any price it covers with
      the rest as change. */
  lemma OwnerCanSpend<F(!new)>(
    k: Suite<F>, leaves: seq<Digest>, m: nat, w: SpendTrace.SpendWitness, price: U64, purchase: bool)
    requires k.field.Lawful() && w.Valid() && Owns(k, leaves, w, price, purchase)
    requires w.index < m <= |leaves| && m < Pow2(MERKLE_DEPTH)
    requires IsPathOf(ByteHasher(k), leaves[..m], w.index, w.siblings)
    ensures SpendOpens(HashesOf(k), OwnerClaim(k, RootAfter(HashesOf(k), leaves, m), w, price, purchase),
                       OwnerSecret(k, w))
  {
    CoveredInputs(k, leaves, m, w, price, purchase);
    FittingClaim(k, OwnerClaim(k, RootAfter(HashesOf(k), leaves, m), w, price, purchase), w, price,
                 if purchase then 1 else 0);
  }

  // The claim does not depend on the path.
  lemma SameOwner<F(!new)>(
    k: Suite<F>, leaves: seq<Digest>, w: SpendTrace.SpendWitness, v: SpendTrace.SpendWitness,
    price: U64, purchase: bool, root: Digest)
    requires v == w.(siblings := v.siblings) && Owns(k, leaves, w, price, purchase)
    ensures Owns(k, leaves, v, price, purchase)
    ensures OwnerClaim(k, root, v, price, purchase) == OwnerClaim(k, root, w, price, purchase)
  {
  }

  lemma OwnerPath<F(!new)>(k: Suite<F>, leaves: seq<Digest>, m: nat, w: SpendTrace.SpendWitness)
    requires k.field.Lawful() && w.index < m <= |leaves|
    requires leaves[w.index] == NoteHash(k, w.v, w.b, w.pkd)
    requires IsPathOf(ByteHasher(k), leaves[..m], w.index, w.siblings)
    ensures IsPathOf(HashesOf(k).limbs, Map(HashesOf(k).unpack, leaves[..m]), w.index, OwnerSecret(k, w).siblings)
    ensures HashesOf(k).NoteOf(Note(w.v, k.LimbsOf(w.b), k.LimbsOf(w.pkd))) == k.LimbsOf(leaves[w.index])
  {
    UnpackCarries(k);
    PathCarried(ByteHasher(k), LimbHasher(k), k.LimbsOf, leaves[..m], w.index, w.siblings);
    DepositMeaning(k, w.v, w.b, w.pkd);
  }

  lemma OwnerHonest<F(!new)>(
    k: Suite<F>, leaves: seq<Digest>, m: nat, w: SpendTrace.SpendWitness, price: U64, purchase: bool, root: Digest)
    requires k.field.Lawful() && w.Valid() && Owns(k, leaves, w, price, purchase)
    requires w.index < m <= |leaves| && m < Pow2(MERKLE_DEPTH)
    requires IsPathOf(ByteHasher(k), leaves[..m], w.index, w.siblings)
    ensures HonestAt(HashesOf(k), leaves, OwnerClaim(k, root, w, price, purchase), OwnerSecret(k, w), m)
  {
    OwnerCanSpend(k, leaves, m, w, price, purchase);
    OwnerPath(k, leaves, m, w);
  }

  // The owner has an honest opening against the latest root that covers leaves.
  lemma OwnerAtCover<F(!new)>(
    k: Suite<F>, leaves: seq<Digest>, w: SpendTrace.SpendWitness, price: U64, purchase: bool, root: Digest)
    returns (x: Secret<Limbs<F>>)
    requires k.field.Lawful() && w.Valid() && Owns(k, leaves, w, price, purchase)
    requires |leaves| <= Pow2(MERKLE_DEPTH) && w.index < Pow2(MERKLE_DEPTH) - 1
    ensures HonestAt(HashesOf(k), leaves, OwnerClaim(k, root, w, price, purchase), x, CoverCount(|leaves|))
    ensures x.index == w.index
  {
    var m := CoverCount(|leaves|);
    var v := w.(siblings := PathOf(ByteHasher(k), leaves[..m], w.index, MERKLE_DEPTH));
    CoveredIff(|leaves|, w.index);
    SameOwner(k, leaves, w, v, price, purchase, root);
    OwnerHonest(k, leaves, m, v, price, purchase, root);
    x := OwnerSecret(k, v);
  }

  lemma HonestOpensHere<F(!new)>(k: Suite<F>, leaves: seq<Digest>, p: Claim<Digest>, x: Secret<Limbs<F>>)
    requires k.field.Lawful() && x.index < |leaves| <= Pow2(MERKLE_DEPTH) && x.index < Pow2(MERKLE_DEPTH) - 1
    requires HonestAt(HashesOf(k), leaves, p, x, CoverCount(|leaves|)) && NoZeros(HashesOf(k), leaves, x.index)
    ensures OpensInWindow(HashesOf(k), leaves, p, x.index)
  {
    HashesCohere(k);
    HonestOpens(HashesOf(k), leaves, p, x);
  }

  lemma OnlyCoveredOpensHere<F(!new)>(k: Suite<F>, leaves: seq<Digest>, p: Claim<Digest>, i: nat)
    requires k.field.Lawful() && OpensInWindow(HashesOf(k), leaves, p, i)
    ensures i < Pow2(MERKLE_DEPTH) - 1
  {
    HashesCohere(k);
    OnlyCoveredOpens(HashesOf(k), leaves, p, i);
  }

  /** The owner of an inserted note can open its spend against some accepted root, without exhibiting a
      break, exactly when the note is not in the last slot of the tree. */
  lemma OwnerSpendsIff<F(!new)>(
    k: Suite<F>, leaves: seq<Digest>, w: SpendTrace.SpendWitness, price: U64, purchase: bool, root: Digest)
    requires k.field.Lawful() && w.Valid() && Owns(k, leaves, w, price, purchase)
    requires |leaves| <= Pow2(MERKLE_DEPTH) && NoZeros(HashesOf(k), leaves, w.index)
    ensures OpensInWindow(HashesOf(k), leaves, OwnerClaim(k, root, w, price, purchase), w.index)
       <==> w.index < Pow2(MERKLE_DEPTH) - 1
  {
    if w.index < Pow2(MERKLE_DEPTH) - 1 {
      var x := OwnerAtCover(k, leaves, w, price, purchase, root);
      HonestOpensHere(k, leaves, OwnerClaim(k, root, w, price, purchase), x);
    } else if OpensInWindow(HashesOf(k), leaves, OwnerClaim(k, root, w, price, purchase), w.index) {
      OnlyCoveredOpensHere(k, leaves, OwnerClaim(k, root, w, price, purchase), w.index);
    }
  }

  /** Exactly when an owner's withdrawal is accepted, against some accepted root and without exhibiting a
      break: the note is not in the last slot, its nullifier is unused, and the payout can be made. */
  lemma OwnerWithdrawsIff<F(!new)>(
    k: Suite<F>, leaves: seq<Digest>, s: Storage<Digest>, w: SpendTrace.SpendWitness, to: Payee, root: Digest)
    requires k.field.Lawful() && w.Valid() && Owns(k, leaves, w, w.v, false)
    requires |leaves| <= Pow2(MERKLE_DEPTH) && NoZeros(HashesOf(k), leaves, w.index)
    ensures (exists m: nat, x ::
              WithdrawsAt(HashesOf(k), leaves, s, OwnerClaim(k, root, w, w.v, false), w.index, to, m, x))
       <==> (w.index < Pow2(MERKLE_DEPTH) - 1 && NullifierHash(k, w.b) !in s.nullifiers
             && to.decodes && (w.v == 0 || to.isPool || (s.pool >= w.v && to.credited)))
  {
    OwnerSpendsIff(k, leaves, w, w.v, false, root);
    WithdrawsIff(HashesOf(k), leaves, s, OwnerClaim(k, root, w, w.v, false), w.index, to);
  }

  /** Exactly when an owner's purchase is accepted: the nullifier is unused, the price is set, the change
      note is new, and the tree has a free slot for it. */
  lemma OwnerBuysIff<F(!new)>(
    k: Suite<F>, leaves: seq<Digest>, s: Storage<Digest>, w: SpendTrace.SpendWitness, price: U64, root: Digest)
    requires k.field.Lawful() && w.Valid() && Owns(k, leaves, w, price, true)
    requires |leaves| <= Pow2(MERKLE_DEPTH) && NoZeros(HashesOf(k), leaves, w.index)
    ensures (exists m: nat, x :: BuysAt(HashesOf(k), leaves, s, OwnerClaim(k, root, w, price, true), w.index, m, x))
       <==> (NullifierHash(k, w.b) !in s.nullifiers && price > 0
             && NoteHash(k, w.cv, w.cb, w.cpkd) !in leaves && |leaves| < Pow2(MERKLE_DEPTH))
  {
    OwnerSpendsIff(k, leaves, w, price, true, root);
    BuysIff(HashesOf(k), leaves, s, OwnerClaim(k, root, w, price, true), w.index);
  }

  // ----- an owner's withdrawal, on the pool itself -----

  // The witness of a full withdrawal of note `i` against the root after `m` leaves.
  function WithdrawalWitness<F(!new)>(
    k: Suite<F>, leaves: seq<Digest>, m: nat, i: nat, v: U64, b: Digest, pkd: Digest): SpendTrace.SpendWitness
    requires m <= |leaves|
  {
    SpendTrace.SpendWitness(v, b, pkd, i, PathOf(ByteHasher(k), leaves[..m], i, MERKLE_DEPTH),
                            0, ZeroDigest(k.field), ZeroDigest(k.field))
  }

  // The owner of note `i` opens its withdrawal against the latest root that covers leaves.
  lemma CoverOpens<F(!new)>(k: Suite<F>, leaves: seq<Digest>, i: nat, v: U64, b: Digest, pkd: Digest)
    returns (w: Secret<Limbs<F>>)
    requires k.field.Lawful() && i < |leaves| <= Pow2(MERKLE_DEPTH) && i < Pow2(MERKLE_DEPTH) - 1
    requires leaves[i] == NoteHash(k, v, b, pkd)
    ensures Withdraws(HashesOf(k), SpendCompleteness.ZeroChangeLeaf(k), leaves, NullifierHash(k, b), pkd, v, w)
    ensures w.index == i && w.v == v && w.b == k.LimbsOf(b)
  {
    var m := CoverCount(|leaves|);
    var x := WithdrawalWitness(k, leaves, m, i, v, b, pkd);
    CoveredIff(|leaves|, i);
    SpendCompleteness.ZeroIsNoChange(k);
    OwnerCanSpend(k, leaves, m, x, v, false);
    w := OwnerSecret(k, x);
  }

  // The pool runs with these hashes.
  ghost predicate Uses<F(!new)>(k: Suite<F>, pool: Pool<Digest, Limbs<F>>)
    reads pool
  {
    pool.Valid() && pool.c == HashesOf(k) && pool.zeroChangeLeaf == SpendCompleteness.ZeroChangeLeaf(k)
  }

  /** The owner's withdrawal is accepted and paid in full whenever the note is not in the last slot, its
      nullifier is unused and the payout can be made. */
  method OwnerWithdraws<F(!new)>(
    k: Suite<F>, pool: Pool<Digest, Limbs<F>>, i: nat, v: U64, b: Digest, pkd: Digest, to: Payee)
    returns (r: Outcome)
    requires k.field.Lawful() && Uses(k, pool)
    requires i < |pool.Inserted()| <= Pow2(MERKLE_DEPTH) && i < Pow2(MERKLE_DEPTH) - 1
    requires pool.Inserted()[i] == NoteHash(k, v, b, pkd)
    requires NullifierHash(k, b) !in pool.store.nullifiers && to.decodes && CanPay(pool.store.pool, v, to)
    modifies pool
    ensures Uses(k, pool) && r == Accepted
    ensures PaidOut(old(pool.store), old(pool.history), pool.store, pool.history, NullifierHash(k, b), v, to)
  {
    ghost var w := CoverOpens(k, pool.Inserted(), i, v, b, pkd);
    r := WithdrawOpened(pool, NullifierHash(k, b), pkd, v, to, w);
  }

  lemma NewNoteOpens<F(!new)>(k: Suite<F>, leaves: seq<Digest>, v: U64, b: Digest, pkd: Digest)
    returns (w: Secret<Limbs<F>>)
    requires k.field.Lawful() && |leaves| < Pow2(MERKLE_DEPTH) - 1
    ensures DepositOpens(HashesOf(k), v, NoteHash(k, v, b, pkd), k.LimbsOf(b), k.LimbsOf(pkd))
    ensures Withdraws(HashesOf(k), SpendCompleteness.ZeroChangeLeaf(k), leaves + [NoteHash(k, v, b, pkd)],
                      NullifierHash(k, b), pkd, v, w)
  {
    DepositMeaning(k, v, b, pkd);
    w := CoverOpens(k, leaves + [NoteHash(k, v, b, pkd)], |leaves|, v, b, pkd);
  }

  /** Deposit, then withdraw: a note whose leaf is new, whose nullifier is unused, and which does not fill
      the tree comes in and goes out again, from any state of the pool. */
  method DepositThenWithdraw<F(!new)>(
    k: Suite<F>, pool: Pool<Digest, Limbs<F>>, v: U64, b: Digest, pkd: Digest, to: Payee)
    returns (r: Outcome)
    requires k.field.Lawful() && Uses(k, pool)
    requires |pool.Inserted()| < Pow2(MERKLE_DEPTH) - 1 && NoteHash(k, v, b, pkd) !in pool.Inserted()
    requires NullifierHash(k, b) !in pool.store.nullifiers
    requires pool.store.pool + v >= EXISTENTIAL_DEPOSIT && to.decodes && to.credited
    modifies pool
    ensures Uses(k, pool) && r == Accepted
    ensures CameAndWent(old(pool.store), old(pool.history), pool.store, pool.history, NoteHash(k, v, b, pkd), v, to)
  {
    ghost var w := NewNoteOpens(k, pool.Inserted(), v, b, pkd);
    r := DepositAndWithdraw(
      pool, NoteHash(k, v, b, pkd), NullifierHash(k, b), pkd, v, to, k.LimbsOf(b), k.LimbsOf(pkd), w);
  }

  /** The counterexample to spending every inserted note: two notes with one blinding are both deposited,
      the first is withdrawn, and the second is refused, although it is provable and funded. */
  method TwoNotesOneBlinding<F(!new)>(k: Suite<F>, x: U64, y: U64, b: Digest, pkd: Digest)
    returns (pool: Pool<Digest, Limbs<F>>, first: Outcome, second: Outcome)
    requires k.field.Lawful() && NoteHash(k, x, b, pkd) != NoteHash(k, y, b, pkd)
    requires x >= EXISTENTIAL_DEPOSIT && y >= EXISTENTIAL_DEPOSIT
    ensures fresh(pool) && Uses(k, pool)
    ensures pool.Inserted() == [NoteHash(k, x, b, pkd), NoteHash(k, y, b, pkd)] && pool.store.pool == y
    ensures first == Accepted && second == Refused(NullifierAlreadyUsed)
  {
    var a, a' := NoteHash(k, x, b, pkd), NoteHash(k, y, b, pkd);
    DepositMeaning(k, x, b, pkd);
    DepositMeaning(k, y, b, pkd);
    Pow2Monotone(2, MERKLE_DEPTH);
    ghost var w := CoverOpens(k, [a, a'], 0, x, b, pkd);
    ghost var w' := CoverOpens(k, [a, a'], 1, y, b, pkd);
    pool, first, second := TwoNotesOneNullifier(
      HashesOf(k), SpendCompleteness.ZeroChangeLeaf(k), a, x, a', y, NullifierHash(k, b), pkd,
      k.LimbsOf(b), k.LimbsOf(pkd), w, w');
  }
}
