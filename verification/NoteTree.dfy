/** The depth-20 tree of note leaves: the byte tree of the pallet and the limb tree that the circuit
    sees are the same tree. */
module NoteTree {
  import opened Bits
  import opened Encoding
  import opened Poseidon
  import opened Merkle

  const MERKLE_DEPTH: nat := 20

  function ByteHasher<F(!new)>(k: Suite<F>): Hasher<Digest> {
    Hasher(k.NodeHash, ZeroDigest(k.field))
  }

  function LimbHasher<F(!new)>(k: Suite<F>): Hasher<Limbs<F>> {
    Hasher(k.NodeDigest, Limbs(k.field.zero, k.field.zero))
  }

  /** The byte tree unpacks to the limb tree. */
  lemma UnpackCarries<F(!new)>(k: Suite<F>)
    requires k.field.Lawful()
    ensures Carries(ByteHasher(k), LimbHasher(k), k.LimbsOf)
  {
    UnpackPack(k.field, Limbs(k.field.zero, k.field.zero));
    forall l: Digest, r: Digest
      ensures k.LimbsOf(ByteHasher(k).H(l, r)) == LimbHasher(k).H(k.LimbsOf(l), k.LimbsOf(r))
    {
      UnpackPack(k.field, k.NodeDigest(Unpack(k.field, l), Unpack(k.field, r)));
    }
  }

  // A limb collision packs to a collision of `merkle_hash2` on bytes.
  function PackPair<F(!new)>(k: Suite<F>, x: Pair<Limbs<F>>): Pair<Digest> {
    Pair(Pack(k.field, x.left), Pack(k.field, x.right))
  }

  lemma PackedCollision<F(!new)>(k: Suite<F>, x: Pair<Limbs<F>>, y: Pair<Limbs<F>>)
    requires k.field.Lawful()
    requires Genuine(LimbHasher(k), Found(x, y))
    ensures Genuine(ByteHasher(k), Found(PackPair(k, x), PackPair(k, y)))
  {
    UnpackPack(k.field, x.left);
    UnpackPack(k.field, x.right);
    UnpackPack(k.field, y.left);
    UnpackPack(k.field, y.right);
  }

  /** A path that the check accepts against the root of a tree names the leaf at its position up to
      unpacking, or exhibits two unpacked pairs with one node hash. */
  lemma BytePathBinds<F(!new)>(k: Suite<F>, leaves: seq<Digest>, leaf: Digest, index: nat, siblings: seq<Digest>)
    requires k.field.Lawful()
    requires index < Pow2(|siblings|)
    requires Fold(ByteHasher(k), leaf, index, siblings, |siblings|) == Root(ByteHasher(k), leaves, |siblings|)
    ensures k.LimbsOf(leaf) == k.LimbsOf(LeafAt(ByteHasher(k), leaves, index))
         || Genuine(LimbHasher(k), FindCollision(LimbHasher(k), Map(k.LimbsOf, leaves), k.LimbsOf(leaf), index,
                                                 Map(k.LimbsOf, siblings), |siblings|))
  {
    UnpackCarries(k);
    CarriedPathBinds(ByteHasher(k), LimbHasher(k), k.LimbsOf, leaves, leaf, index, siblings);
  }
}
