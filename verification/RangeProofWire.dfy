/** The wire framing that `verify_range_proof` reads before it hands the two proofs to the verifier. */
module RangeProofWire {
  import opened Bits
  import opened Encoding

  /** A deposit proof before framing: the range proof, the public value, the commitment proof. */
  datatype Parts = Parts(range: seq<Byte>, value: U64, commit: seq<Byte>)
  {
    // The two lengths are written as u32.
    predicate Fits() {
      |range| < 0x1_0000_0000 && |commit| < 0x1_0000_0000
    }
  }

  function Serialize(p: Parts): seq<Byte> {
    [1] + ToLe(|p.range|, 4) + p.range + ToLe(p.value, 8) + ToLe(|p.commit|, 4) + p.commit
  }

  /** The input begins with the framing of `p`; whatever follows is ignored. */
  ghost predicate Frames(input: seq<Byte>, p: Parts) {
    p.Fits() && Serialize(p) <= input
  }

  lemma FromLeSmall(s: seq<Byte>)
    ensures |s| == 4 ==> FromLe(s) < 0x1_0000_0000
    ensures |s| == 8 ==> FromLe(s) < U64_BOUND
  {
    LeBounds();
    FromLeBounded(s);
  }

  lemma ToLeReads(n: nat, len: nat)
    requires (len == 4 && n < 0x1_0000_0000) || (len == 8 && n < U64_BOUND)
    ensures FromLe(ToLe(n, len)) == n
  {
    LeBounds();
    FromToLe(n, len);
  }

  // Where the fields of a framed input lie.
  lemma FieldsOf(input: seq<Byte>, p: Parts)
    requires Frames(input, p)
    ensures
      var a := 5 + |p.range|;
      && a + 12 + |p.commit| <= |input|
      && input[0] == 1
      && input[1..5] == ToLe(|p.range|, 4)
      && input[5..a] == p.range
      && input[a..a + 8] == ToLe(p.value, 8)
      && input[a + 8..a + 12] == ToLe(|p.commit|, 4)
      && input[a + 12..a + 12 + |p.commit|] == p.commit
  {
    var s, a := Serialize(p), 5 + |p.range|;
    assert |s| == a + 12 + |p.commit| && s == input[..|s|];
    assert s[1..5] == ToLe(|p.range|, 4) && s[5..a] == p.range && s[a..a + 8] == ToLe(p.value, 8);
    assert s[a + 8..a + 12] == ToLe(|p.commit|, 4) && s[a + 12..] == p.commit;
  }

  // Bytes that agree with a framing field by field begin with it.
  lemma FramesBack(input: seq<Byte>, p: Parts)
    requires p.Fits()
    requires
      var a := 5 + |p.range|;
      && a + 12 + |p.commit| <= |input|
      && input[0] == 1
      && input[1..5] == ToLe(|p.range|, 4)
      && input[5..a] == p.range
      && input[a..a + 8] == ToLe(p.value, 8)
      && input[a + 8..a + 12] == ToLe(|p.commit|, 4)
      && input[a + 12..a + 12 + |p.commit|] == p.commit
    ensures Frames(input, p)
  {
    var a := 5 + |p.range|;
    assert input[..a + 12 + |p.commit|]
        == [input[0]] + input[1..5] + input[5..a] + input[a..a + 8] + input[a + 8..a + 12]
         + input[a + 12..a + 12 + |p.commit|];
  }

  /** An input frames at most one triple of parts. */
  lemma FramesUnique(input: seq<Byte>, p: Parts, q: Parts)
    requires Frames(input, p) && Frames(input, q)
    ensures p == q
  {
    FieldsOf(input, p);
    FieldsOf(input, q);
    ToLeReads(|p.range|, 4);
    ToLeReads(|q.range|, 4);
    ToLeReads(p.value, 8);
    ToLeReads(q.value, 8);
    ToLeReads(|p.commit|, 4);
    ToLeReads(|q.commit|, 4);
  }

  /** `verify_range_proof`: true exactly when the input frames parts whose two proofs verify. The
      offsets are unbounded here, as on a usize that cannot wrap. */
  method VerifyRangeProof(
    input: seq<Byte>, verifyRange: (seq<Byte>, U64) -> bool, verifyCommit: (seq<Byte>, U64) -> bool)
    returns (ok: bool)
    ensures ok <==> exists p :: Frames(input, p) && verifyRange(p.range, p.value) && verifyCommit(p.commit, p.value)
  {
    forall p | Frames(input, p) ensures 17 + |p.range| + |p.commit| <= |input| && input[0] == 1 { FieldsOf(input, p); }
    if input == [] {
      return false;
    }
    if input[0] != 1 {
      return false;
    }
    var off := 1;
    if off + 4 > |input| {
      return false;
    }
    var rlen := FromLe(input[off..off + 4]);
    off := off + 4;
    forall p | Frames(input, p) ensures |p.range| == rlen { FieldsOf(input, p); ToLeReads(|p.range|, 4); }
    if off + rlen > |input| {
      return false;
    }
    var range := input[off..off + rlen];
    off := off + rlen;
    if off + 8 > |input| {
      return false;
    }
    FromLeSmall(input[off..off + 8]);
    var value: U64 := FromLe(input[off..off + 8]);
    off := off + 8;
    if off + 4 > |input| {
      return false;
    }
    var clen := FromLe(input[off..off + 4]);
    off := off + 4;
    forall p | Frames(input, p) ensures |p.commit| == clen { FieldsOf(input, p); ToLeReads(|p.commit|, 4); }
    if off + clen > |input| {
      return false;
    }
    var commit := input[off..off + clen];
    ghost var parsed := Parts(range, value, commit);
    Reframes(input, parsed);
    forall p | Frames(input, p) ensures p == parsed { FramesUnique(input, p, parsed); }
    if !verifyRange(range, value) {
      return false;
    }
    if !verifyCommit(commit, value) {
      return false;
    }
    ok := true;
  }

  // Re-serialising what the offsets picked out gives a prefix of the input.
  lemma Reframes(input: seq<Byte>, p: Parts)
    requires
      var a := 5 + |p.range|;
      && a + 12 + |p.commit| <= |input|
      && input[0] == 1
      && |p.range| == FromLe(input[1..5])
      && p.range == input[5..a]
      && p.value == FromLe(input[a..a + 8])
      && |p.commit| == FromLe(input[a + 8..a + 12])
      && p.commit == input[a + 12..a + 12 + |p.commit|]
    ensures Frames(input, p)
  {
    var a := 5 + |p.range|;
    FromLeSmall(input[1..5]);
    FromLeSmall(input[a + 8..a + 12]);
    ToFromLe(input[1..5]);
    ToFromLe(input[a..a + 8]);
    ToFromLe(input[a + 8..a + 12]);
    FramesBack(input, p);
  }
}
