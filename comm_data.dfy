/**
 * Commitment data outside the evaluator: a secret and a persisted payload
 * whose hash3 digest is the commitment. The store it is hashed through
 * remembers each hash3 query and the commitment digests it has interned.
 */
module CommitmentData {
  import opened Wrappers
  import opened Tags
  import opened Arena
  import opened Lang
  import opened Layout
  import Commitments

  /** A secret of one digest width and the payload committed to under it. */
  datatype CommData = CommData(secret: seq<int>, payload: ZVal)

  /** `CommData::new`: keeps the secret and the payload as given. */
  function New(secret: seq<int>, payload: ZVal): (c: CommData)
    requires |secret| == DIGEST_SIZE
    ensures c.secret == secret && c.payload == payload
  {
    CommData(secret, payload)
  }

  /**
   * The parts of a persistent store the commitment layer touches: the
   * hash3 it digests with, the preimage of every digest hash3 has produced,
   * and the commitment digests interned without a preimage.
   */
  class ZStore {
    const hash3: seq<int> -> Row8
    var hashes: map<seq<int>, seq<int>>
    var comms: set<seq<int>>

    constructor (h: seq<int> -> Row8)
      ensures hash3 == h && hashes == map[] && comms == {}
      ensures Valid()
    {
      hash3 := h;
      hashes := map[];
      comms := {};
    }

    /** Every recorded preimage digests, under `hash3`, to the digest it is recorded at. */
    ghost predicate Valid()
      reads this
    {
      forall d :: d in hashes ==> hash3(hashes[d]) == d
    }

    /** `hash3` through the store: the digest, with its preimage remembered. */
    method Hash3(pre: seq<int>) returns (d: seq<int>)
      modifies this
      ensures d == hash3(pre) && |d| == DIGEST_SIZE
      ensures hashes == old(hashes)[d := pre] && comms == old(comms)
      ensures old(Valid()) ==> Valid()
    {
      d := hash3(pre);
      hashes := hashes[d := pre];
    }

    /**
     * `CommData::hash`: fills a 24-element preimage with the secret and
     * then the flattened payload, and digests it.
     */
    method Hash(secret: seq<int>, payload: ZVal) returns (d: seq<int>)
      requires |secret| == DIGEST_SIZE
      modifies this
      ensures d == hash3(Commitments.CommPreimage(secret, payload))
      ensures hashes == old(hashes)[d := Commitments.CommPreimage(secret, payload)] && comms == old(comms)
      ensures old(Valid()) ==> Valid()
    {
      var preimg := new int[Commitments.PREIMAGE_SIZE](_ => 0);
      for i := 0 to DIGEST_SIZE
        modifies preimg
        invariant forall j :: 0 <= j < i ==> preimg[j] == secret[j]
      {
        preimg[i] := secret[i];
      }
      var flat := Flatten(payload);
      for i := DIGEST_SIZE to Commitments.PREIMAGE_SIZE
        modifies preimg
        invariant forall j :: 0 <= j < DIGEST_SIZE ==> preimg[j] == secret[j]
        invariant forall j :: DIGEST_SIZE <= j < i ==> preimg[j] == flat[j - DIGEST_SIZE]
      {
        preimg[i] := flat[i - DIGEST_SIZE];
      }
      assert preimg[..] == Commitments.CommPreimage(secret, payload);
      d := Hash3(preimg[..]);
    }

    /** `compute_digest`: the digest of a commitment's data. */
    method ComputeDigest(c: CommData) returns (d: seq<int>)
      requires |c.secret| == DIGEST_SIZE
      modifies this
      ensures d == hash3(Commitments.CommPreimage(c.secret, c.payload))
      ensures hashes == old(hashes)[d := Commitments.CommPreimage(c.secret, c.payload)] && comms == old(comms)
      ensures old(Valid()) ==> Valid()
    {
      d := Hash(c.secret, c.payload);
    }

    /** `commit`: the commitment as a persistent `Comm` pointer. */
    method Commit(c: CommData) returns (z: ZVal)
      requires |c.secret| == DIGEST_SIZE
      modifies this
      ensures z == ZPtr(Comm, hash3(Commitments.CommPreimage(c.secret, c.payload)))
      ensures hashes == old(hashes)[z.digest := Commitments.CommPreimage(c.secret, c.payload)] && comms == old(comms)
      ensures old(Valid()) ==> Valid()
    {
      var d := ComputeDigest(c);
      z := ZPtr(Comm, d);
    }

    /** `intern_comm`: marks a digest as a commitment whose preimage is not published. */
    method InternComm(d: seq<int>)
      modifies this
      ensures comms == old(comms) + {d} && hashes == old(hashes)
    {
      comms := comms + {d};
    }

    /**
     * `populate_zstore`: interns the commitment's digest in the store (the
     * replay of the payload's dependency graph is not part of this model).
     */
    method PopulateZStore(c: CommData)
      requires |c.secret| == DIGEST_SIZE
      modifies this
      ensures var pre := Commitments.CommPreimage(c.secret, c.payload);
        comms == old(comms) + {hash3(pre)} && hashes == old(hashes)[hash3(pre) := pre]
      ensures old(Valid()) ==> Valid()
    {
      var d := ComputeDigest(c);
      InternComm(d);
    }

    /**
     * Committing through the store agrees with `hide` in the evaluator: for
     * the secret stored at `s`, committing the data `(secret, egress(v))`
     * gives the digest `hide` stores for `v` under `s`, and the store
     * records the preimage the evaluator's memory records for it.
     */
    method CommitHidden(ctx: Ctx, m: Memory, s: Ptr, v: Ptr) returns (z: ZVal)
      requires hash3 == ctx.hash3 && s.tag == BigNum && LoadDigest(m, s.raw).Some?
      modifies this
      ensures var h := Commitments.Hide(ctx, m, s, v);
        h.Ok? && h.out.tag == Comm && LoadDigest(h.mem, h.out.raw) == Some(z.digest) && z.tag == Comm
      ensures var h := Commitments.Hide(ctx, m, s, v);
        z.digest in hashes && Preimg(h.mem, z.digest) == Some(hashes[z.digest])
      ensures hashes == old(hashes)[z.digest := Commitments.CommPreimage(LoadDigest(m, s.raw).value, ctx.egress(v))]
      ensures comms == old(comms)
      ensures old(Valid()) ==> Valid()
    {
      var secret := LoadDigest(m, s.raw).value;
      z := Commit(New(secret, ctx.egress(v)));
    }
  }

  /**
   * The preimage splits back into the secret, in the first digest width,
   * and the payload, readable from the rest by its flat form.
   */
  lemma {:induction false} PreimageSplits(secret: seq<int>, payload: ZVal)
    requires |secret| == DIGEST_SIZE && !IsInternal(payload.tag)
    ensures var pre, z: ZPtr := Commitments.CommPreimage(secret, payload), payload;
      pre[..DIGEST_SIZE] == secret && FromFlat(pre[DIGEST_SIZE..]) == Some(z)
  {
    FlatRoundTrip(payload);
  }

  /** Commitments bind: under a collision-free hash3, equal commitment digests come from equal data. */
  lemma {:induction false} CommitBinding(h: seq<int> -> Row8, a: CommData, b: CommData)
    requires |a.secret| == DIGEST_SIZE && |b.secret| == DIGEST_SIZE && Commitments.Injective(h)
    requires h(Commitments.CommPreimage(a.secret, a.payload)) == h(Commitments.CommPreimage(b.secret, b.payload))
    ensures a == b
  {
    var pa, pb := Commitments.CommPreimage(a.secret, a.payload), Commitments.CommPreimage(b.secret, b.payload);
    assert pa == pb;
    assert a.secret == pa[..DIGEST_SIZE] == pb[..DIGEST_SIZE] == b.secret;
    assert Flatten(a.payload) == pa[DIGEST_SIZE..] == pb[DIGEST_SIZE..] == Flatten(b.payload);
    TagCodeInjective(a.payload.tag, b.payload.tag);
    assert a.payload.digest == Flatten(a.payload)[DIGEST_SIZE..] == b.payload.digest;
  }
}
