/**
 * The public values of a Lurk evaluation proof: the flattened expression,
 * the env digest, the flattened result and the 4 little-endian bytes of
 * the evaluation depth, copied into every shard of the machine proof and
 * read back from it. The cryptographic contents of a shard are opaque here.
 */
module Proofs {
  import opened Wrappers
  import opened Tags
  import opened Words

  /** The number of limbs of the depth in the public values. */
  const DEPTH_W: nat := 4
  const PUBLIC_VALUES_SIZE: nat := 2 * ZPTR_SIZE + DIGEST_SIZE + DEPTH_W

  type U32 = x: int | 0 <= x < 0x1_0000_0000

  /** The commitment, opened values, opening proof and chip ordering of a shard, carried as they are. */
  datatype ShardBody = ShardBody(commitment: seq<int>, openedValues: seq<int>, openingProof: seq<int>,
                                 chipOrdering: map<string, nat>)

  /** A shard of a machine proof: its body and the public values it was proved against. */
  datatype ShardProof = ShardProof(body: ShardBody, publicValues: seq<int>)

  datatype MachineProof = MachineProof(shardProofs: seq<ShardProof>)

  /** `CryptoProof`: the shard bodies without their public values, the verifier version and the depth. */
  datatype CryptoProof = CryptoProof(shardProofs: seq<ShardBody>, verifierVersion: string, depth: U32)

  /** `CachedProof` without its dependency graph: the proof and the values it proves about. */
  datatype CachedProof = CachedProof(cryptoProof: CryptoProof, expr: ZVal, env: ZVal, result: ZVal)

  lemma Pow256Depth()
    ensures Pow256(DEPTH_W) == 0x1_0000_0000
  {
    assert Pow256(2) == 65536;
  }

  /** `expr.flatten() ++ env.digest ++ result.flatten() ++ depth.to_le_bytes()`. */
  function PublicValues(expr: ZVal, env: ZVal, result: ZVal, depth: U32): (pv: seq<int>)
    ensures |pv| == PUBLIC_VALUES_SIZE
    ensures pv[..ZPTR_SIZE] == Flatten(expr)
    ensures pv[ZPTR_SIZE..ZPTR_SIZE + DIGEST_SIZE] == env.digest
    ensures pv[ZPTR_SIZE + DIGEST_SIZE..2 * ZPTR_SIZE + DIGEST_SIZE] == Flatten(result)
    ensures var bytes := pv[2 * ZPTR_SIZE + DIGEST_SIZE..];
      AllBytes(bytes) && LeValue(bytes) == depth
  {
    Pow256Depth();
    var bytes := FromUnsigned(depth, DEPTH_W).limbs;
    var pv := Flatten(expr) + env.digest + Flatten(result) + bytes;
    assert pv[2 * ZPTR_SIZE + DIGEST_SIZE..] == bytes;
    assert pv[ZPTR_SIZE + DIGEST_SIZE..2 * ZPTR_SIZE + DIGEST_SIZE] == Flatten(result);
    pv
  }

  /** The machine proof `into_machine_proof` builds: each shard body with the same public values. */
  function MachineProofOf(p: CryptoProof, expr: ZVal, env: ZVal, result: ZVal): (mp: MachineProof)
    ensures |mp.shardProofs| == |p.shardProofs|
    ensures forall i :: 0 <= i < |p.shardProofs| ==>
      mp.shardProofs[i].body == p.shardProofs[i]
      && mp.shardProofs[i].publicValues == PublicValues(expr, env, result, p.depth)
  {
    var pv := PublicValues(expr, env, result, p.depth);
    MachineProof(seq(|p.shardProofs|, i requires 0 <= i < |p.shardProofs| => ShardProof(p.shardProofs[i], pv)))
  }

  /**
   * `into_machine_proof`: the public values are built by extending an
   * empty vector, then every shard body is paired with a copy of them.
   */
  method IntoMachineProof(p: CryptoProof, expr: ZVal, env: ZVal, result: ZVal) returns (mp: MachineProof)
    ensures mp == MachineProofOf(p, expr, env, result)
  {
    Pow256Depth();
    var publicValues: seq<int> := [];
    publicValues := publicValues + Flatten(expr);
    publicValues := publicValues + env.digest;
    publicValues := publicValues + Flatten(result);
    publicValues := publicValues + FromUnsigned(p.depth, DEPTH_W).limbs;
    assert publicValues == PublicValues(expr, env, result, p.depth);
    var shards: seq<ShardProof> := [];
    for i := 0 to |p.shardProofs|
      invariant |shards| == i
      invariant forall j :: 0 <= j < i ==> shards[j] == ShardProof(p.shardProofs[j], publicValues)
    {
      shards := shards + [ShardProof(p.shardProofs[i], publicValues)];
    }
    mp := MachineProof(shards);
  }

  /** Every shard carries the same public values. */
  predicate SameValues(shards: seq<ShardProof>, pv: seq<int>)
  {
    forall i :: 0 <= i < |shards| ==> shards[i].publicValues == pv
  }

  /**
   * `From<MachineProof>`: the shard bodies, the verifier version of the
   * build, and the depth decoded from the last 4 public values. No shard,
   * shards with differing public values, fewer than 4 public values or a
   * depth limb above 255 abort (`None`).
   */
  function FromMachineProof(mp: MachineProof, build: string): (r: Option<CryptoProof>)
    ensures r.Some? <==> (|mp.shardProofs| > 0
      && SameValues(mp.shardProofs, mp.shardProofs[0].publicValues)
      && |mp.shardProofs[0].publicValues| >= DEPTH_W
      && AllBytes(mp.shardProofs[0].publicValues[|mp.shardProofs[0].publicValues| - DEPTH_W..]))
    ensures r.Some? ==> var pv := mp.shardProofs[0].publicValues;
      r.value.verifierVersion == build
      && r.value.depth == LeValue(pv[|pv| - DEPTH_W..])
      && |r.value.shardProofs| == |mp.shardProofs|
      && forall i :: 0 <= i < |mp.shardProofs| ==> r.value.shardProofs[i] == mp.shardProofs[i].body
  {
    if |mp.shardProofs| == 0 then None
    else
      var pv := mp.shardProofs[0].publicValues;
      if !SameValues(mp.shardProofs, pv) || |pv| < DEPTH_W then None
      else
        var bytes := pv[|pv| - DEPTH_W..];
        if !AllBytes(bytes) then None
        else
          LeValueBound(bytes);
          Pow256Depth();
          var bodies := seq(|mp.shardProofs|, i requires 0 <= i < |mp.shardProofs| => mp.shardProofs[i].body);
          Some(CryptoProof(bodies, build, LeValue(bytes)))
  }

  /** `has_same_verifier_version`: the proof's version is the build's. */
  predicate HasSameVerifierVersion(p: CryptoProof, build: string)
  {
    p.verifierVersion == build
  }

  /**
   * `CachedProof::new`: splits the public values into the expression, the
   * env digest (tagged `Env`) and the result. Too few values, or a flat
   * pointer whose tag is not a persisted one, abort.
   */
  function CachedProofNew(p: CryptoProof, pv: seq<int>): (r: Option<CachedProof>)
    ensures r.Some? <==> (|pv| >= 2 * ZPTR_SIZE + DIGEST_SIZE && FromFlat(pv[..ZPTR_SIZE]).Some?
      && FromFlat(pv[ZPTR_SIZE + DIGEST_SIZE..2 * ZPTR_SIZE + DIGEST_SIZE]).Some?)
    ensures r.Some? ==> (r.value.cryptoProof == p
      && r.value.expr.digest == pv[DIGEST_SIZE..ZPTR_SIZE] && TagCode(r.value.expr.tag) == pv[0]
      && r.value.env == ZPtr(Env, pv[ZPTR_SIZE..ZPTR_SIZE + DIGEST_SIZE])
      && r.value.result.digest == pv[ZPTR_SIZE + 2 * DIGEST_SIZE..2 * ZPTR_SIZE + DIGEST_SIZE]
      && TagCode(r.value.result.tag) == pv[ZPTR_SIZE + DIGEST_SIZE])
  {
    if |pv| < 2 * ZPTR_SIZE + DIGEST_SIZE then None
    else
      match (FromFlat(pv[..ZPTR_SIZE]), FromFlat(pv[ZPTR_SIZE + DIGEST_SIZE..2 * ZPTR_SIZE + DIGEST_SIZE]))
      case (Some(e), Some(res)) =>
        Some(CachedProof(p, e, ZPtr(Env, pv[ZPTR_SIZE..ZPTR_SIZE + DIGEST_SIZE]), res))
      case _ => None
  }

  /** `CachedProof::into_machine_proof`. */
  method CachedIntoMachineProof(c: CachedProof) returns (mp: MachineProof)
    ensures mp == MachineProofOf(c.cryptoProof, c.expr, c.env, c.result)
  {
    mp := IntoMachineProof(c.cryptoProof, c.expr, c.env, c.result);
  }

  /**
   * The round trip through a machine proof: a proof with at least one
   * shard comes back with the same shards and depth and the build's
   * version; a proof without shards aborts.
   */
  lemma {:induction false} MachineRoundTrip(p: CryptoProof, expr: ZVal, env: ZVal, result: ZVal, build: string)
    ensures |p.shardProofs| > 0 ==>
      FromMachineProof(MachineProofOf(p, expr, env, result), build) == Some(p.(verifierVersion := build))
    ensures |p.shardProofs| == 0 ==> FromMachineProof(MachineProofOf(p, expr, env, result), build) == None
  {
    var mp := MachineProofOf(p, expr, env, result);
    if |p.shardProofs| > 0 {
      var pv := PublicValues(expr, env, result, p.depth);
      assert mp.shardProofs[0].publicValues == pv;
      assert SameValues(mp.shardProofs, pv);
      assert pv[|pv| - DEPTH_W..] == pv[2 * ZPTR_SIZE + DIGEST_SIZE..];
      var r := FromMachineProof(mp, build).value;
      assert r.shardProofs == p.shardProofs;
    }
  }

  /**
   * A proof read back from a machine proof passes the version check of the
   * same build, and of no other build.
   */
  lemma FromMachineVersion(mp: MachineProof, build: string)
    requires FromMachineProof(mp, build).Some?
    ensures HasSameVerifierVersion(FromMachineProof(mp, build).value, build)
    ensures forall other :: other != build ==> !HasSameVerifierVersion(FromMachineProof(mp, build).value, other)
  {
  }

  /**
   * `CachedProof::new` inverts the layout: from the public values of
   * `(expr, env, result)` it recovers `expr`, `result` and the env digest,
   * retagged `Env`, whenever the two pointers have persisted tags.
   */
  lemma {:induction false} CachedRoundTrip(p: CryptoProof, expr: ZVal, env: ZVal, result: ZVal, depth: U32)
    requires !IsInternal(expr.tag) && !IsInternal(result.tag)
    ensures CachedProofNew(p, PublicValues(expr, env, result, depth))
      == Some(CachedProof(p, expr, ZPtr(Env, env.digest), result))
  {
    var pv := PublicValues(expr, env, result, depth);
    FlatRoundTrip(expr);
    FlatRoundTrip(result);
    assert pv[..ZPTR_SIZE] == Flatten(expr);
    assert pv[ZPTR_SIZE + DIGEST_SIZE..2 * ZPTR_SIZE + DIGEST_SIZE] == Flatten(result);
  }

  /**
   * Caching and re-proving agree: a cached proof built from the public
   * values of an env pointer's proof gives back the same machine proof.
   */
  lemma {:induction false} CachedReprove(p: CryptoProof, expr: ZVal, env: ZVal, result: ZVal)
    requires !IsInternal(expr.tag) && !IsInternal(result.tag) && env.tag == Env
    ensures var c := CachedProofNew(p, PublicValues(expr, env, result, p.depth));
      c.Some? && MachineProofOf(c.value.cryptoProof, c.value.expr, c.value.env, c.value.result)
        == MachineProofOf(p, expr, env, result)
  {
    CachedRoundTrip(p, expr, env, result, p.depth);
  }
}
