/**
 * Hiding commitments. A commitment is the hash3 digest of a 24-element
 * preimage: an 8-element secret, the committed value's tag padded to 8
 * elements, and the value's 8-element digest. Opening a commitment reads
 * that preimage back from the record hash3 keeps of its queries.
 */
module Commitments {
  import opened Wrappers
  import opened Tags
  import opened Arena
  import opened Layout
  import opened Lang

  const PREIMAGE_SIZE: nat := 3 * DIGEST_SIZE

  /** `(secret, tag, [0; 7], digest)`: the hash3 preimage of a commitment to `z` under `secret`. */
  function CommPreimage(secret: seq<int>, z: ZVal): (pre: seq<int>)
    requires |secret| == DIGEST_SIZE
    ensures |pre| == PREIMAGE_SIZE
    ensures pre[..DIGEST_SIZE] == secret && pre[DIGEST_SIZE..] == Flatten(z)
  {
    secret + Flatten(z)
  }

  /** The digest of the commitment to `v` under `secret`. */
  function CommDigest(ctx: Ctx, secret: seq<int>, v: Ptr): (d: seq<int>)
    requires |secret| == DIGEST_SIZE
    ensures |d| == DIGEST_SIZE
  {
    ctx.hash3(CommPreimage(secret, ctx.egress(v)))
  }

  /**
   * Commits to `v` under the secret stored at `secret`: egress `v`, hash the
   * preimage, and store the digest as a `Comm`.
   */
  function Commit(ctx: Ctx, m: Memory, secret: seq<int>, v: Ptr): (r: Run<Ptr>)
    requires |secret| == DIGEST_SIZE
    ensures r.Ok? && r.out.tag == Comm
    ensures LoadDigest(r.mem, r.out.raw) == Some(CommDigest(ctx, secret, v))
    ensures Preimg(r.mem, CommDigest(ctx, secret, v)) == Some(CommPreimage(secret, ctx.egress(v)))
    ensures Grows(ctx.hash3, m, r.mem)
  {
    var pre := CommPreimage(secret, ctx.egress(v));
    var m1 := RecordHash(ctx.hash3, m, pre);
    var s := StoreDigest(m1, ctx.hash3(pre));
    AppendedGrows(ctx.hash3, m1, s.mem);
    Ok(s.mem, Ptr(Comm, s.ptr))
  }

  /** `hide` after its arguments are evaluated: the secret must be a `BigNum`. */
  function Hide(ctx: Ctx, m: Memory, s: Ptr, v: Ptr): (r: Run<Ptr>)
    ensures r.Ok? ==> Grows(ctx.hash3, m, r.mem)
    ensures s.tag != BigNum ==> r == Ok(m, Error(NotBigNum))
    ensures s.tag == BigNum ==> (r.Ok? <==> LoadDigest(m, s.raw).Some?)
    ensures s.tag == BigNum && r.Ok? ==> r == Commit(ctx, m, LoadDigest(m, s.raw).value, v)
  {
    if s.tag != BigNum then Ok(m, Error(NotBigNum))
    else
      match LoadDigest(m, s.raw)
      case None => Halt(Panic)
      case Some(secret) => Commit(ctx, m, secret, v)
  }

  /**
   * The preimage of the commitment digest stored at `p`, split into its
   * secret and its payload; a digest hash3 has not produced aborts.
   */
  function Opened(m: Memory, p: int): (r: Run<(seq<int>, ZPtr)>)
    ensures r.Ok? ==> r.mem == m && |r.out.0| == DIGEST_SIZE && |r.out.1.digest| == DIGEST_SIZE
    ensures r.Ok? ==> LoadDigest(m, p).Some? && Preimg(m, LoadDigest(m, p).value).Some?
    ensures r.Ok? ==>
      var pre := Preimg(m, LoadDigest(m, p).value).value;
      |pre| == PREIMAGE_SIZE && pre[..DIGEST_SIZE] == r.out.0
      && pre[DIGEST_SIZE] == TagCode(r.out.1.tag) && pre[2 * DIGEST_SIZE..] == r.out.1.digest
  {
    match LoadDigest(m, p)
    case None => Halt(Panic)
    case Some(d) =>
      match Preimg(m, d)
      case None => Halt(Panic)
      case Some(pre) =>
        if |pre| != PREIMAGE_SIZE then Halt(Panic)
        else
          match DecodeTag(pre[DIGEST_SIZE])
          case None => Halt(Panic)
          case Some(t) =>
            DecodeTagCode(pre[DIGEST_SIZE]);
            Ok(m, (pre[..DIGEST_SIZE], ZPtr(t, pre[2 * DIGEST_SIZE..])))
  }

  /** `open_comm`: the value a stored commitment digest commits to, through ingress. */
  function OpenComm(ctx: Ctx, m: Memory, c: Ptr): (r: Run<Ptr>)
    ensures r.Ok? ==> r.mem == m
    ensures r.Ok? <==> Opened(m, c.raw).Ok?
    ensures r.Ok? ==> r.out == ctx.ingress(Opened(m, c.raw).out.1)
  {
    var o :- Opened(m, c.raw);
    Ok(m, ctx.ingress(o.out.1))
  }

  /**
   * `eval_opening_unop` after its argument is evaluated. `commit` is a
   * commitment under the all-zero secret; `open` and `secret` read the
   * preimage of a `Comm` or `BigNum` and return its payload or, stored as
   * a `BigNum`, its secret.
   */
  function Opening(ctx: Ctx, m: Memory, op: Prim, v: Ptr): (r: Run<Ptr>)
    requires IsOpeningOp(op)
    ensures r.Ok? ==> Grows(ctx.hash3, m, r.mem)
    ensures op.CommitOp? ==> r == Commit(ctx, m, Zeros(DIGEST_SIZE), v)
    ensures !op.CommitOp? && v.tag != Comm && v.tag != BigNum ==> r == Ok(m, Error(CantOpen))
    ensures op.OpenOp? && (v.tag == Comm || v.tag == BigNum) ==> r == OpenComm(ctx, m, v)
  {
    if op.CommitOp? then Commit(ctx, m, Zeros(DIGEST_SIZE), v)
    else if v.tag == Comm || v.tag == BigNum then
      var o :- Opened(m, v.raw);
      if op.OpenOp? then Ok(m, ctx.ingress(o.out.1))
      else
        var s := StoreDigest(m, o.out.0);
        AppendedGrows(ctx.hash3, m, s.mem);
        Ok(s.mem, Ptr(BigNum, s.ptr))
    else Ok(m, Error(CantOpen))
  }

  /** hash3 is collision-free, the assumption under which commitments bind. */
  ghost predicate Injective(h: seq<int> -> Row8)
  {
    forall x, y :: h(x) == h(y) ==> x == y
  }

  /**
   * Opening a commitment gives back the secret and the committed value, in
   * any memory grown from the one the commitment was made in, as long as
   * that memory's record of hash3 queries is faithful and hash3 is
   * collision-free; `open` then ingresses the persisted value.
   */
  lemma {:induction false} OpenCommit(ctx: Ctx, m: Memory, secret: seq<int>, v: Ptr, m': Memory)
    requires |secret| == DIGEST_SIZE && Injective(ctx.hash3)
    requires Extends(Commit(ctx, m, secret, v).mem, m') && HashesAgree(m', ctx.hash3)
    ensures var c := Commit(ctx, m, secret, v);
      Opened(m', c.out.raw) == Ok(m', (secret, ctx.egress(v)))
      && OpenComm(ctx, m', c.out) == Ok(m', ctx.ingress(ctx.egress(v)))
  {
    var c := Commit(ctx, m, secret, v);
    var z := ctx.egress(v);
    var pre := CommPreimage(secret, z);
    assert ctx.hash3(pre) in c.mem.hashes;
    PreimgAfterHash(ctx.hash3, c.mem, m', pre);
    DigestStable(c.mem, m', c.out.raw);
    assert pre[DIGEST_SIZE] == Flatten(z)[0] == TagCode(z.tag);
    assert pre[2 * DIGEST_SIZE..] == Flatten(z)[DIGEST_SIZE..] == z.digest;
  }

  /**
   * `secret` of a commitment made with a stored secret returns that very
   * secret: in a content-addressed memory the secret's row is found again,
   * so the result is the pointer the secret was read from.
   */
  lemma {:induction false} SecretOfHide(ctx: Ctx, m: Memory, s: Ptr, v: Ptr, m': Memory)
    requires s.tag == BigNum && LoadDigest(m, s.raw).Some? && Injective(ctx.hash3)
    requires Extends(Hide(ctx, m, s, v).mem, m') && HashesAgree(m', ctx.hash3) && Unique(m')
    ensures var c := Hide(ctx, m, s, v);
      c.Ok? && c.out.tag == Comm && Opening(ctx, m', SecretOp, c.out) == Ok(m', s)
  {
    var secret := LoadDigest(m, s.raw).value;
    var c := Commit(ctx, m, secret, v);
    assert Hide(ctx, m, s, v) == c;
    OpenCommit(ctx, m, secret, v, m');
    DigestStable(m, m', s.raw);
    StoreFindsExisting(m', 8, s.raw);
  }
}
