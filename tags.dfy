/**
 * Lurk's value tags, evaluation errors and the two pointer forms: the
 * evaluator's `(tag, ptr)` pair, whose pointer indexes the memory, and the
 * persistent `ZPtr`, whose digest is a hash of the value.
 */
module Tags {
  import opened Wrappers

  /**
   * The persisted tags, followed by the two internal tags `Nil` and `T` that
   * the evaluator uses for `nil` and `t` and that are never persisted.
   */
  datatype Tag =
    | Num | U64 | Char | Str | Key | Sym | Builtin | Coroutine
    | Cons | Fun | Fix | Env | Comm | BigNum | Err
    | Nil | T

  predicate IsInternal(t: Tag) { t == Nil || t == T }

  /** Tags whose values may be bound as variables. */
  predicate SymLike(t: Tag) { t == Sym || t == Builtin || t == Coroutine }

  /** The field encoding of a tag (the concrete numbering lives in tag.rs). */
  function TagCode(t: Tag): (c: int)
    ensures 0 <= c < 17
    ensures DecodeTag(c) == Some(t)
  {
    match t
    case Num => 0 case U64 => 1 case Char => 2 case Str => 3 case Key => 4
    case Sym => 5 case Builtin => 6 case Coroutine => 7 case Cons => 8
    case Fun => 9 case Fix => 10 case Env => 11 case Comm => 12 case BigNum => 13
    case Err => 14 case Nil => 15 case T => 16
  }

  function DecodeTag(c: int): Option<Tag>
  {
    if c == 0 then Some(Num) else if c == 1 then Some(U64)
    else if c == 2 then Some(Char) else if c == 3 then Some(Str)
    else if c == 4 then Some(Key) else if c == 5 then Some(Sym)
    else if c == 6 then Some(Builtin) else if c == 7 then Some(Coroutine)
    else if c == 8 then Some(Cons) else if c == 9 then Some(Fun)
    else if c == 10 then Some(Fix) else if c == 11 then Some(Env)
    else if c == 12 then Some(Comm) else if c == 13 then Some(BigNum)
    else if c == 14 then Some(Err) else if c == 15 then Some(Nil)
    else if c == 16 then Some(T) else None
  }

  /** Decoding inverts the encoding: a code that decodes is the code of its tag. */
  lemma DecodeTagCode(c: int)
    ensures DecodeTag(c).Some? ==> TagCode(DecodeTag(c).value) == c
  {
  }

  /** Distinct tags have distinct codes; the internal codes are not codes of persisted tags. */
  lemma TagCodeInjective(a: Tag, b: Tag)
    ensures TagCode(a) == TagCode(b) ==> a == b
  {
    assert DecodeTag(TagCode(a)) == Some(a);
  }

  /** The evaluator's errors; an error value is the pair `(Err, ErrCode(kind))`. */
  datatype ErrKind =
    | InvalidForm | IllegalBindingVar | NotCons | NotEnv | NotBigNum
    | NotChar | NotString | NotU64 | DivByZero | InvalidArg
    | ApplyNonFunc | ParamsNotList | ArgsNotList | ParamInvalidRest
    | CantCastToU64 | CantCastToChar | CantCastToBigNum | CantCastToComm
    | CantOpen | UnboundVar

  /** The field encoding of an error (the concrete numbering lives in error.rs). */
  function ErrCode(k: ErrKind): (c: int)
    ensures 0 <= c < 20
  {
    match k
    case InvalidForm => 0 case IllegalBindingVar => 1 case NotCons => 2
    case NotEnv => 3 case NotBigNum => 4 case NotChar => 5 case NotString => 6
    case NotU64 => 7 case DivByZero => 8 case InvalidArg => 9
    case ApplyNonFunc => 10 case ParamsNotList => 11 case ArgsNotList => 12
    case ParamInvalidRest => 13 case CantCastToU64 => 14 case CantCastToChar => 15
    case CantCastToBigNum => 16 case CantCastToComm => 17 case CantOpen => 18
    case UnboundVar => 19
  }

  /** An evaluator value: a tag and a field element that is a memory pointer or an immediate. */
  datatype Ptr = Ptr(tag: Tag, raw: int)

  function Error(k: ErrKind): (p: Ptr)
    ensures p.tag == Err
  {
    Ptr(Err, ErrCode(k))
  }

  lemma ErrorInjective(a: ErrKind, b: ErrKind)
    ensures Error(a) == Error(b) ==> a == b
  {
  }

  const DIGEST_SIZE: nat := 8
  const ZPTR_SIZE: nat := 16

  /** A persistent pointer: a tag and the digest of the value. */
  datatype ZPtr = ZPtr(tag: Tag, digest: seq<int>)

  /** A `ZPtr` whose digest has the full width, as `egress` produces them. */
  type ZVal = z: ZPtr | |z.digest| == DIGEST_SIZE witness ZPtr(Num, [0, 0, 0, 0, 0, 0, 0, 0])

  function Zeros(n: nat): (z: seq<int>)
    ensures |z| == n && forall i :: 0 <= i < n ==> z[i] == 0
  {
    seq(n, _ => 0)
  }

  /** A tag padded to a full digest-width word, as `(tag, [0; 7])`. */
  function FullTag(t: Tag): (w: seq<int>)
    ensures |w| == DIGEST_SIZE && w[0] == TagCode(t) && w[1..] == Zeros(7)
  {
    [TagCode(t)] + Zeros(7)
  }

  /** The 16-element flat form of a `ZPtr`: its full tag followed by its digest. */
  function Flatten(z: ZPtr): (f: seq<int>)
    requires |z.digest| == DIGEST_SIZE
    ensures |f| == ZPTR_SIZE && f[..DIGEST_SIZE] == FullTag(z.tag) && f[DIGEST_SIZE..] == z.digest
  {
    FullTag(z.tag) + z.digest
  }

  /**
   * Reads a `ZPtr` back from its flat form. Only persisted tags are accepted;
   * the padding of the tag word is not inspected.
   */
  function FromFlat(data: seq<int>): (r: Option<ZPtr>)
    requires |data| == ZPTR_SIZE
    ensures r.Some? ==> !IsInternal(r.value.tag) && TagCode(r.value.tag) == data[0]
    ensures r.Some? ==> r.value.digest == data[DIGEST_SIZE..]
  {
    match DecodeTag(data[0])
    case Some(t) => if IsInternal(t) then None else Some(ZPtr(t, data[DIGEST_SIZE..]))
    case None => None
  }

  /** Flattening and reading back are inverse for every persisted `ZPtr`. */
  lemma FlatRoundTrip(z: ZPtr)
    requires |z.digest| == DIGEST_SIZE && !IsInternal(z.tag)
    ensures FromFlat(Flatten(z)) == Some(z)
  {
    assert Flatten(z)[0] == TagCode(z.tag);
  }
}
