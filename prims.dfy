/**
 * The evaluator's operators applied to already evaluated values: the
 * numeric binary operators of `eval_binop_num` and the casts of `eval_unop`.
 * Field elements (`Num`) are immediate; 64-bit words (`U64`) are stored as
 * 8 little-endian bytes; big numbers (`BigNum`) and commitments (`Comm`)
 * are stored as 8-element digests; characters (`Char`) as 4 bytes.
 */
module Prims {
  import opened Wrappers
  import opened Tags
  import opened Arena
  import opened Layout
  import opened Words
  import opened Lang
  import Field

  const U64_MOD: nat := Pow256(WORD64_SIZE)

  /** Stores the 64-bit word `u mod 2^64` as its 8 little-endian bytes. */
  function StoreU64(m: Memory, u: int): (r: Stored)
    ensures r.ptr >= 1 && Appended(m, r.mem)
    ensures LoadDigest(r.mem, r.ptr).Some?
    ensures AllBytes(LoadDigest(r.mem, r.ptr).value) && LeValue(LoadDigest(r.mem, r.ptr).value) == u % U64_MOD
  {
    StoreDigest(m, FromUnsigned(u % U64_MOD, WORD64_SIZE).limbs)
  }

  /**
   * `u64_add`, `u64_sub`, `u64_mul`, `u64_divrem`, `u64_lessthan` and
   * `digest_equal` on two stored words: arithmetic wraps modulo 2^64 and
   * dividing by zero is the error `DivByZero`. The divisor is checked
   * before the dividend is read.
   */
  function U64Binop(ctx: Ctx, m: Memory, op: Prim, a: int, b: int): (r: Run<Ptr>)
    requires IsNumOp(op)
    ensures r.Ok? ==> Appended(m, r.mem)
    ensures r.Ok? && r.out.tag == U64 ==> LoadDigest(r.mem, r.out.raw).Some?
    ensures r.Ok? ==> r.out.tag in {U64, Nil, T} || r.out == Error(DivByZero)
  {
    match LoadDigest(m, b)
    case None => Halt(Panic)
    case Some(y) =>
      if (op.DivOp? || op.ModOp?) && LeValue(y) == 0 then Ok(m, Error(DivByZero))
      else
        match LoadDigest(m, a)
        case None => Halt(Panic)
        case Some(x) => U64Words(ctx, m, op, x, y)
  }

  /** The operator applied to the two loaded words `x` and `y`. */
  function U64Words(ctx: Ctx, m: Memory, op: Prim, x: seq<int>, y: seq<int>): (r: Run<Ptr>)
    requires IsNumOp(op) && ((op.DivOp? || op.ModOp?) ==> LeValue(y) != 0)
    ensures r.Ok? && Appended(m, r.mem)
    ensures r.out.tag == U64 ==> LoadDigest(r.mem, r.out.raw).Some?
    ensures r.out.tag in {U64, Nil, T}
  {
    var u, v := LeValue(x), LeValue(y);
    match op
    case AddOp => var s := StoreU64(m, u + v); Ok(s.mem, Ptr(U64, s.ptr))
    case SubOp => var s := StoreU64(m, u - v); Ok(s.mem, Ptr(U64, s.ptr))
    case MulOp => var s := StoreU64(m, u * v); Ok(s.mem, Ptr(U64, s.ptr))
    case DivOp => DivRem(m, u, v, true)
    case ModOp => DivRem(m, u, v, false)
    case LtOp => Ok(m, Bool(ctx, u < v))
    case GeOp => Ok(m, Bool(ctx, !(u < v)))
    case GtOp => Ok(m, Bool(ctx, v < u))
    case LeOp => Ok(m, Bool(ctx, !(v < u)))
    case NumEqOp => Ok(m, Bool(ctx, x == y))
  }

  /**
   * `u64_divrem`: both the quotient and the remainder are stored, quotient
   * first; `/` returns the quotient and `%` the remainder.
   */
  function DivRem(m: Memory, u: int, v: int, quotient: bool): (r: Run<Ptr>)
    requires v != 0
    ensures r.Ok? && Appended(m, r.mem) && r.out.tag == U64
    ensures LoadDigest(r.mem, r.out.raw).Some? && AllBytes(LoadDigest(r.mem, r.out.raw).value)
    ensures LeValue(LoadDigest(r.mem, r.out.raw).value) == (if quotient then u / v else u % v) % U64_MOD
  {
    var q := StoreU64(m, u / v);
    var s := StoreU64(q.mem, u % v);
    AppendedTrans(m, q.mem, s.mem);
    DigestStable(q.mem, s.mem, q.ptr);
    Ok(s.mem, Ptr(U64, if quotient then q.ptr else s.ptr))
  }

  /**
   * Field arithmetic on two `Num` values: `/` by zero is `DivByZero`, `=`
   * compares the field elements, and the orderings and `%` are `NotU64`.
   */
  function FieldBinop(ctx: Ctx, op: Prim, a: int, b: int): (p: Ptr)
    requires IsNumOp(op)
    ensures p.tag == Num ==> 0 <= p.raw < Field.P
    ensures p.tag in {Num, Nil, T, Err}
  {
    match op
    case AddOp => Ptr(Num, Field.Add(a, b))
    case SubOp => Ptr(Num, Field.Sub(a, b))
    case MulOp => Ptr(Num, Field.Mul(a, b))
    case DivOp => if Field.IsZero(b) then Error(DivByZero) else Ptr(Num, Field.Div(a, b))
    case NumEqOp => Bool(ctx, Field.Sub(a, b) == 0)
    case _ => Error(NotU64)
  }

  /**
   * Big numbers only compare: the orderings use `big_num_lessthan` on the
   * two stored digests, `=` compares the digests, and arithmetic is `InvalidArg`.
   */
  function BigNumBinop(ctx: Ctx, m: Memory, op: Prim, a: int, b: int): (r: Run<Ptr>)
    requires IsNumOp(op)
    ensures r.Ok? ==> r.mem == m && r.out.tag in {Nil, T, Err}
    ensures (op.AddOp? || op.SubOp? || op.MulOp? || op.DivOp? || op.ModOp?) ==> r == Ok(m, Error(InvalidArg))
  {
    if op.AddOp? || op.SubOp? || op.MulOp? || op.DivOp? || op.ModOp? then Ok(m, Error(InvalidArg))
    else
      match (LoadDigest(m, a), LoadDigest(m, b))
      case (Some(x), Some(y)) =>
        (match op
         case LtOp => Ok(m, Bool(ctx, ctx.bigNumLess(x, y)))
         case GeOp => Ok(m, Bool(ctx, !ctx.bigNumLess(x, y)))
         case GtOp => Ok(m, Bool(ctx, ctx.bigNumLess(y, x)))
         case LeOp => Ok(m, Bool(ctx, !ctx.bigNumLess(y, x)))
         case _ => Ok(m, Bool(ctx, y == x)))
      case _ => Halt(Panic)
  }

  /** `eval_binop_num` after both operands are evaluated: the operator by operand types. */
  function NumOp(ctx: Ctx, m: Memory, op: Prim, v1: Ptr, v2: Ptr): (r: Run<Ptr>)
    requires IsNumOp(op)
    ensures r.Ok? ==> Appended(m, r.mem)
    ensures !((v1.tag == U64 && v2.tag == U64) || (v1.tag == Num && v2.tag == Num) || (v1.tag == BigNum && v2.tag == BigNum))
      ==> r == Ok(m, Error(InvalidArg))
  {
    if v1.tag == U64 && v2.tag == U64 then U64Binop(ctx, m, op, v1.raw, v2.raw)
    else if v1.tag == Num && v2.tag == Num then Ok(m, FieldBinop(ctx, op, v1.raw, v2.raw))
    else if v1.tag == BigNum && v2.tag == BigNum then BigNumBinop(ctx, m, op, v1.raw, v2.raw)
    else Ok(m, Error(InvalidArg))
  }

  /**
   * `eval_unop` after its argument is evaluated. `atom` is true of every
   * non-`Cons`; `emit` passes its value through; `u64` and `char` convert
   * between a character's 4 bytes and a word's low 4 bytes; `bignum` and
   * `comm` retag a stored digest.
   */
  function Unop(ctx: Ctx, m: Memory, op: Prim, v: Ptr): (r: Run<Ptr>)
    requires IsUnop(op)
    ensures r.Ok? ==> Appended(m, r.mem)
    ensures op.EmitOp? ==> r == Ok(m, v)
    ensures op.AtomOp? ==> r == Ok(m, Bool(ctx, v.tag != Cons))
  {
    match op
    case AtomOp => Ok(m, Bool(ctx, v.tag != Cons))
    case EmitOp => Ok(m, v)
    case U64Op =>
      if v.tag == U64 then Ok(m, v)
      else if v.tag == Char then
        match Load(m, 4, v.raw)
        case None => Halt(Panic)
        case Some(bytes) => var s := StoreDigest(m, bytes + Zeros(4)); Ok(s.mem, Ptr(U64, s.ptr))
      else Ok(m, Error(CantCastToU64))
    case CharOp =>
      if v.tag == Char then Ok(m, v)
      else if v.tag == U64 then
        match LoadDigest(m, v.raw)
        case None => Halt(Panic)
        case Some(word) => var s := StoreBytes(m, word[..4]); Ok(s.mem, Ptr(Char, s.ptr))
      else Ok(m, Error(CantCastToChar))
    case BigNumOp =>
      if v.tag == BigNum then Ok(m, v)
      else if v.tag == Comm then Ok(m, Ptr(BigNum, v.raw))
      else Ok(m, Error(CantCastToBigNum))
    case CommOp =>
      if v.tag == BigNum then Ok(m, Ptr(Comm, v.raw))
      else if v.tag == Comm then Ok(m, v)
      else Ok(m, Error(CantCastToComm))
  }

  /** The reference meaning of the 64-bit arithmetic operators: the exact result, wrapped modulo 2^64. */
  function U64Arith(op: Prim, u: int, v: int): int
    requires op.AddOp? || op.SubOp? || op.MulOp? || ((op.DivOp? || op.ModOp?) && v != 0)
  {
    (match op
     case AddOp => u + v
     case SubOp => u - v
     case MulOp => u * v
     case DivOp => u / v
     case _ => u % v) % U64_MOD
  }

  /**
   * On two stored words, the arithmetic operators store the bytes of the
   * wrapped result; a dividend is never read when the divisor is zero.
   */
  lemma U64ArithValue(ctx: Ctx, m: Memory, op: Prim, a: int, b: int, x: seq<int>, y: seq<int>)
    requires LoadDigest(m, a) == Some(x) && LoadDigest(m, b) == Some(y)
    requires op.AddOp? || op.SubOp? || op.MulOp? || ((op.DivOp? || op.ModOp?) && LeValue(y) != 0)
    ensures var r := U64Binop(ctx, m, op, a, b);
      r.Ok? && r.out.tag == U64 && LoadDigest(r.mem, r.out.raw).Some?
      && AllBytes(LoadDigest(r.mem, r.out.raw).value)
      && LeValue(LoadDigest(r.mem, r.out.raw).value) == U64Arith(op, LeValue(x), LeValue(y))
  {
    assert U64Binop(ctx, m, op, a, b) == U64Words(ctx, m, op, x, y);
    match op
    case AddOp => WordsArith(ctx, m, AddOp, x, y);
    case SubOp => WordsArith(ctx, m, SubOp, x, y);
    case MulOp => WordsArith(ctx, m, MulOp, x, y);
    case DivOp => WordsArith(ctx, m, DivOp, x, y);
    case ModOp => WordsArith(ctx, m, ModOp, x, y);
  }

  lemma WordsArith(ctx: Ctx, m: Memory, op: Prim, x: seq<int>, y: seq<int>)
    requires op.AddOp? || op.SubOp? || op.MulOp? || ((op.DivOp? || op.ModOp?) && LeValue(y) != 0)
    ensures var r := U64Words(ctx, m, op, x, y);
      r.out.tag == U64 && AllBytes(LoadDigest(r.mem, r.out.raw).value)
      && LeValue(LoadDigest(r.mem, r.out.raw).value) == U64Arith(op, LeValue(x), LeValue(y))
  {
    var u, v := LeValue(x), LeValue(y);
    if op.DivOp? || op.ModOp? {
      assert U64Words(ctx, m, op, x, y) == DivRem(m, u, v, op.DivOp?);
    } else {
      var w := if op.AddOp? then u + v else if op.SubOp? then u - v else u * v;
      assert U64Arith(op, u, v) == w % U64_MOD;
      assert U64Words(ctx, m, op, x, y) == Ok(StoreU64(m, w).mem, Ptr(U64, StoreU64(m, w).ptr));
    }
  }

  /** Dividing a stored word by zero is `DivByZero`, whatever the dividend. */
  lemma U64DivByZero(ctx: Ctx, m: Memory, op: Prim, a: int, b: int, y: seq<int>)
    requires op.DivOp? || op.ModOp?
    requires LoadDigest(m, b) == Some(y) && LeValue(y) == 0
    ensures U64Binop(ctx, m, op, a, b) == Ok(m, Error(DivByZero))
  {
  }

  /** The comparisons of two stored words compare their values; `=` compares their bytes. */
  lemma U64Compare(ctx: Ctx, m: Memory, op: Prim, a: int, b: int, x: seq<int>, y: seq<int>)
    requires LoadDigest(m, a) == Some(x) && LoadDigest(m, b) == Some(y)
    requires op.LtOp? || op.GtOp? || op.LeOp? || op.GeOp? || op.NumEqOp?
    ensures var u, v := LeValue(x), LeValue(y);
      U64Binop(ctx, m, op, a, b) == Ok(m, Bool(ctx,
        if op.LtOp? then u < v else if op.GtOp? then u > v
        else if op.LeOp? then u <= v else if op.GeOp? then u >= v else x == y))
  {
  }

  /**
   * The errors of `eval_binop_num` by operand types: field division by zero,
   * field orderings and `%`, big-number arithmetic and mismatched operands.
   */
  lemma NumOpErrors(ctx: Ctx, m: Memory, op: Prim, v1: Ptr, v2: Ptr)
    requires IsNumOp(op)
    ensures v1.tag == Num && v2.tag == Num && op.DivOp? && Field.IsZero(v2.raw)
      ==> NumOp(ctx, m, op, v1, v2) == Ok(m, Error(DivByZero))
    ensures v1.tag == Num && v2.tag == Num && (op.ModOp? || op.LtOp? || op.GtOp? || op.LeOp? || op.GeOp?)
      ==> NumOp(ctx, m, op, v1, v2) == Ok(m, Error(NotU64))
    ensures v1.tag == BigNum && v2.tag == BigNum && (op.AddOp? || op.SubOp? || op.MulOp? || op.DivOp? || op.ModOp?)
      ==> NumOp(ctx, m, op, v1, v2) == Ok(m, Error(InvalidArg))
    ensures v1.tag != v2.tag ==> NumOp(ctx, m, op, v1, v2) == Ok(m, Error(InvalidArg))
  {
  }

  /** Field division is multiplication by the inverse: the quotient times the divisor is the dividend. */
  lemma FieldDivInverse(ctx: Ctx, a: int, b: int)
    requires !Field.IsZero(b) && Field.Egcd(b % Field.P, Field.P).g == 1
    ensures var q := FieldBinop(ctx, DivOp, a, b);
      q.tag == Num && Field.Mul(q.raw, b) == a % Field.P
  {
    FieldDivValue(ctx, a, b);
    Field.DivMul(a, b);
  }

  lemma FieldDivValue(ctx: Ctx, a: int, b: int)
    requires !Field.IsZero(b)
    ensures FieldBinop(ctx, DivOp, a, b) == Ptr(Num, Field.Div(a, b))
  {
  }

  /** Field `=` is congruence modulo P. */
  lemma FieldEq(ctx: Ctx, a: int, b: int)
    ensures FieldBinop(ctx, NumEqOp, a, b) == Bool(ctx, a % Field.P == b % Field.P)
  {
    var P := Field.P;
    var k, d := a / P - b / P, a % P - b % P;
    assert a - b - P * k == d;
    Field.ModShift(a - b, k);
    assert (a - b) % P == d % P;
    assert -P < d < P;
    if d < 0 {
      Field.ModMultiple(d + P, -1);
    }
  }

  /** `bignum` and `comm` of a big number or a commitment only change the tag. */
  lemma Retag(ctx: Ctx, m: Memory, v: Ptr)
    requires v.tag == BigNum || v.tag == Comm
    ensures Unop(ctx, m, BigNumOp, v) == Ok(m, Ptr(BigNum, v.raw))
    ensures Unop(ctx, m, CommOp, v) == Ok(m, Ptr(Comm, v.raw))
  {
  }

  /** A cast from any other type is the matching `CantCastTo…` error. */
  lemma CastErrors(ctx: Ctx, m: Memory, v: Ptr)
    ensures v.tag != U64 && v.tag != Char ==> Unop(ctx, m, U64Op, v) == Ok(m, Error(CantCastToU64))
    ensures v.tag != U64 && v.tag != Char ==> Unop(ctx, m, CharOp, v) == Ok(m, Error(CantCastToChar))
    ensures v.tag != BigNum && v.tag != Comm ==> Unop(ctx, m, BigNumOp, v) == Ok(m, Error(CantCastToBigNum))
    ensures v.tag != BigNum && v.tag != Comm ==> Unop(ctx, m, CommOp, v) == Ok(m, Error(CantCastToComm))
  {
  }

  /** Zero limbs on the high side do not change a little-endian value. */
  lemma {:induction false} LeValuePadded(limbs: seq<int>, n: nat)
    ensures LeValue(limbs + Zeros(n)) == LeValue(limbs)
    decreases |limbs|, n
  {
    if limbs == [] {
      assert limbs + Zeros(n) == Zeros(n);
      if n > 0 {
        assert Zeros(n)[1..] == Zeros(n - 1);
        LeValuePadded([], n - 1);
        assert [] + Zeros(n - 1) == Zeros(n - 1);
      }
    } else {
      assert (limbs + Zeros(n))[1..] == limbs[1..] + Zeros(n);
      LeValuePadded(limbs[1..], n);
    }
  }

  /**
   * `u64` of a character keeps its 4 bytes as the low bytes of a word, so
   * the word's value is the character's; `char` of that word gives the same 4 bytes back.
   */
  lemma CharU64RoundTrip(ctx: Ctx, m: Memory, c: Ptr, bytes: seq<int>)
    requires c.tag == Char && Load(m, 4, c.raw) == Some(bytes)
    ensures var u := Unop(ctx, m, U64Op, c);
      u.Ok? && u.out.tag == U64 && LoadDigest(u.mem, u.out.raw).Some?
      && LeValue(LoadDigest(u.mem, u.out.raw).value) == LeValue(bytes)
      && var w := Unop(ctx, u.mem, CharOp, u.out);
         w.Ok? && w.out.tag == Char && Load(w.mem, 4, w.out.raw) == Some(bytes)
  {
    var u := Unop(ctx, m, U64Op, c);
    LeValuePadded(bytes, 4);
    assert LoadDigest(u.mem, u.out.raw) == Some(bytes + Zeros(4));
    assert (bytes + Zeros(4))[..4] == bytes;
  }
}
