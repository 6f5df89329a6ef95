/**
 * What the evaluator knows about the language: the built-in operators,
 * the pointers of the preallocated symbols, and the externals it calls
 * (hash3, ingress, egress and the big-number comparison), which are
 * parameters of the model.
 */
module Lang {
  import opened Tags
  import opened Arena

  /** The built-in symbols `eval_builtin_expr` dispatches on. */
  datatype Prim =
    | LetOp | LetRecOp | LambdaOp
    | ConsOp | StrConsOp | TypeEqOp | TypeEqqOp | ApplyOp
    | ListOp
    | AddOp | SubOp | MulOp | DivOp | ModOp | NumEqOp | LtOp | GtOp | LeOp | GeOp
    | EvalOp | QuoteOp | BeginOp
    | CurrentEnvOp | EmptyEnvOp | FailOp
    | BindOp | EnvOp | BreakpointOp | IfOp
    | EqOp | EqqOp | HideOp | CarOp | CdrOp
    | U64Op | CharOp | AtomOp | EmitOp | BigNumOp | CommOp
    | CommitOp | OpenOp | SecretOp

  /** `+ - * / % = < > <= >=` */
  predicate IsNumOp(op: Prim)
  {
    op.AddOp? || op.SubOp? || op.MulOp? || op.DivOp? || op.ModOp?
    || op.NumEqOp? || op.LtOp? || op.GtOp? || op.LeOp? || op.GeOp?
  }

  /** `u64 char atom emit bignum comm` */
  predicate IsUnop(op: Prim)
  {
    op.U64Op? || op.CharOp? || op.AtomOp? || op.EmitOp? || op.BigNumOp? || op.CommOp?
  }

  /** `commit open secret` */
  predicate IsOpeningOp(op: Prim)
  {
    op.CommitOp? || op.OpenOp? || op.SecretOp?
  }

  /**
   * The pointers of the preallocated symbols: which `Builtin` pointer is
   * which operator, and the pointers of `nil`, `t` and `&rest`.
   */
  datatype Symbols = Symbols(builtinAt: map<int, Prim>, nil: int, t: int, rest: int)

  /**
   * The evaluator's externals. `hash3` digests a 24-element preimage,
   * `ingress` turns a persistent pointer into an evaluator value and
   * `egress` does the converse; `bigNumLess` compares two stored big numbers.
   */
  datatype Ctx = Ctx(
    syms: Symbols,
    hash3: seq<int> -> Row8,
    ingress: ZPtr -> Ptr,
    egress: Ptr -> ZVal,
    bigNumLess: (seq<int>, seq<int>) -> bool)

  function NilPtr(ctx: Ctx): (p: Ptr)
    ensures p.tag == Nil
  {
    Ptr(Nil, ctx.syms.nil)
  }

  function TPtr(ctx: Ctx): (p: Ptr)
    ensures p.tag == T
  {
    Ptr(T, ctx.syms.t)
  }

  /** Lurk's booleans: `t` for true and `nil` for false. */
  function Bool(ctx: Ctx, b: bool): (p: Ptr)
    ensures p.tag == T <==> b
    ensures p.tag == Nil <==> !b
  {
    if b then TPtr(ctx) else NilPtr(ctx)
  }

  /** `coerce_if_sym`: `nil` and `t` have the type of symbols. */
  function CoerceIfSym(t: Tag): (r: Tag)
    ensures !IsInternal(r)
    ensures IsInternal(t) ==> r == Sym
    ensures !IsInternal(t) ==> r == t
  {
    if IsInternal(t) then Sym else t
  }
}
