/**
 * Facts about the evaluator: which values evaluate to themselves, how a
 * variable is looked up, what `quote`, `lambda`, `current-env`, `if` and
 * `eq` compute, and how a closure treats too few arguments.
 */
module EvalFacts {
  import opened Wrappers
  import opened Tags
  import opened Arena
  import opened Layout
  import opened Lang
  import opened Envs
  import opened Equality
  import opened Evaluator

  /** Tags whose values `eval` returns as they are. */
  predicate SelfEvaluating(t: Tag)
  {
    !(SymLike(t) || t == Cons || t == Fix || t == Env)
  }

  /** Numbers, strings, closures, errors, `nil`, `t` and the rest evaluate to themselves, memory untouched. */
  lemma EvalSelf(ctx: Ctx, fuel: nat, m: Memory, e: Ptr, env: int)
    requires fuel > 0 && SelfEvaluating(e.tag)
    ensures Eval(ctx, fuel, m, e, env) == Ok(m, e)
  {
  }

  /**
   * A variable evaluates to the first value bound to its name in the
   * environment, or to `UnboundVar`; a fixed point found there is
   * evaluated, under the empty env, in its place.
   */
  lemma {:induction false} EvalVariable(ctx: Ctx, fuel: nat, m: Memory, x: Ptr, d: seq<int>, env: int, bs: seq<Binding>)
    requires SymLike(x.tag) && LoadDigest(m, x.raw) == Some(d)
    requires Chain(m, env, bs) && fuel > |bs| + 1
    ensures var v := Lookup(bs, x.tag, d);
      Eval(ctx, fuel, m, x, env) == if v.tag == Fix then Eval(ctx, fuel - 1, m, v, 0) else Ok(m, v)
  {
    EnvLookupChain(fuel - 1, m, env, bs, x.tag, d);
    VariableStep(ctx, fuel, m, x, d, env, Lookup(bs, x.tag, d));
  }

  lemma VariableStep(ctx: Ctx, fuel: nat, m: Memory, x: Ptr, d: seq<int>, env: int, v: Ptr)
    requires fuel > 0 && SymLike(x.tag) && LoadDigest(m, x.raw) == Some(d)
    requires EnvLookup(fuel - 1, m, x.tag, d, env) == Ok(m, v)
    ensures Eval(ctx, fuel, m, x, env) == if v.tag == Fix then Eval(ctx, fuel - 1, m, v, 0) else Ok(m, v)
  {
  }

  /** `(quote x)` is `x`, unevaluated. */
  lemma {:induction false} EvalQuote(ctx: Ctx, fuel: nat, m: Memory, head: int, rest: Ptr, x: Ptr, env: int)
    requires fuel > 0 && head in ctx.syms.builtinAt && ctx.syms.builtinAt[head] == QuoteOp
    requires IsList(m, rest, [x])
    ensures EvalBuiltinExpr(ctx, fuel, m, head, rest, env) == Ok(m, x)
  {
    ExactlyList(m, rest, [x], 1);
  }

  /** `(current-env)` is the env it is evaluated in; `(current-env x …)` is malformed. */
  lemma EvalCurrentEnv(ctx: Ctx, fuel: nat, m: Memory, head: int, rest: Ptr, env: int)
    requires fuel > 0 && head in ctx.syms.builtinAt && ctx.syms.builtinAt[head] == CurrentEnvOp
    ensures EvalBuiltinExpr(ctx, fuel, m, head, rest, env)
      == if rest.tag == Nil then Ok(m, Ptr(Env, env)) else Ok(m, Error(InvalidForm))
  {
  }

  /** `(lambda params . body)` stores the closure `(params, body, env)` and returns it. */
  lemma EvalLambda(ctx: Ctx, fuel: nat, m: Memory, rest: Ptr, params: Ptr, body: Ptr, env: int)
    requires fuel > 0 && rest.tag == Cons && LoadPair(m, rest.raw) == Some(Pair(params, body)) && body.tag == Cons
    ensures var r := EvalBinder(ctx, fuel, m, LambdaOp, rest, env);
      r.Ok? && r.out.tag == Fun && LoadTriple(r.mem, r.out.raw) == Some(Triple(params, body, env))
      && Appended(m, r.mem)
  {
  }

  /**
   * `(if c a b)` with a condition that evaluates to itself: `nil` selects
   * `b` and anything else `a`, evaluated in the same memory.
   */
  lemma {:induction false} EvalIfLiteral(ctx: Ctx, fuel: nat, m: Memory, rest: Ptr, c: Ptr, a: Ptr, b: Ptr, env: int)
    requires fuel > 1 && IsList(m, rest, [c, a, b]) && SelfEvaluating(c.tag) && c.tag != Err
    ensures EvalIf(ctx, fuel, m, rest, env) == Eval(ctx, fuel - 1, m, if c.tag == Nil then b else a, env)
  {
    var p1 := LoadPair(m, rest.raw).value;
    assert [c, a, b][1..] == [a, b];
    ListTwo(m, p1.snd, a, b);
    EvalSelf(ctx, fuel - 1, m, c, env);
  }

  /** `(eq x x)` of a value that evaluates to itself is `t`. */
  lemma {:induction false} EqSelf(ctx: Ctx, fuel: nat, m: Memory, rest: Ptr, x: Ptr, env: int)
    requires fuel > 2 && IsList(m, rest, [x, x]) && SelfEvaluating(x.tag) && x.tag != Err
    ensures Equal(ctx, fuel, m, rest, env, true) == Ok(m, TPtr(ctx))
  {
    ExactlyList(m, rest, [x, x], 2);
    EvalSelf(ctx, fuel - 1, m, x, env);
    Reflexive(fuel - 1, m, x);
  }

  /** Applying anything but a closure is the error `ApplyNonFunc`, arguments unevaluated. */
  lemma ApplyNonFunction(ctx: Ctx, fuel: nat, m: Memory, head: Ptr, args: Ptr, env: int)
    requires fuel > 0 && head.tag != Fun
    ensures Apply(ctx, fuel, m, head, args, env) == Ok(m, Error(ApplyNonFunc))
  {
  }

  /**
   * Applying a closure whose next parameter is an ordinary one to no
   * arguments gives back the closure itself: partial application.
   */
  lemma ApplyNoArgs(ctx: Ctx, fuel: nat, m: Memory, head: Ptr, args: Ptr, env: int, clo: Triple, param: Ptr, more: Ptr)
    requires fuel > 1 && head.tag == Fun && LoadTriple(m, head.raw) == Some(clo)
    requires clo.fst.tag == Cons && LoadPair(m, clo.fst.raw) == Some(Pair(param, more))
    requires !(SymLike(param.tag) && param.raw == ctx.syms.rest) && args.tag == Nil
    ensures Apply(ctx, fuel, m, head, args, env) == Ok(m, head)
  {
    assert Apply(ctx, fuel, m, head, args, env)
      == BindArg(ctx, fuel - 1, m, head, param, more, clo.snd, clo.env, args, env);
  }

  /**
   * `&rest` must be followed by exactly one symbol: nothing after it, or a
   * symbol followed by more parameters, is `ParamInvalidRest`; a non-symbol
   * is `IllegalBindingVar`; an improper parameter list is `ParamsNotList`.
   */
  lemma ApplyRestErrors(ctx: Ctx, fuel: nat, m: Memory, head: Ptr, args: Ptr, env: int, clo: Triple, p: Ptr, more: Ptr)
    requires fuel > 1 && head.tag == Fun && LoadTriple(m, head.raw) == Some(clo)
    requires clo.fst.tag == Cons && LoadPair(m, clo.fst.raw) == Some(Pair(p, more))
    requires SymLike(p.tag) && p.raw == ctx.syms.rest
    ensures more.tag == Nil ==> Apply(ctx, fuel, m, head, args, env) == Ok(m, Error(ParamInvalidRest))
    ensures more.tag != Nil && more.tag != Cons ==> Apply(ctx, fuel, m, head, args, env) == Ok(m, Error(ParamsNotList))
    ensures more.tag == Cons && LoadPair(m, more.raw).Some? ==>
      var q := LoadPair(m, more.raw).value;
      (!SymLike(q.fst.tag) ==> Apply(ctx, fuel, m, head, args, env) == Ok(m, Error(IllegalBindingVar)))
      && (SymLike(q.fst.tag) && q.snd.tag != Nil ==> Apply(ctx, fuel, m, head, args, env) == Ok(m, Error(ParamInvalidRest)))
  {
    assert Apply(ctx, fuel, m, head, args, env) == ApplyRest(ctx, fuel - 1, m, more, clo.snd, clo.env, args, env);
  }

  /** A closure without parameters runs its body in its own env when applied to no arguments. */
  lemma ApplyThunk(ctx: Ctx, fuel: nat, m: Memory, head: Ptr, args: Ptr, env: int, clo: Triple)
    requires fuel > 0 && head.tag == Fun && LoadTriple(m, head.raw) == Some(clo)
    requires clo.fst.tag == Nil && args.tag == Nil
    ensures Apply(ctx, fuel, m, head, args, env) == EvalBegin(ctx, fuel - 1, m, clo.snd, clo.env)
  {
  }
}
