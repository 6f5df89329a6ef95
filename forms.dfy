/**
 * What the fixed-arity built-in forms compute from the values of their
 * arguments: each lemma takes the outcome of evaluating the arguments, in
 * the order and in the memory the evaluator threads them through, and
 * states the value of the form. A malformed argument list is
 * `InvalidForm`, and an error value of an argument is the result.
 */
module FormFacts {
  import opened Wrappers
  import opened Tags
  import opened Arena
  import opened Layout
  import opened Lang
  import opened Prims
  import opened Commitments
  import opened Equality
  import opened Evaluator

  predicate PairOp(op: Prim)
  {
    op.ConsOp? || op.StrConsOp? || op.TypeEqOp? || op.TypeEqqOp? || op.ApplyOp?
  }

  /**
   * `cons`, `strcons`, `type-eq`, `type-eqq` and `apply` take exactly two
   * arguments, and pass them on unevaluated to the form's own function.
   */
  lemma {:induction false} PairFormArgs(ctx: Ctx, fuel: nat, m: Memory, op: Prim, rest: Ptr, xs: seq<Ptr>, env: int)
    requires fuel > 0 && PairOp(op) && IsList(m, rest, xs)
    ensures |xs| != 2 ==> EvalPairForm(ctx, fuel, m, op, rest, env) == Ok(m, Error(InvalidForm))
    ensures |xs| == 2 && (op.ConsOp? || op.StrConsOp?) ==>
      EvalPairForm(ctx, fuel, m, op, rest, env) == EvalBinopMisc(ctx, fuel - 1, m, op, xs[0], xs[1], env)
    ensures |xs| == 2 && op.TypeEqOp? ==>
      EvalPairForm(ctx, fuel, m, op, rest, env) == EvalTypeEq(ctx, fuel - 1, m, xs[0], xs[1], env)
    ensures |xs| == 2 && op.ApplyOp? ==>
      EvalPairForm(ctx, fuel, m, op, rest, env) == EvalApplyBuiltin(ctx, fuel - 1, m, xs[0], xs[1], env)
  {
    ExactlyList(m, rest, xs, 2);
  }

  /**
   * `(type-eqq x e)`: only `e` is evaluated; the result is whether `x` as
   * written and the value of `e` have the same type, `nil` and `t` counting
   * as symbols.
   */
  lemma {:induction false} TypeEqq(ctx: Ctx, fuel: nat, m: Memory, rest: Ptr, x: Ptr, e: Ptr, env: int, m1: Memory, v: Ptr)
    requires fuel > 0 && IsList(m, rest, [x, e]) && Eval(ctx, fuel - 1, m, e, env) == Ok(m1, v)
    ensures EvalPairForm(ctx, fuel, m, TypeEqqOp, rest, env)
      == if v.tag == Err then Ok(m1, v) else Ok(m1, Bool(ctx, CoerceIfSym(x.tag) == CoerceIfSym(v.tag)))
  {
    ExactlyList(m, rest, [x, e], 2);
  }

  /** `(type-eq a b)`: both values have the same type, `nil` and `t` counting as symbols. */
  lemma TypeEq(ctx: Ctx, fuel: nat, m: Memory, a: Ptr, b: Ptr, env: int, m1: Memory, v1: Ptr, m2: Memory, v2: Ptr)
    requires fuel > 0 && Eval(ctx, fuel - 1, m, a, env) == Ok(m1, v1)
    ensures v1.tag == Err ==> EvalTypeEq(ctx, fuel, m, a, b, env) == Ok(m1, v1)
    ensures v1.tag != Err && Eval(ctx, fuel - 1, m1, b, env) == Ok(m2, v2) ==>
      EvalTypeEq(ctx, fuel, m, a, b, env)
      == if v2.tag == Err then Ok(m2, v2) else Ok(m2, Bool(ctx, CoerceIfSym(v1.tag) == CoerceIfSym(v2.tag)))
  {
  }

  /** `(eval e)`: the value of `e` is evaluated again, under the empty env. */
  lemma {:induction false} EvalFormOne(ctx: Ctx, fuel: nat, m: Memory, rest: Ptr, e: Ptr, env: int, m1: Memory, v: Ptr)
    requires fuel > 0 && IsList(m, rest, [e]) && Eval(ctx, fuel - 1, m, e, env) == Ok(m1, v)
    ensures EvalEvalForm(ctx, fuel, m, rest, env)
      == if v.tag == Err then Ok(m1, v) else Eval(ctx, fuel - 1, m1, v, 0)
  {
    assert [e][1..] == [];
  }

  /**
   * `(eval e x)`: the value of `e` is evaluated again under the value of
   * `x`, which must be an env (`NotEnv` otherwise).
   */
  lemma {:induction false} EvalFormTwo(ctx: Ctx, fuel: nat, m: Memory, rest: Ptr, e: Ptr, x: Ptr, env: int,
                                       m1: Memory, v: Ptr, m2: Memory, n: Ptr)
    requires fuel > 0 && IsList(m, rest, [e, x]) && Eval(ctx, fuel - 1, m, e, env) == Ok(m1, v)
    ensures v.tag == Err ==> EvalEvalForm(ctx, fuel, m, rest, env) == Ok(m1, v)
    ensures v.tag != Err && Eval(ctx, fuel - 1, m1, x, env) == Ok(m2, n) ==>
      EvalEvalForm(ctx, fuel, m, rest, env)
      == if n.tag == Err then Ok(m2, n)
         else if n.tag == Env then Eval(ctx, fuel - 1, m2, v, n.raw)
         else Ok(m2, Error(NotEnv))
  {
    ListTwo(m, rest, e, x);
  }

  /** `eval` with no argument, or with more than two, is `InvalidForm`. */
  lemma {:induction false} EvalFormArity(ctx: Ctx, fuel: nat, m: Memory, rest: Ptr, xs: seq<Ptr>, env: int)
    requires fuel > 0 && IsList(m, rest, xs) && (|xs| == 0 || |xs| > 2)
    ensures EvalEvalForm(ctx, fuel, m, rest, env) == Ok(m, Error(InvalidForm))
  {
    if |xs| > 2 {
      var c := LoadPair(m, rest.raw).value;
      assert IsList(m, c.snd, xs[1..]);
      var d := LoadPair(m, c.snd.raw).value;
      assert IsList(m, d.snd, xs[2..]);
    }
  }

  /** `(breakpoint)` is `nil`, `(breakpoint e)` the value of `e`, and more arguments `InvalidForm`. */
  lemma {:induction false} Breakpoint(ctx: Ctx, fuel: nat, m: Memory, rest: Ptr, xs: seq<Ptr>, env: int)
    requires fuel > 0 && IsList(m, rest, xs)
    ensures xs == [] ==> EvalBreakpoint(ctx, fuel, m, rest, env) == Ok(m, NilPtr(ctx))
    ensures |xs| == 1 ==> EvalBreakpoint(ctx, fuel, m, rest, env) == Eval(ctx, fuel - 1, m, xs[0], env)
    ensures |xs| > 1 ==> EvalBreakpoint(ctx, fuel, m, rest, env) == Ok(m, Error(InvalidForm))
  {
    if xs != [] {
      var c := LoadPair(m, rest.raw).value;
      assert IsList(m, c.snd, xs[1..]);
    }
  }

  /**
   * `(if c a)`: the value of `a` when `c` evaluates to anything but `nil`;
   * a `nil` or an error condition is itself the result.
   */
  lemma {:induction false} IfTwo(ctx: Ctx, fuel: nat, m: Memory, rest: Ptr, c: Ptr, a: Ptr, env: int, m1: Memory, v: Ptr)
    requires fuel > 0 && IsList(m, rest, [c, a]) && Eval(ctx, fuel - 1, m, c, env) == Ok(m1, v)
    ensures EvalIf(ctx, fuel, m, rest, env)
      == if v.tag == Nil || v.tag == Err then Ok(m1, v) else Eval(ctx, fuel - 1, m1, a, env)
  {
    ListTwo(m, rest, c, a);
  }

  /**
   * `(if c a b)`: the value of `b` when `c` evaluates to `nil`, of `a` when
   * it evaluates to anything else; an error condition is the result.
   */
  lemma {:induction false} IfThree(ctx: Ctx, fuel: nat, m: Memory, rest: Ptr, c: Ptr, a: Ptr, b: Ptr, env: int,
                                   m1: Memory, v: Ptr)
    requires fuel > 0 && IsList(m, rest, [c, a, b]) && Eval(ctx, fuel - 1, m, c, env) == Ok(m1, v)
    ensures EvalIf(ctx, fuel, m, rest, env)
      == if v.tag == Err then Ok(m1, v) else Eval(ctx, fuel - 1, m1, if v.tag == Nil then b else a, env)
  {
    var p1 := LoadPair(m, rest.raw).value;
    assert [c, a, b][1..] == [a, b];
    ListTwo(m, p1.snd, a, b);
  }

  /** `if` with fewer than two or more than three arguments is `InvalidForm`. */
  lemma {:induction false} IfArity(ctx: Ctx, fuel: nat, m: Memory, rest: Ptr, xs: seq<Ptr>, env: int)
    requires fuel > 0 && IsList(m, rest, xs) && (|xs| < 2 || |xs| > 3)
    ensures EvalIf(ctx, fuel, m, rest, env) == Ok(m, Error(InvalidForm))
  {
    if xs != [] {
      var p1 := LoadPair(m, rest.raw).value;
      assert IsList(m, p1.snd, xs[1..]);
      if |xs| > 3 {
        var p2 := LoadPair(m, p1.snd.raw).value;
        assert IsList(m, p2.snd, xs[2..]);
        var p3 := LoadPair(m, p2.snd.raw).value;
        assert IsList(m, p3.snd, xs[3..]);
      }
    }
  }

  /** The outcome of `equal_inner` as the value of `eq`: `t`, or the `nil` of pointer 0. */
  function EqResult(ctx: Ctx, q: Run<bool>, m: Memory): Run<Ptr>
  {
    if q.Halt? then Halt(q.why) else Ok(m, if q.out then TPtr(ctx) else Ptr(Nil, 0))
  }

  /**
   * `(eqq a b)` and `(eq a b)`: `b` is evaluated first; `eqq` compares `a`
   * as written with its value, `eq` evaluates `a` next and compares the two
   * values; an error value of either is the result.
   */
  lemma {:induction false} EqualValues(ctx: Ctx, fuel: nat, m: Memory, rest: Ptr, a: Ptr, b: Ptr, env: int,
                                       m1: Memory, v2: Ptr, m2: Memory, v1: Ptr)
    requires fuel > 0 && IsList(m, rest, [a, b]) && Eval(ctx, fuel - 1, m, b, env) == Ok(m1, v2)
    ensures v2.tag == Err ==>
      Equal(ctx, fuel, m, rest, env, true) == Ok(m1, v2) && Equal(ctx, fuel, m, rest, env, false) == Ok(m1, v2)
    ensures v2.tag != Err ==>
      Equal(ctx, fuel, m, rest, env, false) == EqResult(ctx, EqualInner(fuel - 1, m1, a, v2), m1)
    ensures v2.tag != Err && Eval(ctx, fuel - 1, m1, a, env) == Ok(m2, v1) ==>
      Equal(ctx, fuel, m, rest, env, true)
      == if v1.tag == Err then Ok(m2, v1) else EqResult(ctx, EqualInner(fuel - 1, m2, v1, v2), m2)
  {
    ExactlyList(m, rest, [a, b], 2);
  }

  /** `eq`, `eqq` and `hide` with other than two arguments are `InvalidForm`. */
  lemma {:induction false} TwoArgForms(ctx: Ctx, fuel: nat, m: Memory, rest: Ptr, xs: seq<Ptr>, env: int)
    requires fuel > 0 && IsList(m, rest, xs) && |xs| != 2
    ensures Equal(ctx, fuel, m, rest, env, true) == Ok(m, Error(InvalidForm))
    ensures Equal(ctx, fuel, m, rest, env, false) == Ok(m, Error(InvalidForm))
    ensures EvalHide(ctx, fuel, m, rest, env) == Ok(m, Error(InvalidForm))
  {
    ExactlyList(m, rest, xs, 2);
  }

  /** `(hide s v)`: the commitment to the value of `v` under the value of `s`, evaluated in that order. */
  lemma {:induction false} HideValues(ctx: Ctx, fuel: nat, m: Memory, rest: Ptr, s: Ptr, x: Ptr, env: int,
                                      m1: Memory, v1: Ptr, m2: Memory, v2: Ptr)
    requires fuel > 0 && IsList(m, rest, [s, x]) && Eval(ctx, fuel - 1, m, s, env) == Ok(m1, v1)
    ensures v1.tag == Err ==> EvalHide(ctx, fuel, m, rest, env) == Ok(m1, v1)
    ensures v1.tag != Err && Eval(ctx, fuel - 1, m1, x, env) == Ok(m2, v2) ==>
      EvalHide(ctx, fuel, m, rest, env) == if v2.tag == Err then Ok(m2, v2) else Hide(ctx, m2, v1, v2)
  {
    ExactlyList(m, rest, [s, x], 2);
  }

  /**
   * `car_cdr` of the value `v` of its one argument: the two halves of a
   * `Cons` or a non-empty string, `nil` and `nil` for `nil`, `nil` and the
   * empty string for the empty string, `NotCons` for anything else, and an
   * error value in both halves.
   */
  lemma {:induction false} CarCdrValue(ctx: Ctx, fuel: nat, m: Memory, rest: Ptr, x: Ptr, env: int, m1: Memory, v: Ptr)
    requires fuel > 0 && IsList(m, rest, [x]) && Eval(ctx, fuel - 1, m, x, env) == Ok(m1, v)
    ensures (v.tag == Cons || (v.tag == Str && v.raw != 0)) && LoadPair(m1, v.raw).Some? ==>
      CarCdr(ctx, fuel, m, rest, env) == Ok(m1, LoadPair(m1, v.raw).value)
    ensures v.tag == Nil ==> CarCdr(ctx, fuel, m, rest, env) == Ok(m1, Pair(NilPtr(ctx), NilPtr(ctx)))
    ensures v.tag == Str && v.raw == 0 ==> CarCdr(ctx, fuel, m, rest, env) == Ok(m1, Pair(NilPtr(ctx), Ptr(Str, 0)))
    ensures v.tag == Err ==> CarCdr(ctx, fuel, m, rest, env) == Ok(m1, Pair(v, v))
    ensures v.tag != Cons && v.tag != Str && v.tag != Nil && v.tag != Err ==>
      CarCdr(ctx, fuel, m, rest, env) == Ok(m1, Pair(Error(NotCons), Error(NotCons)))
  {
    ExactlyList(m, rest, [x], 1);
  }

  /**
   * `car`, `cdr`, the casts, `atom`, `emit`, `commit`, `open` and `secret`
   * take exactly one argument.
   */
  lemma {:induction false} OneArgForms(ctx: Ctx, fuel: nat, m: Memory, op: Prim, rest: Ptr, xs: seq<Ptr>, env: int)
    requires fuel > 0 && IsList(m, rest, xs) && |xs| != 1
    ensures CarCdr(ctx, fuel, m, rest, env) == Ok(m, Pair(Error(InvalidForm), Error(InvalidForm)))
    ensures IsUnop(op) ==> EvalUnop(ctx, fuel, m, op, rest, env) == Ok(m, Error(InvalidForm))
    ensures IsOpeningOp(op) ==> EvalOpeningUnop(ctx, fuel, m, op, rest, env) == Ok(m, Error(InvalidForm))
  {
    ExactlyList(m, rest, xs, 1);
  }

  /**
   * Each of `u64`, `char`, `atom`, `emit`, `bignum` and `comm` applies
   * `Unop` to the value of its one argument; an error value is the result.
   */
  lemma {:induction false} UnopValue(ctx: Ctx, fuel: nat, m: Memory, rest: Ptr, x: Ptr, env: int, m1: Memory, v: Ptr)
    requires fuel > 0 && IsList(m, rest, [x]) && Eval(ctx, fuel - 1, m, x, env) == Ok(m1, v)
    ensures EvalUnop(ctx, fuel, m, U64Op, rest, env) == if v.tag == Err then Ok(m1, v) else Unop(ctx, m1, U64Op, v)
    ensures EvalUnop(ctx, fuel, m, CharOp, rest, env) == if v.tag == Err then Ok(m1, v) else Unop(ctx, m1, CharOp, v)
    ensures EvalUnop(ctx, fuel, m, AtomOp, rest, env) == if v.tag == Err then Ok(m1, v) else Unop(ctx, m1, AtomOp, v)
    ensures EvalUnop(ctx, fuel, m, EmitOp, rest, env) == if v.tag == Err then Ok(m1, v) else Unop(ctx, m1, EmitOp, v)
    ensures EvalUnop(ctx, fuel, m, BigNumOp, rest, env) == if v.tag == Err then Ok(m1, v) else Unop(ctx, m1, BigNumOp, v)
    ensures EvalUnop(ctx, fuel, m, CommOp, rest, env) == if v.tag == Err then Ok(m1, v) else Unop(ctx, m1, CommOp, v)
  {
    ExactlyList(m, rest, [x], 1);
  }

  /** `commit`, `open` and `secret` apply `Opening` to the value of their argument; an error value is the result. */
  lemma {:induction false} OpeningValue(ctx: Ctx, fuel: nat, m: Memory, op: Prim, rest: Ptr, x: Ptr, env: int, m1: Memory, v: Ptr)
    requires fuel > 0 && IsOpeningOp(op) && IsList(m, rest, [x]) && Eval(ctx, fuel - 1, m, x, env) == Ok(m1, v)
    ensures EvalOpeningUnop(ctx, fuel, m, op, rest, env) == if v.tag == Err then Ok(m1, v) else Opening(ctx, m1, op, v)
  {
    ExactlyList(m, rest, [x], 1);
  }

  /**
   * `cons` and `strcons` of the values `v1`, `v2` of their arguments, in
   * that order: the pair `(v1, v2)` is stored; `cons` returns it as a
   * `Cons`; `strcons` returns it as a `Str` when `v1` is a char and `v2` a
   * string, and otherwise `NotChar` or `NotString`.
   */
  lemma {:induction false} BinopMiscValues(ctx: Ctx, fuel: nat, m: Memory, op: Prim, e1: Ptr, e2: Ptr, env: int,
                                           m1: Memory, v1: Ptr, m2: Memory, v2: Ptr)
    requires fuel > 0 && (op.ConsOp? || op.StrConsOp?) && Eval(ctx, fuel - 1, m, e1, env) == Ok(m1, v1)
    ensures v1.tag == Err ==> EvalBinopMisc(ctx, fuel, m, op, e1, e2, env) == Ok(m1, v1)
    ensures v1.tag != Err && Eval(ctx, fuel - 1, m1, e2, env) == Ok(m2, v2) ==>
      var r := EvalBinopMisc(ctx, fuel, m, op, e1, e2, env);
      (v2.tag == Err ==> r == Ok(m2, v2))
      && (v2.tag != Err ==>
            r.Ok? && Appended(m2, r.mem)
            && (op.ConsOp? ==> r.out.tag == Cons && LoadPair(r.mem, r.out.raw) == Some(Pair(v1, v2)))
            && (op.StrConsOp? && v1.tag == Char && v2.tag == Str ==>
                  r.out.tag == Str && LoadPair(r.mem, r.out.raw) == Some(Pair(v1, v2)))
            && (op.StrConsOp? && v1.tag != Char ==> r.out == Error(NotChar))
            && (op.StrConsOp? && v1.tag == Char && v2.tag != Str ==> r.out == Error(NotString)))
  {
  }

  /** A numeric operator applies `NumOp` to the values of its two arguments, evaluated in order. */
  lemma {:induction false} BinopNumValues(ctx: Ctx, fuel: nat, m: Memory, op: Prim, e1: Ptr, e2: Ptr, env: int,
                                          m1: Memory, v1: Ptr, m2: Memory, v2: Ptr)
    requires fuel > 0 && IsNumOp(op) && Eval(ctx, fuel - 1, m, e1, env) == Ok(m1, v1)
    ensures v1.tag == Err ==> EvalBinopNum(ctx, fuel, m, op, e1, e2, env) == Ok(m1, v1)
    ensures v1.tag != Err && Eval(ctx, fuel - 1, m1, e2, env) == Ok(m2, v2) ==>
      EvalBinopNum(ctx, fuel, m, op, e1, e2, env) == if v2.tag == Err then Ok(m2, v2) else NumOp(ctx, m2, op, v1, v2)
  {
  }

  /**
   * `(apply f args)`: the value of `f` applied to the value of `args`, its
   * elements evaluated once more by `apply` as arguments.
   */
  lemma {:induction false} ApplyBuiltinValues(ctx: Ctx, fuel: nat, m: Memory, fst: Ptr, snd: Ptr, env: int,
                                              m1: Memory, v1: Ptr, m2: Memory, v2: Ptr)
    requires fuel > 0 && Eval(ctx, fuel - 1, m, fst, env) == Ok(m1, v1)
    ensures v1.tag == Err ==> EvalApplyBuiltin(ctx, fuel, m, fst, snd, env) == Ok(m1, v1)
    ensures v1.tag != Err && Eval(ctx, fuel - 1, m1, snd, env) == Ok(m2, v2) ==>
      EvalApplyBuiltin(ctx, fuel, m, fst, snd, env) == if v2.tag == Err then Ok(m2, v2) else Apply(ctx, fuel - 1, m2, v1, v2, env)
  {
  }
}
