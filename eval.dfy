/**
 * The evaluator: `eval` and the functions it calls, one mutually recursive
 * group over memory. Every function returns the grown memory and a value
 * `(tag, ptr)`; a Lurk error is a value of tag `Err`, while a failed load,
 * a failed assertion or a missing match arm halts the run (`Panic`).
 * `fuel` bounds the depth of the calls, since evaluation need not end.
 */
module Evaluator {
  import opened Wrappers
  import opened Tags
  import opened Arena
  import opened Layout
  import opened Lang
  import opened Envs
  import opened Prims
  import opened Commitments
  import opened Equality
  import opened Mutuals

  /** A form whose shape the evaluator rejects. */
  function Invalid(m: Memory): Run<Ptr>
  {
    Ok(m, Error(InvalidForm))
  }

  /**
   * `eval`: symbols are looked up in `env` (a fixed point found there is
   * unrolled under the empty env); a `Cons` is a built-in form or an
   * application; a fixed point evaluates its body in the env extended with
   * its mutual bindings; an env literal evaluates its values. Everything
   * else evaluates to itself.
   */
  function Eval(ctx: Ctx, fuel: nat, m: Memory, e: Ptr, env: int): (r: Run<Ptr>)
    ensures r.Ok? ==> Grows(ctx.hash3, m, r.mem)
    decreases fuel
  {
    if fuel == 0 then Halt(OutOfFuel)
    else
      var f := fuel - 1;
      match e.tag
      case Builtin | Sym | Coroutine =>
        (match LoadDigest(m, e.raw)
         case None => Halt(Panic)
         case Some(d) =>
           var v :- EnvLookup(f, m, e.tag, d, env);
           if v.out.tag == Fix then Eval(ctx, f, m, v.out, 0) else v)
      case Cons =>
        var c :- LoadCell(m, e);
        var head, rest := c.out.fst, c.out.snd;
        if head.tag == Builtin then EvalBuiltinExpr(ctx, f, m, head.raw, rest, env)
        else if head.tag == Coroutine then Halt(Panic)
        else
          var h :- Eval(ctx, f, m, head, env);
          if h.out.tag == BigNum || h.out.tag == Comm then
            var o :- OpenComm(ctx, h.mem, h.out);
            var a := Apply(ctx, f, h.mem, o.out, rest, env);
            if a.Ok? then GrowsTrans(ctx.hash3, m, h.mem, a.mem); a else a
          else if h.out.tag == Err then h
          else
            var a := Apply(ctx, f, h.mem, h.out, rest, env);
            if a.Ok? then GrowsTrans(ctx.hash3, m, h.mem, a.mem); a else a
      case Fix =>
        (match LoadTriple(m, e.raw)
         case None => Halt(Panic)
         case Some(n) =>
           var ext :- ExtendEnvWithMutuals(f, m, n.snd, n.snd.raw, n.env, n.env);
           AppendedGrows(ctx.hash3, m, ext.mem);
           var v := Eval(ctx, f, ext.mem, n.fst, ext.out.raw);
           if v.Ok? then GrowsTrans(ctx.hash3, m, ext.mem, v.mem); v else v)
      case Env => EvalEnvLiteral(ctx, f, m, e.raw, env)
      case _ => Ok(m, e)
  }

  /** `eval_builtin_expr`: the built-in form `(head . rest)`, by the operator `head` stands for. */
  function EvalBuiltinExpr(ctx: Ctx, fuel: nat, m: Memory, head: int, rest: Ptr, env: int): (r: Run<Ptr>)
    ensures r.Ok? ==> Grows(ctx.hash3, m, r.mem)
    decreases fuel
  {
    if fuel == 0 then Halt(OutOfFuel)
    else if head !in ctx.syms.builtinAt then Halt(Panic)
    else
      var f := fuel - 1;
      var op := ctx.syms.builtinAt[head];
      match op
      case LetOp | LetRecOp | LambdaOp => EvalBinder(ctx, f, m, op, rest, env)
      case ConsOp | StrConsOp | TypeEqOp | TypeEqqOp | ApplyOp => EvalPairForm(ctx, f, m, op, rest, env)
      case ListOp => EvalList(ctx, f, m, rest, env)
      case AddOp | SubOp | MulOp | DivOp | ModOp | NumEqOp | LtOp | GtOp | LeOp | GeOp =>
        var a :- Exactly(m, rest, 2);
        (match a.out
         case None => Invalid(m)
         case Some(xs) => EvalBinopNum(ctx, f, m, op, xs[0], xs[1], env))
      case EvalOp => EvalEvalForm(ctx, f, m, rest, env)
      case QuoteOp =>
        var a :- Exactly(m, rest, 1);
        (match a.out
         case None => Invalid(m)
         case Some(xs) => Ok(m, xs[0]))
      case BeginOp => EvalBegin(ctx, f, m, rest, env)
      case CurrentEnvOp => if rest.tag != Nil then Invalid(m) else Ok(m, Ptr(Env, env))
      case EmptyEnvOp => if rest.tag != Nil then Invalid(m) else Ok(m, Ptr(Env, 0))
      case FailOp => if rest.tag != Nil then Invalid(m) else Halt(Panic)
      case BindOp => EvalBindBuiltin(ctx, f, m, rest, env)
      case EnvOp => EvalEnvBuiltin(ctx, f, m, rest, env)
      case BreakpointOp => EvalBreakpoint(ctx, f, m, rest, env)
      case IfOp => EvalIf(ctx, f, m, rest, env)
      case EqOp => Equal(ctx, f, m, rest, env, true)
      case EqqOp => Equal(ctx, f, m, rest, env, false)
      case HideOp => EvalHide(ctx, f, m, rest, env)
      case CarOp =>
        var c :- CarCdr(ctx, f, m, rest, env);
        Ok(c.mem, c.out.fst)
      case CdrOp =>
        var c :- CarCdr(ctx, f, m, rest, env);
        Ok(c.mem, c.out.snd)
      case U64Op | CharOp | AtomOp | EmitOp | BigNumOp | CommOp => EvalUnop(ctx, f, m, op, rest, env)
      case CommitOp | OpenOp | SecretOp => EvalOpeningUnop(ctx, f, m, op, rest, env)
  }

  /**
   * `let`, `letrec` and `lambda`: `rest` must be `(fst . body)` with `body`
   * a `Cons`. A `lambda` is the closure `(params, body, env)`.
   */
  function EvalBinder(ctx: Ctx, fuel: nat, m: Memory, op: Prim, rest: Ptr, env: int): (r: Run<Ptr>)
    requires op.LetOp? || op.LetRecOp? || op.LambdaOp?
    ensures r.Ok? ==> Grows(ctx.hash3, m, r.mem)
    decreases fuel
  {
    if fuel == 0 then Halt(OutOfFuel)
    else if rest.tag != Cons then Invalid(m)
    else
      var f := fuel - 1;
      var c :- LoadCell(m, rest);
      var fst, body := c.out.fst, c.out.snd;
      if body.tag != Cons then Invalid(m)
      else if op.LetOp? then EvalLet(ctx, f, m, fst, body, env)
      else if op.LetRecOp? then EvalLetrec(ctx, f, m, fst, body, env)
      else
        var s := StoreTriple(m, fst, body, env);
        AppendedGrows(ctx.hash3, m, s.mem);
        Ok(s.mem, Ptr(Fun, s.ptr))
  }

  /** `cons`, `strcons`, `type-eq`, `type-eqq` and `apply`: exactly two arguments. */
  function EvalPairForm(ctx: Ctx, fuel: nat, m: Memory, op: Prim, rest: Ptr, env: int): (r: Run<Ptr>)
    requires op.ConsOp? || op.StrConsOp? || op.TypeEqOp? || op.TypeEqqOp? || op.ApplyOp?
    ensures r.Ok? ==> Grows(ctx.hash3, m, r.mem)
    decreases fuel
  {
    if fuel == 0 then Halt(OutOfFuel)
    else
      var f := fuel - 1;
      var a :- Exactly(m, rest, 2);
      match a.out
      case None => Invalid(m)
      case Some(xs) =>
        var fst, snd := xs[0], xs[1];
        if op.ConsOp? || op.StrConsOp? then EvalBinopMisc(ctx, f, m, op, fst, snd, env)
        else if op.TypeEqOp? then EvalTypeEq(ctx, f, m, fst, snd, env)
        else if op.TypeEqqOp? then
          var v2 :- Eval(ctx, f, m, snd, env);
          if v2.out.tag == Err then v2
          else Ok(v2.mem, Bool(ctx, CoerceIfSym(fst.tag) == CoerceIfSym(v2.out.tag)))
        else EvalApplyBuiltin(ctx, f, m, fst, snd, env)
  }

  /** `type-eq`: both arguments evaluated, `nil` and `t` counting as symbols. */
  function EvalTypeEq(ctx: Ctx, fuel: nat, m: Memory, fst: Ptr, snd: Ptr, env: int): (r: Run<Ptr>)
    ensures r.Ok? ==> Grows(ctx.hash3, m, r.mem)
    decreases fuel
  {
    if fuel == 0 then Halt(OutOfFuel)
    else
      var f := fuel - 1;
      var v1 :- Eval(ctx, f, m, fst, env);
      if v1.out.tag == Err then v1
      else
        var v2 := Eval(ctx, f, v1.mem, snd, env);
        if v2.Halt? then v2
        else
          GrowsTrans(ctx.hash3, m, v1.mem, v2.mem);
          if v2.out.tag == Err then v2
          else Ok(v2.mem, Bool(ctx, CoerceIfSym(v1.out.tag) == CoerceIfSym(v2.out.tag)))
  }

  /** `eval` as a form: `(eval e)` evaluates the value of `e` under the empty env, `(eval e env)` under the value of `env`. */
  function EvalEvalForm(ctx: Ctx, fuel: nat, m: Memory, rest: Ptr, env: int): (r: Run<Ptr>)
    ensures r.Ok? ==> Grows(ctx.hash3, m, r.mem)
    decreases fuel
  {
    if fuel == 0 then Halt(OutOfFuel)
    else if rest.tag != Cons then Invalid(m)
    else
      var f := fuel - 1;
      var c :- LoadCell(m, rest);
      var e, tail := c.out.fst, c.out.snd;
      if tail.tag == Nil then
        var v :- Eval(ctx, f, m, e, env);
        if v.out.tag == Err then v
        else
          var w := Eval(ctx, f, v.mem, v.out, 0);
          if w.Ok? then GrowsTrans(ctx.hash3, m, v.mem, w.mem); w else w
      else if tail.tag == Cons then
        var d :- LoadCell(m, tail);
        if d.out.snd.tag != Nil then Invalid(m)
        else
          var v :- Eval(ctx, f, m, e, env);
          if v.out.tag == Err then v
          else
            var n := Eval(ctx, f, v.mem, d.out.fst, env);
            if n.Halt? then n
            else
              GrowsTrans(ctx.hash3, m, v.mem, n.mem);
              if n.out.tag == Err then n
              else if n.out.tag == Env then
                var w := Eval(ctx, f, n.mem, v.out, n.out.raw);
                if w.Ok? then GrowsTrans(ctx.hash3, m, n.mem, w.mem); w else w
              else Ok(n.mem, Error(NotEnv))
      else Ok(m, Error(NotEnv))
  }

  /** `breakpoint` (its side effect aside): `nil`, or the value of its one argument. */
  function EvalBreakpoint(ctx: Ctx, fuel: nat, m: Memory, rest: Ptr, env: int): (r: Run<Ptr>)
    ensures r.Ok? ==> Grows(ctx.hash3, m, r.mem)
    decreases fuel
  {
    if fuel == 0 then Halt(OutOfFuel)
    else if rest.tag == Nil then Ok(m, NilPtr(ctx))
    else if rest.tag == Cons then
      var c :- LoadCell(m, rest);
      if c.out.snd.tag != Nil then Invalid(m) else Eval(ctx, fuel - 1, m, c.out.fst, env)
    else Halt(Panic)
  }

  /**
   * `if`: `(if c t)` or `(if c t e)`. A condition that evaluates to `nil`
   * selects `e` (or is the result when there is no `e`); an error is the result.
   */
  function EvalIf(ctx: Ctx, fuel: nat, m: Memory, rest: Ptr, env: int): (r: Run<Ptr>)
    ensures r.Ok? ==> Grows(ctx.hash3, m, r.mem)
    decreases fuel
  {
    if fuel == 0 then Halt(OutOfFuel)
    else if rest.tag != Cons then Invalid(m)
    else
      var f := fuel - 1;
      var c :- LoadCell(m, rest);
      if c.out.snd.tag != Cons then Invalid(m)
      else
        var d :- LoadCell(m, c.out.snd);
        var cond, yes, tail := c.out.fst, d.out.fst, d.out.snd;
        if tail.tag == Nil then
          var v :- Eval(ctx, f, m, cond, env);
          if v.out.tag == Nil || v.out.tag == Err then v
          else
            var w := Eval(ctx, f, v.mem, yes, env);
            if w.Ok? then GrowsTrans(ctx.hash3, m, v.mem, w.mem); w else w
        else if tail.tag == Cons then
          var g :- LoadCell(m, tail);
          if g.out.snd.tag != Nil then Invalid(m)
          else
            var v :- Eval(ctx, f, m, cond, env);
            if v.out.tag == Err then v
            else
              var w := Eval(ctx, f, v.mem, if v.out.tag == Nil then g.out.fst else yes, env);
              if w.Ok? then GrowsTrans(ctx.hash3, m, v.mem, w.mem); w else w
        else Invalid(m)
  }

  /**
   * `equal`: the second argument is evaluated first; `eq` evaluates the
   * first one too, `eqq` compares it as written. Equal values give `t`,
   * others the `nil` of pointer 0.
   */
  function Equal(ctx: Ctx, fuel: nat, m: Memory, rest: Ptr, env: int, evalFirst: bool): (r: Run<Ptr>)
    ensures r.Ok? ==> Grows(ctx.hash3, m, r.mem)
    decreases fuel
  {
    if fuel == 0 then Halt(OutOfFuel)
    else
      var f := fuel - 1;
      var a :- Exactly(m, rest, 2);
      match a.out
      case None => Invalid(m)
      case Some(xs) =>
        var v2 :- Eval(ctx, f, m, xs[1], env);
        if v2.out.tag == Err then v2
        else if evalFirst then
          var v1 := Eval(ctx, f, v2.mem, xs[0], env);
          if v1.Halt? then v1
          else
            GrowsTrans(ctx.hash3, m, v2.mem, v1.mem);
            if v1.out.tag == Err then v1
            else
              var q :- EqualInner(f, v1.mem, v1.out, v2.out);
              Ok(v1.mem, if q.out then TPtr(ctx) else Ptr(Nil, 0))
        else
          var q :- EqualInner(f, v2.mem, xs[0], v2.out);
          Ok(v2.mem, if q.out then TPtr(ctx) else Ptr(Nil, 0))
  }

  /** `hide`: the commitment to the second argument under the first, a `BigNum` secret. */
  function EvalHide(ctx: Ctx, fuel: nat, m: Memory, rest: Ptr, env: int): (r: Run<Ptr>)
    ensures r.Ok? ==> Grows(ctx.hash3, m, r.mem)
    decreases fuel
  {
    if fuel == 0 then Halt(OutOfFuel)
    else
      var f := fuel - 1;
      var a :- Exactly(m, rest, 2);
      match a.out
      case None => Invalid(m)
      case Some(xs) =>
        var v1 :- Eval(ctx, f, m, xs[0], env);
        if v1.out.tag == Err then v1
        else
          var v2 := Eval(ctx, f, v1.mem, xs[1], env);
          if v2.Halt? then v2
          else
            GrowsTrans(ctx.hash3, m, v1.mem, v2.mem);
            if v2.out.tag == Err then v2
            else
              var h := Hide(ctx, v2.mem, v1.out, v2.out);
              if h.Ok? then GrowsTrans(ctx.hash3, m, v2.mem, h.mem); h else h
  }

  /**
   * `car_cdr`: both halves of the value of the one argument. `nil` splits
   * into `nil` and `nil`, the empty string into `nil` and itself; a
   * non-pair is `NotCons` and an error is both halves.
   */
  function CarCdr(ctx: Ctx, fuel: nat, m: Memory, rest: Ptr, env: int): (r: Run<Pair>)
    ensures r.Ok? ==> Grows(ctx.hash3, m, r.mem)
    decreases fuel
  {
    if fuel == 0 then Halt(OutOfFuel)
    else
      var a :- Exactly(m, rest, 1);
      match a.out
      case None => Ok(m, Pair(Error(InvalidForm), Error(InvalidForm)))
      case Some(xs) =>
        var v :- Eval(ctx, fuel - 1, m, xs[0], env);
        var val := v.out;
        if val.tag == Err then Ok(v.mem, Pair(val, val))
        else if val.tag == Cons || (val.tag == Str && val.raw != 0) then
          var c :- LoadCell(v.mem, val);
          Ok(v.mem, c.out)
        else if val.tag == Nil then Ok(v.mem, Pair(NilPtr(ctx), NilPtr(ctx)))
        else if val.tag == Str then Ok(v.mem, Pair(NilPtr(ctx), Ptr(Str, 0)))
        else Ok(v.mem, Pair(Error(NotCons), Error(NotCons)))
  }

  /** `eval_unop`: the value of the one argument through `Unop`. */
  function EvalUnop(ctx: Ctx, fuel: nat, m: Memory, op: Prim, rest: Ptr, env: int): (r: Run<Ptr>)
    requires IsUnop(op)
    ensures r.Ok? ==> Grows(ctx.hash3, m, r.mem)
    decreases fuel
  {
    if fuel == 0 then Halt(OutOfFuel)
    else
      var a :- Exactly(m, rest, 1);
      match a.out
      case None => Invalid(m)
      case Some(xs) =>
        var v :- Eval(ctx, fuel - 1, m, xs[0], env);
        if v.out.tag == Err then v
        else
          var u := Unop(ctx, v.mem, op, v.out);
          if u.Ok? then AppendedGrows(ctx.hash3, v.mem, u.mem); GrowsTrans(ctx.hash3, m, v.mem, u.mem); u else u
  }

  /** `eval_opening_unop`: the value of the one argument through `Opening`. */
  function EvalOpeningUnop(ctx: Ctx, fuel: nat, m: Memory, op: Prim, rest: Ptr, env: int): (r: Run<Ptr>)
    requires IsOpeningOp(op)
    ensures r.Ok? ==> Grows(ctx.hash3, m, r.mem)
    decreases fuel
  {
    if fuel == 0 then Halt(OutOfFuel)
    else
      var a :- Exactly(m, rest, 1);
      match a.out
      case None => Invalid(m)
      case Some(xs) =>
        var v :- Eval(ctx, fuel - 1, m, xs[0], env);
        if v.out.tag == Err then v
        else
          var u := Opening(ctx, v.mem, op, v.out);
          if u.Ok? then GrowsTrans(ctx.hash3, m, v.mem, u.mem); u else u
  }

  /** `eval_binop_misc`: `cons` and `strcons` of two evaluated arguments. */
  function EvalBinopMisc(ctx: Ctx, fuel: nat, m: Memory, op: Prim, e1: Ptr, e2: Ptr, env: int): (r: Run<Ptr>)
    requires op.ConsOp? || op.StrConsOp?
    ensures r.Ok? ==> Grows(ctx.hash3, m, r.mem)
    decreases fuel
  {
    if fuel == 0 then Halt(OutOfFuel)
    else
      var f := fuel - 1;
      var v1 :- Eval(ctx, f, m, e1, env);
      if v1.out.tag == Err then v1
      else
        var v2 := Eval(ctx, f, v1.mem, e2, env);
        if v2.Halt? then v2
        else
          GrowsTrans(ctx.hash3, m, v1.mem, v2.mem);
          if v2.out.tag == Err then v2
          else
            var s := StorePair(v2.mem, v1.out, v2.out);
            AppendedGrows(ctx.hash3, v2.mem, s.mem);
            GrowsTrans(ctx.hash3, m, v2.mem, s.mem);
            if op.ConsOp? then Ok(s.mem, Ptr(Cons, s.ptr))
            else if v1.out.tag != Char then Ok(s.mem, Error(NotChar))
            else if v2.out.tag != Str then Ok(s.mem, Error(NotString))
            else Ok(s.mem, Ptr(Str, s.ptr))
  }

  /** `eval_binop_num`: a numeric operator on two evaluated arguments. */
  function EvalBinopNum(ctx: Ctx, fuel: nat, m: Memory, op: Prim, e1: Ptr, e2: Ptr, env: int): (r: Run<Ptr>)
    requires IsNumOp(op)
    ensures r.Ok? ==> Grows(ctx.hash3, m, r.mem)
    decreases fuel
  {
    if fuel == 0 then Halt(OutOfFuel)
    else
      var f := fuel - 1;
      var v1 :- Eval(ctx, f, m, e1, env);
      if v1.out.tag == Err then v1
      else
        var v2 := Eval(ctx, f, v1.mem, e2, env);
        if v2.Halt? then v2
        else
          GrowsTrans(ctx.hash3, m, v1.mem, v2.mem);
          if v2.out.tag == Err then v2
          else
            var n := NumOp(ctx, v2.mem, op, v1.out, v2.out);
            if n.Ok? then AppendedGrows(ctx.hash3, v2.mem, n.mem); GrowsTrans(ctx.hash3, m, v2.mem, n.mem); n else n
  }

  /** `eval_apply_builtin`: `(apply f args)` applies the value of `f` to the value of `args`. */
  function EvalApplyBuiltin(ctx: Ctx, fuel: nat, m: Memory, fst: Ptr, snd: Ptr, env: int): (r: Run<Ptr>)
    ensures r.Ok? ==> Grows(ctx.hash3, m, r.mem)
    decreases fuel
  {
    if fuel == 0 then Halt(OutOfFuel)
    else
      var f := fuel - 1;
      var v1 :- Eval(ctx, f, m, fst, env);
      if v1.out.tag == Err then v1
      else
        var v2 := Eval(ctx, f, v1.mem, snd, env);
        if v2.Halt? then v2
        else
          GrowsTrans(ctx.hash3, m, v1.mem, v2.mem);
          if v2.out.tag == Err then v2
          else
            var a := Apply(ctx, f, v2.mem, v1.out, v2.out, env);
            if a.Ok? then GrowsTrans(ctx.hash3, m, v2.mem, a.mem); a else a
  }

  /** `eval_list`: the list of the values of a proper list; an improper one is `InvalidForm`. */
  function EvalList(ctx: Ctx, fuel: nat, m: Memory, rest: Ptr, env: int): (r: Run<Ptr>)
    ensures r.Ok? ==> Grows(ctx.hash3, m, r.mem)
    decreases fuel
  {
    if fuel == 0 then Halt(OutOfFuel)
    else if rest.tag == Nil then Ok(m, rest)
    else if rest.tag == Cons then
      var f := fuel - 1;
      var c :- LoadCell(m, rest);
      var h :- Eval(ctx, f, m, c.out.fst, env);
      if h.out.tag == Err then h
      else
        var t := EvalList(ctx, f, h.mem, c.out.snd, env);
        if t.Halt? then t
        else
          GrowsTrans(ctx.hash3, m, h.mem, t.mem);
          if t.out.tag == Err then t
          else
            var s := StorePair(t.mem, h.out, t.out);
            AppendedGrows(ctx.hash3, t.mem, s.mem);
            GrowsTrans(ctx.hash3, m, t.mem, s.mem);
            Ok(s.mem, Ptr(Cons, s.ptr))
    else Invalid(m)
  }

  /** `eval_begin`: the value of the last expression of a list, `nil` for an empty one. */
  function EvalBegin(ctx: Ctx, fuel: nat, m: Memory, rest: Ptr, env: int): (r: Run<Ptr>)
    ensures r.Ok? ==> Grows(ctx.hash3, m, r.mem)
    decreases fuel
  {
    if fuel == 0 then Halt(OutOfFuel)
    else if rest.tag == Nil then Ok(m, rest)
    else if rest.tag == Cons then
      var f := fuel - 1;
      var c :- LoadCell(m, rest);
      var h :- Eval(ctx, f, m, c.out.fst, env);
      if h.out.tag == Err then h
      else if c.out.snd.tag != Nil then
        var t := EvalBegin(ctx, f, h.mem, c.out.snd, env);
        if t.Ok? then GrowsTrans(ctx.hash3, m, h.mem, t.mem); t else t
      else h
    else Invalid(m)
  }

  /** `eval_let`: binds each `(var expr)` in turn, each one seeing the ones before, then evaluates the body. */
  function EvalLet(ctx: Ctx, fuel: nat, m: Memory, binds: Ptr, body: Ptr, env: int): (r: Run<Ptr>)
    ensures r.Ok? ==> Grows(ctx.hash3, m, r.mem)
    decreases fuel
  {
    if fuel == 0 then Halt(OutOfFuel)
    else if binds.tag == Nil then EvalBegin(ctx, fuel - 1, m, body, env)
    else if binds.tag == Cons then
      var f := fuel - 1;
      var c :- LoadCell(m, binds);
      var bind, restBinds := c.out.fst, c.out.snd;
      if bind.tag != Cons then Invalid(m)
      else
        var b :- LoadCell(m, bind);
        var param := b.out.fst;
        if b.out.snd.tag != Cons then Invalid(m)
        else if SymLike(param.tag) then
          var d :- LoadCell(m, b.out.snd);
          if d.out.snd.tag != Nil then Invalid(m)
          else
            var v :- Eval(ctx, f, m, d.out.fst, env);
            if v.out.tag == Err then v
            else
              var ext := StoreTriple(v.mem, param, v.out, env);
              AppendedGrows(ctx.hash3, v.mem, ext.mem);
              GrowsTrans(ctx.hash3, m, v.mem, ext.mem);
              var w := if restBinds.tag != Nil then EvalLet(ctx, f, ext.mem, restBinds, body, ext.ptr)
                       else EvalBegin(ctx, f, ext.mem, body, ext.ptr);
              if w.Ok? then GrowsTrans(ctx.hash3, m, ext.mem, w.mem); w else w
        else Ok(m, Error(IllegalBindingVar))
    else Invalid(m)
  }

  /**
   * `eval_letrec_bindings`: evaluates, under the empty env, each fixed point
   * bound in `extEnv` before `initEnv`, stopping at the first error.
   */
  function EvalLetrecBindings(ctx: Ctx, fuel: nat, m: Memory, initEnv: int, extEnv: int): (r: Run<Ptr>)
    ensures r.Ok? ==> Grows(ctx.hash3, m, r.mem)
    decreases fuel
  {
    if fuel == 0 then Halt(OutOfFuel)
    else if extEnv == initEnv then Ok(m, Ptr(Env, initEnv))
    else
      var f := fuel - 1;
      match LoadTriple(m, extEnv)
      case None => Halt(Panic)
      case Some(node) =>
        if node.snd.tag != Fix then Halt(Panic)
        else
          var v :- Eval(ctx, f, m, node.snd, 0);
          if v.out.tag == Err then v
          else
            var w := EvalLetrecBindings(ctx, f, v.mem, initEnv, node.env);
            if w.Ok? then GrowsTrans(ctx.hash3, m, v.mem, w.mem); w else w
  }

  /** `eval_letrec`: the body under `env` extended with the fixed points of the bindings. */
  function EvalLetrec(ctx: Ctx, fuel: nat, m: Memory, binds: Ptr, body: Ptr, env: int): (r: Run<Ptr>)
    ensures r.Ok? ==> Grows(ctx.hash3, m, r.mem)
    decreases fuel
  {
    if fuel == 0 then Halt(OutOfFuel)
    else
      var f := fuel - 1;
      var ext :- ExtendEnvWithMutuals(f, m, binds, binds.raw, env, env);
      AppendedGrows(ctx.hash3, m, ext.mem);
      if ext.out.tag == Err then ext
      else
        var chk := EvalLetrecBindings(ctx, f, ext.mem, env, ext.out.raw);
        if chk.Halt? then chk
        else
          GrowsTrans(ctx.hash3, m, ext.mem, chk.mem);
          if chk.out.tag == Err then chk
          else
            var w := EvalBegin(ctx, f, chk.mem, body, ext.out.raw);
            if w.Ok? then GrowsTrans(ctx.hash3, m, chk.mem, w.mem); w else w
  }

  /**
   * `eval_bind_builtin`: `(bind sym val env)` evaluates its three
   * arguments and puts the binding of `sym` to `val` in front of `env`.
   */
  function EvalBindBuiltin(ctx: Ctx, fuel: nat, m: Memory, rest: Ptr, env: int): (r: Run<Ptr>)
    ensures r.Ok? ==> Grows(ctx.hash3, m, r.mem)
    decreases fuel
  {
    if fuel == 0 then Halt(OutOfFuel)
    else
      var f := fuel - 1;
      var a :- Exactly(m, rest, 3);
      match a.out
      case None => Invalid(m)
      case Some(xs) =>
        var x :- Eval(ctx, f, m, xs[0], env);
        if SymLike(x.out.tag) then
          var v := Eval(ctx, f, x.mem, xs[1], env);
          if v.Halt? then v
          else
            GrowsTrans(ctx.hash3, m, x.mem, v.mem);
            if v.out.tag == Err then v
            else
              var t := Eval(ctx, f, v.mem, xs[2], env);
              if t.Halt? then t
              else
                GrowsTrans(ctx.hash3, m, v.mem, t.mem);
                if t.out.tag == Env then
                  var s := StoreTriple(t.mem, x.out, v.out, t.out.raw);
                  AppendedGrows(ctx.hash3, t.mem, s.mem);
                  GrowsTrans(ctx.hash3, m, t.mem, s.mem);
                  Ok(s.mem, Ptr(Env, s.ptr))
                else if t.out.tag == Err then t
                else Ok(t.mem, Error(NotEnv))
        else if x.out.tag == Err then x
        else Ok(x.mem, Error(IllegalBindingVar))
  }

  /**
   * `eval_env_builtin`: `(env b1 … bn)` evaluates each `bi` to a pair
   * `(sym . val)` and makes the env of those bindings, `b1` in front.
   */
  function EvalEnvBuiltin(ctx: Ctx, fuel: nat, m: Memory, rest: Ptr, env: int): (r: Run<Ptr>)
    ensures r.Ok? ==> Grows(ctx.hash3, m, r.mem)
    decreases fuel
  {
    if fuel == 0 then Halt(OutOfFuel)
    else if rest.tag == Nil then Ok(m, Ptr(Env, 0))
    else if rest.tag == Cons then
      var f := fuel - 1;
      var c :- LoadCell(m, rest);
      var h :- Eval(ctx, f, m, c.out.fst, env);
      if h.out.tag == Cons then
        var b :- LoadCell(h.mem, h.out);
        var sym, val := b.out.fst, b.out.snd;
        if SymLike(sym.tag) then
          var t := EvalEnvBuiltin(ctx, f, h.mem, c.out.snd, env);
          if t.Halt? then t
          else
            GrowsTrans(ctx.hash3, m, h.mem, t.mem);
            if t.out.tag == Env then
              var s := StoreTriple(t.mem, sym, val, t.out.raw);
              AppendedGrows(ctx.hash3, t.mem, s.mem);
              GrowsTrans(ctx.hash3, m, t.mem, s.mem);
              Ok(s.mem, Ptr(Env, s.ptr))
            else if t.out.tag == Err then t
            else Halt(Panic)
        else Ok(h.mem, Error(IllegalBindingVar))
      else if h.out.tag == Err then h
      else Ok(h.mem, Error(NotCons))
    else Invalid(m)
  }

  /** `eval_env_literal`: an env value with each bound value evaluated under `env`. */
  function EvalEnvLiteral(ctx: Ctx, fuel: nat, m: Memory, lit: int, env: int): (r: Run<Ptr>)
    ensures r.Ok? ==> Grows(ctx.hash3, m, r.mem)
    decreases fuel
  {
    if fuel == 0 then Halt(OutOfFuel)
    else if lit == 0 then Ok(m, Ptr(Env, 0))
    else
      var f := fuel - 1;
      match LoadTriple(m, lit)
      case None => Halt(Panic)
      case Some(node) =>
        if SymLike(node.fst.tag) then
          var v :- Eval(ctx, f, m, node.snd, env);
          if v.out.tag == Err then v
          else
            var t := EvalEnvLiteral(ctx, f, v.mem, node.env, env);
            if t.Halt? then t
            else
              GrowsTrans(ctx.hash3, m, v.mem, t.mem);
              if t.out.tag == Env then
                var s := StoreTriple(t.mem, node.fst, v.out, t.out.raw);
                AppendedGrows(ctx.hash3, t.mem, s.mem);
                GrowsTrans(ctx.hash3, m, t.mem, s.mem);
                Ok(s.mem, Ptr(Env, s.ptr))
              else if t.out.tag == Err then t
              else Ok(t.mem, Error(InvalidForm))
        else Ok(m, Error(IllegalBindingVar))
  }

  /**
   * `apply`: applies the closure `head` to the unevaluated arguments `args`,
   * evaluating them under `argsEnv`, one parameter at a time. A closure
   * without parameters runs its body and applies the result to any
   * remaining arguments; `&rest x` binds `x` to the list of all remaining
   * arguments; fewer arguments than parameters give a closure.
   */
  function Apply(ctx: Ctx, fuel: nat, m: Memory, head: Ptr, args: Ptr, argsEnv: int): (r: Run<Ptr>)
    ensures r.Ok? ==> Grows(ctx.hash3, m, r.mem)
    decreases fuel
  {
    if fuel == 0 then Halt(OutOfFuel)
    else if head.tag != Fun then Ok(m, Error(ApplyNonFunc))
    else
      var f := fuel - 1;
      match LoadTriple(m, head.raw)
      case None => Halt(Panic)
      case Some(clo) =>
        var params, body, funEnv := clo.fst, clo.snd, clo.env;
        if params.tag == Nil then
          var b :- EvalBegin(ctx, f, m, body, funEnv);
          if b.out.tag == Err then b
          else if args.tag == Nil then b
          else if args.tag == Cons then
            var w := Apply(ctx, f, b.mem, b.out, args, argsEnv);
            if w.Ok? then GrowsTrans(ctx.hash3, m, b.mem, w.mem); w else w
          else Ok(b.mem, Error(ArgsNotList))
        else if params.tag == Cons then
          var p :- LoadCell(m, params);
          var param, restParams := p.out.fst, p.out.snd;
          if SymLike(param.tag) && param.raw == ctx.syms.rest then
            ApplyRest(ctx, f, m, restParams, body, funEnv, args, argsEnv)
          else BindArg(ctx, f, m, head, param, restParams, body, funEnv, args, argsEnv)
        else Ok(m, Error(ParamsNotList))
  }

  /** The parameter `&rest x`, which must be the last: `x` is bound to the list of the values of `args`. */
  function ApplyRest(ctx: Ctx, fuel: nat, m: Memory, restParams: Ptr, body: Ptr, funEnv: int,
                     args: Ptr, argsEnv: int): (r: Run<Ptr>)
    ensures r.Ok? ==> Grows(ctx.hash3, m, r.mem)
    decreases fuel
  {
    if fuel == 0 then Halt(OutOfFuel)
    else if restParams.tag == Nil then Ok(m, Error(ParamInvalidRest))
    else if restParams.tag == Cons then
      var f := fuel - 1;
      var q :- LoadCell(m, restParams);
      var x, after := q.out.fst, q.out.snd;
      if !SymLike(x.tag) then Ok(m, Error(IllegalBindingVar))
      else if after.tag != Nil then Ok(m, Error(ParamInvalidRest))
      else
        var vs :- EvalList(ctx, f, m, args, argsEnv);
        if vs.out.tag == Err then vs
        else
          var ext := StoreTriple(vs.mem, x, vs.out, funEnv);
          var clo := StoreTriple(ext.mem, after, body, ext.ptr);
          AppendedTrans(vs.mem, ext.mem, clo.mem);
          AppendedGrows(ctx.hash3, vs.mem, clo.mem);
          GrowsTrans(ctx.hash3, m, vs.mem, clo.mem);
          var w := Apply(ctx, f, clo.mem, Ptr(Fun, clo.ptr), NilPtr(ctx), argsEnv);
          if w.Ok? then GrowsTrans(ctx.hash3, m, clo.mem, w.mem); w else w
    else Ok(m, Error(ParamsNotList))
  }

  /**
   * An ordinary parameter `param`: with no arguments left the closure
   * `head` is the result; otherwise the first argument's value is bound to
   * `param` and the closure over the remaining parameters is applied to the
   * remaining arguments.
   */
  function BindArg(ctx: Ctx, fuel: nat, m: Memory, head: Ptr, param: Ptr, restParams: Ptr, body: Ptr,
                   funEnv: int, args: Ptr, argsEnv: int): (r: Run<Ptr>)
    ensures r.Ok? ==> Grows(ctx.hash3, m, r.mem)
    decreases fuel
  {
    if fuel == 0 then Halt(OutOfFuel)
    else if args.tag == Nil then Ok(m, head)
    else if args.tag == Cons then
      var f := fuel - 1;
      var c :- LoadCell(m, args);
      if !SymLike(param.tag) then Ok(m, Error(IllegalBindingVar))
      else
        var v :- Eval(ctx, f, m, c.out.fst, argsEnv);
        if v.out.tag == Err then v
        else
          var ext := StoreTriple(v.mem, param, v.out, funEnv);
          var clo := StoreTriple(ext.mem, restParams, body, ext.ptr);
          AppendedTrans(v.mem, ext.mem, clo.mem);
          AppendedGrows(ctx.hash3, v.mem, clo.mem);
          GrowsTrans(ctx.hash3, m, v.mem, clo.mem);
          var w := Apply(ctx, f, clo.mem, Ptr(Fun, clo.ptr), c.out.snd, argsEnv);
          if w.Ok? then GrowsTrans(ctx.hash3, m, clo.mem, w.mem); w else w
    else Ok(m, Error(ArgsNotList))
  }

  /**
   * `lurk_main`: ingress the expression and the env digest, evaluate, and
   * egress the value to its 16-element persistent form.
   */
  function LurkMain(ctx: Ctx, fuel: nat, m: Memory, expr: ZPtr, envDigest: seq<int>): (r: Run<seq<int>>)
    ensures var v := Eval(ctx, fuel, m, ctx.ingress(expr), ctx.ingress(ZPtr(Env, envDigest)).raw);
      (r.Ok? <==> v.Ok?)
      && (r.Ok? ==> r.mem == v.mem && |r.out| == ZPTR_SIZE
                    && r.out[..DIGEST_SIZE] == FullTag(ctx.egress(v.out).tag)
                    && r.out[DIGEST_SIZE..] == ctx.egress(v.out).digest)
  {
    var e := ctx.ingress(expr);
    var env := ctx.ingress(ZPtr(Env, envDigest));
    var v :- Eval(ctx, fuel, m, e, env.raw);
    Ok(v.mem, Flatten(ctx.egress(v.out)))
  }
}
