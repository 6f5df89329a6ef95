/**
 * What the list-walking forms compute: `eval_list`, `begin`, `let`,
 * `letrec`, `bind`, `env`, env literals and the binding of closure
 * parameters. Each step lemma takes the outcome of the evaluations the
 * evaluator performs, in its order and its memory, and states the next
 * step or the value; the whole-list lemmas follow those steps over
 * proper lists of literals and well-formed environments.
 */
module BindingFacts {
  import opened Wrappers
  import opened Tags
  import opened Arena
  import opened Layout
  import opened Lang
  import opened Envs
  import opened Mutuals
  import opened Evaluator
  import opened EvalFacts

  /** Expressions that evaluate to themselves and are not errors. */
  predicate Literals(xs: seq<Ptr>)
  {
    forall i :: 0 <= i < |xs| ==> SelfEvaluating(xs[i].tag) && xs[i].tag != Err
  }

  /** `eval_list` of `nil` is `nil`; of anything but a list cell, `InvalidForm`. */
  lemma ListEnds(ctx: Ctx, fuel: nat, m: Memory, rest: Ptr, env: int)
    requires fuel > 0 && rest.tag != Cons
    ensures EvalList(ctx, fuel, m, rest, env) == if rest.tag == Nil then Ok(m, rest) else Ok(m, Error(InvalidForm))
  {
  }

  /**
   * `eval_list` of a cell `(x . tl)`: the value `v` of `x`, then the list
   * `w` of the values of `tl`, and the pair `(v . w)` stored; an error
   * value of either is the result.
   */
  lemma ListStep(ctx: Ctx, fuel: nat, m: Memory, rest: Ptr, x: Ptr, tl: Ptr, env: int,
                 m1: Memory, v: Ptr, m2: Memory, w: Ptr)
    requires fuel > 0 && rest.tag == Cons && LoadPair(m, rest.raw) == Some(Pair(x, tl))
    requires Eval(ctx, fuel - 1, m, x, env) == Ok(m1, v)
    ensures v.tag == Err ==> EvalList(ctx, fuel, m, rest, env) == Ok(m1, v)
    ensures v.tag != Err && EvalList(ctx, fuel - 1, m1, tl, env) == Ok(m2, w) ==>
      var r := EvalList(ctx, fuel, m, rest, env);
      if w.tag == Err then r == Ok(m2, w)
      else r.Ok? && Appended(m2, r.mem) && r.out.tag == Cons && LoadPair(r.mem, r.out.raw) == Some(Pair(v, w))
  {
    assert LoadCell(m, rest) == Ok(m, Pair(x, tl));
  }

  /** A proper list of literals evaluates to a list of the same elements. */
  lemma {:induction false} ListOfLiterals(ctx: Ctx, fuel: nat, m: Memory, rest: Ptr, xs: seq<Ptr>, env: int)
    returns (m': Memory, vs: Ptr)
    requires IsList(m, rest, xs) && Literals(xs) && fuel > |xs| + 1
    ensures EvalList(ctx, fuel, m, rest, env) == Ok(m', vs) && Extends(m, m') && IsList(m', vs, xs)
    decreases |xs|
  {
    if xs == [] {
      m', vs := m, rest;
    } else {
      var c := LoadPair(m, rest.raw).value;
      LiteralsTail(xs);
      var f := fuel - 1;
      var tl := c.snd;
      var m2, w := ListOfLiterals(ctx, f, m, tl, xs[1..], env);
      m', vs := LiteralCell(ctx, fuel, f, m, rest, xs[0], tl, xs[1..], env, m2, w);
      assert [xs[0]] + xs[1..] == xs;
    }
  }

  lemma LiteralsTail(xs: seq<Ptr>)
    requires Literals(xs) && xs != []
    ensures SelfEvaluating(xs[0].tag) && xs[0].tag != Err && Literals(xs[1..])
  {
    forall i | 0 <= i < |xs| - 1 ensures SelfEvaluating(xs[1..][i].tag) && xs[1..][i].tag != Err {
      assert xs[1..][i] == xs[i + 1];
    }
  }

  /** One cell of a list of literals: the literal in front of the list of the tail's values. */
  lemma LiteralCell(ctx: Ctx, fuel: nat, f: nat, m: Memory, rest: Ptr, x: Ptr, tl: Ptr, ys: seq<Ptr>, env: int,
                    m2: Memory, w: Ptr)
    returns (m': Memory, vs: Ptr)
    requires fuel == f + 1 && f > 0 && rest.tag == Cons && LoadPair(m, rest.raw) == Some(Pair(x, tl))
    requires SelfEvaluating(x.tag) && x.tag != Err
    requires EvalList(ctx, f, m, tl, env) == Ok(m2, w) && IsList(m2, w, ys) && Extends(m, m2)
    ensures EvalList(ctx, fuel, m, rest, env) == Ok(m', vs) && Extends(m, m') && IsList(m', vs, [x] + ys)
  {
    EvalSelf(ctx, fuel - 1, m, x, env);
    assert w.tag != Err;
    ListStep(ctx, fuel, m, rest, x, tl, env, m, x, m2, w);
    var r := EvalList(ctx, fuel, m, rest, env);
    m', vs := r.mem, r.out;
    ListStable(m2, m', w, ys);
    assert ([x] + ys)[1..] == ys;
  }

  /**
   * `begin` of a cell `(x . tl)`: the value of `x` when it is an error or
   * the last expression, and otherwise `begin` of `tl` in the grown memory.
   */
  lemma BeginStep(ctx: Ctx, fuel: nat, m: Memory, rest: Ptr, x: Ptr, tl: Ptr, env: int, m1: Memory, v: Ptr)
    requires fuel > 0 && rest.tag == Cons && LoadPair(m, rest.raw) == Some(Pair(x, tl))
    requires Eval(ctx, fuel - 1, m, x, env) == Ok(m1, v)
    ensures EvalBegin(ctx, fuel, m, rest, env)
      == if v.tag == Err || tl.tag == Nil then Ok(m1, v) else EvalBegin(ctx, fuel - 1, m1, tl, env)
  {
    assert LoadCell(m, rest) == Ok(m, Pair(x, tl));
  }

  /** `begin` of literals is the last of them, memory untouched; `(begin)` is `nil`. */
  lemma {:induction false} BeginLiterals(ctx: Ctx, fuel: nat, m: Memory, rest: Ptr, xs: seq<Ptr>, env: int)
    requires IsList(m, rest, xs) && Literals(xs) && fuel > |xs| + 1
    ensures EvalBegin(ctx, fuel, m, rest, env) == if xs == [] then Ok(m, rest) else Ok(m, xs[|xs| - 1])
    decreases |xs|
  {
    if xs != [] {
      var f := fuel - 1;
      var tl := LoadPair(m, rest.raw).value.snd;
      LiteralsTail(xs);
      if |xs| > 1 {
        BeginLiterals(ctx, f, m, tl, xs[1..], env);
      }
      LiteralBegin(ctx, fuel, f, m, rest, xs[0], tl, xs[|xs| - 1], env);
    }
  }

  /** `begin` of a literal `x` followed by `tl`: `x` if it is the last, else the value `y` of `begin` of `tl`. */
  lemma LiteralBegin(ctx: Ctx, fuel: nat, f: nat, m: Memory, rest: Ptr, x: Ptr, tl: Ptr, y: Ptr, env: int)
    requires fuel == f + 1 && f > 0 && rest.tag == Cons && LoadPair(m, rest.raw) == Some(Pair(x, tl))
    requires SelfEvaluating(x.tag) && x.tag != Err
    requires tl.tag != Nil ==> EvalBegin(ctx, f, m, tl, env) == Ok(m, y)
    ensures EvalBegin(ctx, fuel, m, rest, env) == Ok(m, if tl.tag == Nil then x else y)
  {
    EvalSelf(ctx, fuel - 1, m, x, env);
    BeginStep(ctx, fuel, m, rest, x, tl, env, m, x);
  }

  /**
   * `let` without bindings is `begin` of its body. A binding list that is
   * not a list, a first binding that is not a list or has nothing after its
   * variable, or a binding `(x e f …)` is `InvalidForm`; a variable that is
   * not a symbol is `IllegalBindingVar`.
   */
  lemma LetShapes(ctx: Ctx, fuel: nat, m: Memory, binds: Ptr, body: Ptr, env: int)
    requires fuel > 0
    ensures binds.tag == Nil ==> EvalLet(ctx, fuel, m, binds, body, env) == EvalBegin(ctx, fuel - 1, m, body, env)
    ensures binds.tag != Nil && binds.tag != Cons ==> EvalLet(ctx, fuel, m, binds, body, env) == Ok(m, Error(InvalidForm))
    ensures binds.tag == Cons && LoadPair(m, binds.raw).Some? ==>
      var c := LoadPair(m, binds.raw).value;
      (c.fst.tag != Cons ==> EvalLet(ctx, fuel, m, binds, body, env) == Ok(m, Error(InvalidForm)))
      && (c.fst.tag == Cons && LoadPair(m, c.fst.raw).Some? ==>
            var b := LoadPair(m, c.fst.raw).value;
            (b.snd.tag != Cons ==> EvalLet(ctx, fuel, m, binds, body, env) == Ok(m, Error(InvalidForm)))
            && (b.snd.tag == Cons && !SymLike(b.fst.tag) ==>
                  EvalLet(ctx, fuel, m, binds, body, env) == Ok(m, Error(IllegalBindingVar)))
            && (b.snd.tag == Cons && SymLike(b.fst.tag) && LoadPair(m, b.snd.raw).Some?
                && LoadPair(m, b.snd.raw).value.snd.tag != Nil ==>
                  EvalLet(ctx, fuel, m, binds, body, env) == Ok(m, Error(InvalidForm))))
  {
  }

  /**
   * A well-formed first binding `(x e)`: the value `v` of `e` under `env`
   * is bound to `x` in front of `env`, and the remaining bindings, or the
   * body when none remain, are evaluated in the env so extended.
   */
  lemma LetStep(ctx: Ctx, fuel: nat, m: Memory, binds: Ptr, body: Ptr, env: int, bind: Ptr, more: Ptr,
                x: Ptr, e: Ptr, m1: Memory, v: Ptr, d: seq<int>, bs: seq<Binding>)
    requires fuel > 0 && binds.tag == Cons && LoadPair(m, binds.raw) == Some(Pair(bind, more))
    requires IsList(m, bind, [x, e]) && SymLike(x.tag) && Eval(ctx, fuel - 1, m, e, env) == Ok(m1, v)
    ensures v.tag == Err ==> EvalLet(ctx, fuel, m, binds, body, env) == Ok(m1, v)
    ensures v.tag != Err ==>
      var ext := StoreTriple(m1, x, v, env);
      EvalLet(ctx, fuel, m, binds, body, env)
      == if more.tag != Nil then EvalLet(ctx, fuel - 1, ext.mem, more, body, ext.ptr)
         else EvalBegin(ctx, fuel - 1, ext.mem, body, ext.ptr)
    ensures Chain(m1, env, bs) && LoadDigest(m1, x.raw) == Some(d) ==>
      var ext := StoreTriple(m1, x, v, env);
      Chain(ext.mem, ext.ptr, [Binding(x.tag, d, v)] + bs)
  {
    ListTwo(m, bind, x, e);
    var b := LoadPair(m, bind.raw).value;
    assert LoadCell(m, binds) == Ok(m, Pair(bind, more));
    assert LoadCell(m, bind) == Ok(m, b);
    assert LoadCell(m, b.snd) == Ok(m, LoadPair(m, b.snd.raw).value);
    if Chain(m1, env, bs) && LoadDigest(m1, x.raw) == Some(d) {
      Push(m1, x, d, v, env, bs);
    }
  }

  /** Every successful outcome of `eval_letrec_bindings` is the env `initEnv` itself or an error. */
  lemma {:induction false} LetrecBindingsOutcome(ctx: Ctx, fuel: nat, m: Memory, initEnv: int, extEnv: int)
    ensures var r := EvalLetrecBindings(ctx, fuel, m, initEnv, extEnv);
      r.Ok? ==> r.out == Ptr(Env, initEnv) || r.out.tag == Err
    decreases fuel
  {
    if fuel > 0 && extEnv != initEnv && LoadTriple(m, extEnv).Some? {
      var node := LoadTriple(m, extEnv).value;
      var f := fuel - 1;
      var v := Eval(ctx, f, m, node.snd, 0);
      if node.snd.tag == Fix && v.Ok? && v.out.tag != Err {
        LetrecBindingsOutcome(ctx, f, v.mem, initEnv, node.env);
      }
    }
  }

  /**
   * One node of the letrec env: the stop at `initEnv`, a node that does not
   * bind a fixed point halts, and otherwise the fixed point is evaluated
   * under the empty env and the walk goes on, unless it is an error.
   */
  lemma LetrecBindingsStep(ctx: Ctx, fuel: nat, m: Memory, initEnv: int, extEnv: int, node: Triple, m1: Memory, v: Ptr)
    requires fuel > 0 && extEnv != initEnv && LoadTriple(m, extEnv) == Some(node)
    ensures node.snd.tag != Fix ==> EvalLetrecBindings(ctx, fuel, m, initEnv, extEnv) == Halt(Panic)
    ensures node.snd.tag == Fix && Eval(ctx, fuel - 1, m, node.snd, 0) == Ok(m1, v) ==>
      EvalLetrecBindings(ctx, fuel, m, initEnv, extEnv)
      == if v.tag == Err then Ok(m1, v) else EvalLetrecBindings(ctx, fuel - 1, m1, initEnv, node.env)
  {
  }

  /**
   * `letrec` once its env `e` is built: the fixed points bound in it are
   * evaluated, and without error the body runs in `e`.
   */
  lemma LetrecStep(ctx: Ctx, fuel: nat, m: Memory, binds: Ptr, body: Ptr, env: int, m1: Memory, e: Ptr, m2: Memory, c: Ptr)
    requires fuel > 0 && ExtendEnvWithMutuals(fuel - 1, m, binds, binds.raw, env, env) == Ok(m1, e) && e.tag == Env
    requires EvalLetrecBindings(ctx, fuel - 1, m1, env, e.raw) == Ok(m2, c)
    ensures EvalLetrec(ctx, fuel, m, binds, body, env)
      == if c.tag == Err then Ok(m2, c) else EvalBegin(ctx, fuel - 1, m2, body, e.raw)
  {
  }

  /**
   * `letrec` over a well-formed binding list: the env binding each variable
   * to its fixed point is built in front of `env`; once evaluating those
   * fixed points gives no error, the body runs in that env.
   */
  lemma LetrecBody(ctx: Ctx, fuel: nat, m: Memory, binds: Ptr, body: Ptr, env: int, ps: seq<Mutual>, m2: Memory, c: Ptr)
    requires fuel > |ps| + 1 && MutualList(m, binds, ps)
    ensures var ext := ExtendEnvWithMutuals(fuel - 1, m, binds, binds.raw, env, env);
      ext.Ok? && ext.out.tag == Env && FixChain(ext.mem, ext.out.raw, Reverse(ps), binds.raw, env, env)
    ensures var ext := ExtendEnvWithMutuals(fuel - 1, m, binds, binds.raw, env, env);
      ext.Ok? && EvalLetrecBindings(ctx, fuel - 1, ext.mem, env, ext.out.raw) == Ok(m2, c) ==>
      EvalLetrec(ctx, fuel, m, binds, body, env)
      == if c.tag == Err then Ok(m2, c) else EvalBegin(ctx, fuel - 1, m2, body, ext.out.raw)
  {
    var f := fuel - 1;
    LetrecEnv(f, m, binds, ps, env);
    var ext := ExtendEnvWithMutuals(f, m, binds, binds.raw, env, env);
    if EvalLetrecBindings(ctx, f, ext.mem, env, ext.out.raw) == Ok(m2, c) {
      LetrecStep(ctx, fuel, m, binds, body, env, ext.mem, ext.out, m2, c);
    }
  }

  /** An error building the letrec env is the value of the form. */
  lemma LetrecEnvError(ctx: Ctx, fuel: nat, m: Memory, binds: Ptr, body: Ptr, env: int, m1: Memory, e: Ptr)
    requires fuel > 0 && ExtendEnvWithMutuals(fuel - 1, m, binds, binds.raw, env, env) == Ok(m1, e) && e.tag == Err
    ensures EvalLetrec(ctx, fuel, m, binds, body, env) == Ok(m1, e)
  {
  }

  /**
   * A binding of a `letrec`, after well-formed ones, whose variable is not
   * a symbol makes the form `IllegalBindingVar`.
   */
  lemma LetrecIllegalVar(ctx: Ctx, fuel: nat, m: Memory, binds: Ptr, body: Ptr, env: int, ps: seq<Mutual>, tail: Ptr)
    requires fuel > |ps| + 1 && MutualPrefix(m, binds, ps, tail) && IllegalFirst(m, tail)
    ensures var r := EvalLetrec(ctx, fuel, m, binds, body, env); r.Ok? && r.out == Error(IllegalBindingVar)
  {
    var f := fuel - 1;
    IllegalVar(f, m, binds, ps, tail, binds.raw, env, env);
    var ext := ExtendEnvWithMutuals(f, m, binds, binds.raw, env, env);
    LetrecEnvError(ctx, fuel, m, binds, body, env, ext.mem, ext.out);
  }

  /** A malformed binding of a `letrec`, after well-formed ones, makes the form `InvalidForm`. */
  lemma LetrecMalformed(ctx: Ctx, fuel: nat, m: Memory, binds: Ptr, body: Ptr, env: int, ps: seq<Mutual>, tail: Ptr)
    requires fuel > |ps| + 1 && MutualPrefix(m, binds, ps, tail) && Malformed(m, tail)
    ensures var r := EvalLetrec(ctx, fuel, m, binds, body, env); r.Ok? && r.out == Error(InvalidForm)
  {
    var f := fuel - 1;
    MalformedBinding(f, m, binds, ps, tail, binds.raw, env, env);
    var ext := ExtendEnvWithMutuals(f, m, binds, binds.raw, env, env);
    LetrecEnvError(ctx, fuel, m, binds, body, env, ext.mem, ext.out);
  }

  /** `bind` takes exactly three arguments. */
  lemma BindArity(ctx: Ctx, fuel: nat, m: Memory, rest: Ptr, xs: seq<Ptr>, env: int)
    requires fuel > 0 && IsList(m, rest, xs) && |xs| != 3
    ensures EvalBindBuiltin(ctx, fuel, m, rest, env) == Ok(m, Error(InvalidForm))
  {
    ExactlyList(m, rest, xs, 3);
  }

  /**
   * `(bind a b t)`: the value `x` of `a` must be a symbol, else it is
   * `IllegalBindingVar` (or the error `x` is); an error value of `b` is
   * the result.
   */
  lemma BindVar(ctx: Ctx, fuel: nat, m: Memory, rest: Ptr, a: Ptr, b: Ptr, t: Ptr, env: int,
                m1: Memory, x: Ptr, m2: Memory, v: Ptr)
    requires fuel > 0 && IsList(m, rest, [a, b, t]) && Eval(ctx, fuel - 1, m, a, env) == Ok(m1, x)
    ensures !SymLike(x.tag) ==>
      EvalBindBuiltin(ctx, fuel, m, rest, env) == if x.tag == Err then Ok(m1, x) else Ok(m1, Error(IllegalBindingVar))
    ensures SymLike(x.tag) && Eval(ctx, fuel - 1, m1, b, env) == Ok(m2, v) && v.tag == Err ==>
      EvalBindBuiltin(ctx, fuel, m, rest, env) == Ok(m2, v)
  {
    ExactlyList(m, rest, [a, b, t], 3);
  }

  /**
   * `(bind a b t)` with a symbol `x` and a value `v`: the value `e` of `t`
   * must be an env, else `NotEnv` (or the error `e` is), and the result is
   * the env binding `x` to `v` in front of `e`.
   */
  lemma BindValues(ctx: Ctx, fuel: nat, m: Memory, rest: Ptr, a: Ptr, b: Ptr, t: Ptr, env: int,
                   m1: Memory, x: Ptr, m2: Memory, v: Ptr, m3: Memory, e: Ptr)
    requires fuel > 0 && IsList(m, rest, [a, b, t]) && Eval(ctx, fuel - 1, m, a, env) == Ok(m1, x) && SymLike(x.tag)
    requires Eval(ctx, fuel - 1, m1, b, env) == Ok(m2, v) && v.tag != Err
    requires Eval(ctx, fuel - 1, m2, t, env) == Ok(m3, e)
    ensures var r := EvalBindBuiltin(ctx, fuel, m, rest, env);
      (e.tag == Err ==> r == Ok(m3, e))
      && (e.tag != Err && e.tag != Env ==> r == Ok(m3, Error(NotEnv)))
      && (e.tag == Env ==> r.Ok? && r.out.tag == Env && Appended(m3, r.mem)
                           && LoadTriple(r.mem, r.out.raw) == Some(Triple(x, v, e.raw)))
  {
    ExactlyList(m, rest, [a, b, t], 3);
  }

  /** The env `bind` returns extends the bindings of its env argument by one in front. */
  lemma BindChain(ctx: Ctx, fuel: nat, m: Memory, rest: Ptr, a: Ptr, b: Ptr, t: Ptr, env: int,
                  m1: Memory, x: Ptr, m2: Memory, v: Ptr, m3: Memory, e: Ptr, d: seq<int>, bs: seq<Binding>)
    requires fuel > 0 && IsList(m, rest, [a, b, t]) && Eval(ctx, fuel - 1, m, a, env) == Ok(m1, x) && SymLike(x.tag)
    requires Eval(ctx, fuel - 1, m1, b, env) == Ok(m2, v) && v.tag != Err
    requires Eval(ctx, fuel - 1, m2, t, env) == Ok(m3, e) && e.tag == Env
    requires Chain(m3, e.raw, bs) && LoadDigest(m3, x.raw) == Some(d)
    ensures var r := EvalBindBuiltin(ctx, fuel, m, rest, env);
      r.Ok? && r.out.tag == Env && Chain(r.mem, r.out.raw, [Binding(x.tag, d, v)] + bs)
  {
    BindValues(ctx, fuel, m, rest, a, b, t, env, m1, x, m2, v, m3, e);
    var r := EvalBindBuiltin(ctx, fuel, m, rest, env);
    NodeChain(m3, r.mem, r.out.raw, x, d, v, e.raw, bs);
  }

  /** A stored node `(x, v, env)` binds `x` to `v` in front of the bindings of `env`. */
  lemma NodeChain(m: Memory, m': Memory, p: int, x: Ptr, d: seq<int>, v: Ptr, env: int, bs: seq<Binding>)
    requires Chain(m, env, bs) && LoadDigest(m, x.raw) == Some(d)
    requires Extends(m, m') && LoadTriple(m', p) == Some(Triple(x, v, env))
    ensures Chain(m', p, [Binding(x.tag, d, v)] + bs)
  {
    ChainStable(m, m', env, bs);
    DigestStable(m, m', x.raw);
    assert ([Binding(x.tag, d, v)] + bs)[1..] == bs;
  }

  /** `(env)` is the empty env; an improper argument list is `InvalidForm`. */
  lemma EnvBuiltinEnds(ctx: Ctx, fuel: nat, m: Memory, rest: Ptr, env: int)
    requires fuel > 0 && rest.tag != Cons
    ensures EvalEnvBuiltin(ctx, fuel, m, rest, env) == if rest.tag == Nil then Ok(m, Ptr(Env, 0)) else Ok(m, Error(InvalidForm))
  {
  }

  /**
   * `env` of a cell `(h . tl)`: the value `v` of `h` must be a pair, else
   * `NotCons` (or the error `v` is), whose first half is a symbol, else
   * `IllegalBindingVar`; the env of `tl`, an error passed through, gets
   * that binding in front.
   */
  lemma EnvBuiltinStep(ctx: Ctx, fuel: nat, m: Memory, rest: Ptr, h: Ptr, tl: Ptr, env: int,
                       m1: Memory, v: Ptr, m2: Memory, t: Ptr)
    requires fuel > 0 && rest.tag == Cons && LoadPair(m, rest.raw) == Some(Pair(h, tl))
    requires Eval(ctx, fuel - 1, m, h, env) == Ok(m1, v)
    ensures v.tag != Cons ==>
      EvalEnvBuiltin(ctx, fuel, m, rest, env) == if v.tag == Err then Ok(m1, v) else Ok(m1, Error(NotCons))
    ensures v.tag == Cons && LoadPair(m1, v.raw).Some? && !SymLike(LoadPair(m1, v.raw).value.fst.tag) ==>
      EvalEnvBuiltin(ctx, fuel, m, rest, env) == Ok(m1, Error(IllegalBindingVar))
    ensures v.tag == Cons && LoadPair(m1, v.raw).Some? && SymLike(LoadPair(m1, v.raw).value.fst.tag)
            && EvalEnvBuiltin(ctx, fuel - 1, m1, tl, env) == Ok(m2, t) ==>
      var b := LoadPair(m1, v.raw).value;
      var r := EvalEnvBuiltin(ctx, fuel, m, rest, env);
      (t.tag == Err ==> r == Ok(m2, t))
      && (t.tag == Env ==> r.Ok? && r.out.tag == Env && Appended(m2, r.mem)
                           && LoadTriple(r.mem, r.out.raw) == Some(Triple(b.fst, b.snd, t.raw)))
  {
    assert LoadCell(m, rest) == Ok(m, Pair(h, tl));
    if v.tag == Cons && LoadPair(m1, v.raw).Some? {
      assert LoadCell(m1, v) == Ok(m1, LoadPair(m1, v.raw).value);
    }
  }

  /** Every successful outcome of `env` is an env or an error: the arm that halts on anything else is never taken. */
  lemma {:induction false} EnvBuiltinOutcome(ctx: Ctx, fuel: nat, m: Memory, rest: Ptr, env: int)
    ensures var r := EvalEnvBuiltin(ctx, fuel, m, rest, env); r.Ok? ==> r.out.tag == Env || r.out.tag == Err
    decreases fuel
  {
    if fuel > 0 && rest.tag == Cons && LoadPair(m, rest.raw).Some? {
      var c := LoadPair(m, rest.raw).value;
      var f := fuel - 1;
      var h := Eval(ctx, f, m, c.fst, env);
      if h.Ok? && h.out.tag == Cons && LoadPair(h.mem, h.out.raw).Some? {
        EnvBuiltinOutcome(ctx, f, h.mem, c.snd, env);
      }
    }
  }

  /** The values of an env literal's bindings: symbols bound to literals. */
  predicate LiteralBindings(bs: seq<Binding>)
  {
    forall i :: 0 <= i < |bs| ==> SymLike(bs[i].tag) && SelfEvaluating(bs[i].val.tag) && bs[i].val.tag != Err
  }

  /**
   * An env literal node binding `y` to `e`: `y` must be a symbol, else
   * `IllegalBindingVar`; the value `v` of `e` and the evaluated rest `t` of
   * the literal, errors passed through, make the env binding `y` to `v` in
   * front of `t`.
   */
  lemma EnvLiteralStep(ctx: Ctx, fuel: nat, m: Memory, lit: int, env: int, node: Triple,
                       m1: Memory, v: Ptr, m2: Memory, t: Ptr)
    requires fuel > 0 && lit != 0 && LoadTriple(m, lit) == Some(node)
    ensures !SymLike(node.fst.tag) ==> EvalEnvLiteral(ctx, fuel, m, lit, env) == Ok(m, Error(IllegalBindingVar))
    ensures SymLike(node.fst.tag) && Eval(ctx, fuel - 1, m, node.snd, env) == Ok(m1, v) && v.tag == Err ==>
      EvalEnvLiteral(ctx, fuel, m, lit, env) == Ok(m1, v)
    ensures SymLike(node.fst.tag) && Eval(ctx, fuel - 1, m, node.snd, env) == Ok(m1, v) && v.tag != Err
            && EvalEnvLiteral(ctx, fuel - 1, m1, node.env, env) == Ok(m2, t) ==>
      var r := EvalEnvLiteral(ctx, fuel, m, lit, env);
      (t.tag == Err ==> r == Ok(m2, t))
      && (t.tag == Env ==> r.Ok? && r.out.tag == Env && Appended(m2, r.mem)
                           && LoadTriple(r.mem, r.out.raw) == Some(Triple(node.fst, v, t.raw)))
  {
  }

  /** An env literal binding symbols to literals evaluates to an env with the same bindings. */
  lemma {:induction false} EnvLiteralOfLiterals(ctx: Ctx, fuel: nat, m: Memory, lit: int, bs: seq<Binding>, env: int)
    returns (m': Memory, p: int)
    requires Chain(m, lit, bs) && LiteralBindings(bs) && fuel > |bs| + 1
    ensures EvalEnvLiteral(ctx, fuel, m, lit, env) == Ok(m', Ptr(Env, p)) && Extends(m, m') && Chain(m', p, bs)
    decreases |bs|
  {
    if bs == [] {
      m', p := m, 0;
    } else {
      var node := LoadTriple(m, lit).value;
      var f := fuel - 1;
      assert LiteralBindings(bs[1..]) by {
        forall i | 0 <= i < |bs| - 1
          ensures SymLike(bs[1..][i].tag) && SelfEvaluating(bs[1..][i].val.tag) && bs[1..][i].val.tag != Err {
          assert bs[1..][i] == bs[i + 1];
        }
      }
      var m2, q := EnvLiteralOfLiterals(ctx, f, m, node.env, bs[1..], env);
      m', p := LiteralNode(ctx, fuel, f, m, lit, env, node, bs[0], bs[1..], m2, q);
      assert [bs[0]] + bs[1..] == bs;
    }
  }

  /** One node of an env literal binding a symbol to a literal, in front of the evaluated rest. */
  lemma LiteralNode(ctx: Ctx, fuel: nat, f: nat, m: Memory, lit: int, env: int, node: Triple, b: Binding,
                    bs: seq<Binding>, m2: Memory, q: int)
    returns (m': Memory, p: int)
    requires fuel == f + 1 && f > 0 && lit != 0 && LoadTriple(m, lit) == Some(node)
    requires node.fst.tag == b.tag && LoadDigest(m, node.fst.raw) == Some(b.digest) && node.snd == b.val
    requires SymLike(b.tag) && SelfEvaluating(b.val.tag) && b.val.tag != Err
    requires EvalEnvLiteral(ctx, f, m, node.env, env) == Ok(m2, Ptr(Env, q)) && Extends(m, m2) && Chain(m2, q, bs)
    ensures EvalEnvLiteral(ctx, fuel, m, lit, env) == Ok(m', Ptr(Env, p)) && Extends(m, m') && Chain(m', p, [b] + bs)
  {
    EvalSelf(ctx, fuel - 1, m, node.snd, env);
    EnvLiteralStep(ctx, fuel, m, lit, env, node, m, b.val, m2, Ptr(Env, q));
    var r := EvalEnvLiteral(ctx, fuel, m, lit, env);
    m', p := r.mem, r.out.raw;
    DigestStable(m, m2, node.fst.raw);
    NodeChain(m2, m', p, node.fst, b.digest, b.val, q, bs);
  }

  /**
   * A closure without parameters runs its body in its own env; the value,
   * unless an error, is the result when no arguments are left, is applied
   * to the arguments when they are a list, and otherwise `ArgsNotList`.
   */
  lemma ThunkStep(ctx: Ctx, fuel: nat, m: Memory, head: Ptr, args: Ptr, env: int, clo: Triple, m1: Memory, b: Ptr)
    requires fuel > 0 && head.tag == Fun && LoadTriple(m, head.raw) == Some(clo) && clo.fst.tag == Nil
    requires EvalBegin(ctx, fuel - 1, m, clo.snd, clo.env) == Ok(m1, b)
    ensures Apply(ctx, fuel, m, head, args, env)
      == if b.tag == Err || args.tag == Nil then Ok(m1, b)
         else if args.tag == Cons then Apply(ctx, fuel - 1, m1, b, args, env)
         else Ok(m1, Error(ArgsNotList))
  {
  }

  /**
   * A closure whose parameters are a list cell `(p . more)`: `&rest` is
   * handled by `ApplyRest`, any other first parameter by `BindArg`; a
   * parameter list that is neither `nil` nor a cell is `ParamsNotList`.
   */
  lemma ApplyParams(ctx: Ctx, fuel: nat, m: Memory, head: Ptr, args: Ptr, env: int, clo: Triple)
    requires fuel > 0 && head.tag == Fun && LoadTriple(m, head.raw) == Some(clo) && clo.fst.tag != Nil
    ensures clo.fst.tag != Cons ==> Apply(ctx, fuel, m, head, args, env) == Ok(m, Error(ParamsNotList))
    ensures clo.fst.tag == Cons && LoadPair(m, clo.fst.raw).Some? ==>
      var q := LoadPair(m, clo.fst.raw).value;
      Apply(ctx, fuel, m, head, args, env)
      == if SymLike(q.fst.tag) && q.fst.raw == ctx.syms.rest then ApplyRest(ctx, fuel - 1, m, q.snd, clo.snd, clo.env, args, env)
         else BindArg(ctx, fuel - 1, m, head, q.fst, q.snd, clo.snd, clo.env, args, env)
  {
    if clo.fst.tag == Cons && LoadPair(m, clo.fst.raw).Some? {
      assert LoadCell(m, clo.fst) == Ok(m, LoadPair(m, clo.fst.raw).value);
    }
  }

  /**
   * An ordinary parameter: no arguments left gives the closure back, an
   * improper argument list is `ArgsNotList`, and a parameter that is not a
   * symbol is `IllegalBindingVar`.
   */
  lemma BindArgShapes(ctx: Ctx, fuel: nat, m: Memory, head: Ptr, param: Ptr, restParams: Ptr, body: Ptr,
                      funEnv: int, args: Ptr, argsEnv: int)
    requires fuel > 0
    ensures args.tag == Nil ==> BindArg(ctx, fuel, m, head, param, restParams, body, funEnv, args, argsEnv) == Ok(m, head)
    ensures args.tag != Nil && args.tag != Cons ==>
      BindArg(ctx, fuel, m, head, param, restParams, body, funEnv, args, argsEnv) == Ok(m, Error(ArgsNotList))
    ensures args.tag == Cons && LoadPair(m, args.raw).Some? && !SymLike(param.tag) ==>
      BindArg(ctx, fuel, m, head, param, restParams, body, funEnv, args, argsEnv) == Ok(m, Error(IllegalBindingVar))
  {
  }

  /**
   * The first argument `a` of `(a . more)` bound to a symbol parameter:
   * its value `v` under `argsEnv`, unless an error, is bound to `param` in
   * front of the closure's env, and the closure over the remaining
   * parameters in that env is applied to `more`.
   */
  lemma ArgBound(ctx: Ctx, fuel: nat, m: Memory, head: Ptr, param: Ptr, restParams: Ptr, body: Ptr,
                 funEnv: int, args: Ptr, argsEnv: int, a: Ptr, more: Ptr, m1: Memory, v: Ptr)
    requires fuel > 0 && args.tag == Cons && LoadPair(m, args.raw) == Some(Pair(a, more)) && SymLike(param.tag)
    requires Eval(ctx, fuel - 1, m, a, argsEnv) == Ok(m1, v)
    ensures v.tag == Err ==> BindArg(ctx, fuel, m, head, param, restParams, body, funEnv, args, argsEnv) == Ok(m1, v)
    ensures v.tag != Err ==>
      var ext := StoreTriple(m1, param, v, funEnv);
      var clo := StoreTriple(ext.mem, restParams, body, ext.ptr);
      BindArg(ctx, fuel, m, head, param, restParams, body, funEnv, args, argsEnv)
      == Apply(ctx, fuel - 1, clo.mem, Ptr(Fun, clo.ptr), more, argsEnv)
  {
    assert LoadCell(m, args) == Ok(m, Pair(a, more));
  }

  /**
   * `&rest x`: the list `vs` of the values of all the arguments, unless an
   * error, is bound to `x` in front of the closure's env, and the closure
   * over what follows `x` in that env is applied to no arguments.
   */
  lemma RestBound(ctx: Ctx, fuel: nat, m: Memory, restParams: Ptr, body: Ptr, funEnv: int, args: Ptr, argsEnv: int,
                  x: Ptr, after: Ptr, m1: Memory, vs: Ptr)
    requires fuel > 0 && restParams.tag == Cons && LoadPair(m, restParams.raw) == Some(Pair(x, after))
    requires SymLike(x.tag) && after.tag == Nil && EvalList(ctx, fuel - 1, m, args, argsEnv) == Ok(m1, vs)
    ensures vs.tag == Err ==> ApplyRest(ctx, fuel, m, restParams, body, funEnv, args, argsEnv) == Ok(m1, vs)
    ensures vs.tag != Err ==>
      var ext := StoreTriple(m1, x, vs, funEnv);
      var clo := StoreTriple(ext.mem, after, body, ext.ptr);
      ApplyRest(ctx, fuel, m, restParams, body, funEnv, args, argsEnv)
      == Apply(ctx, fuel - 1, clo.mem, Ptr(Fun, clo.ptr), NilPtr(ctx), argsEnv)
  {
    assert LoadCell(m, restParams) == Ok(m, Pair(x, after));
  }

  /**
   * The env a bound parameter's closure runs in: the stored node binds the
   * parameter to its value in front of the bindings of the closure's env.
   */
  lemma BoundEnv(m1: Memory, param: Ptr, v: Ptr, funEnv: int, restParams: Ptr, body: Ptr, d: seq<int>, bs: seq<Binding>)
    requires Chain(m1, funEnv, bs) && LoadDigest(m1, param.raw) == Some(d)
    ensures var ext := StoreTriple(m1, param, v, funEnv);
      var clo := StoreTriple(ext.mem, restParams, body, ext.ptr);
      LoadTriple(clo.mem, clo.ptr) == Some(Triple(restParams, body, ext.ptr))
      && Chain(clo.mem, ext.ptr, [Binding(param.tag, d, v)] + bs)
  {
    var ext := StoreTriple(m1, param, v, funEnv);
    var clo := StoreTriple(ext.mem, restParams, body, ext.ptr);
    Push(m1, param, d, v, funEnv, bs);
    ChainStable(ext.mem, clo.mem, ext.ptr, [Binding(param.tag, d, v)] + bs);
  }

  /**
   * `((lambda (x) . body) a)` with a literal `a`: the body runs, for the
   * closure's own env `bs`, in the env binding `x` to `a` in front of `bs`.
   */
  lemma ApplyOne(ctx: Ctx, fuel: nat, m: Memory, head: Ptr, args: Ptr, env: int, clo: Triple, x: Ptr, nil: Ptr,
                 a: Ptr, d: seq<int>, bs: seq<Binding>)
    requires fuel > 3 && head.tag == Fun && LoadTriple(m, head.raw) == Some(clo)
    requires clo.fst.tag == Cons && LoadPair(m, clo.fst.raw) == Some(Pair(x, nil)) && nil.tag == Nil
    requires SymLike(x.tag) && x.raw != ctx.syms.rest
    requires IsList(m, args, [a]) && SelfEvaluating(a.tag) && a.tag != Err
    requires Chain(m, clo.env, bs) && LoadDigest(m, x.raw) == Some(d)
    ensures var ext := StoreTriple(m, x, a, clo.env);
      var c := StoreTriple(ext.mem, nil, clo.snd, ext.ptr);
      Apply(ctx, fuel, m, head, args, env) == EvalBegin(ctx, fuel - 3, c.mem, clo.snd, ext.ptr)
      && Chain(c.mem, ext.ptr, [Binding(x.tag, d, a)] + bs)
  {
    var f1 := fuel - 1;
    var f2 := f1 - 1;
    var more := LoadPair(m, args.raw).value.snd;
    assert [a][1..] == [];
    ApplyParams(ctx, fuel, m, head, args, env, clo);
    EvalSelf(ctx, f2, m, a, env);
    ArgBound(ctx, f1, m, head, x, nil, clo.snd, clo.env, args, env, a, more, m, a);
    BoundEnv(m, x, a, clo.env, nil, clo.snd, d, bs);
    var ext := StoreTriple(m, x, a, clo.env);
    var c := StoreTriple(ext.mem, nil, clo.snd, ext.ptr);
    ApplyThunk(ctx, f2, c.mem, Ptr(Fun, c.ptr), more, env, Triple(nil, clo.snd, ext.ptr));
  }
}
