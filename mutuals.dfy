/**
 * The environment of a `letrec`: each binding `(var expr)` of the binding
 * list becomes a fixed point `Fix(expr, bindings, env)` bound to `var`, so
 * that every binding can see all of them when its fixed point is unrolled.
 */
module Mutuals {
  import opened Wrappers
  import opened Tags
  import opened Arena
  import opened Layout

  /**
   * `extend_env_with_mutuals`: walks the binding list `binds`, prepending
   * to `extEnv`, for each `(var expr)`, the binding of `var` to the fixed
   * point of `expr` over the whole list `mutualBinds` and the env
   * `mutualEnv`. A binding that is not a 2-element list is `InvalidForm`,
   * a variable that is not a symbol `IllegalBindingVar`. `fuel` bounds the
   * walk, since a memory could hold a cyclic list.
   */
  function ExtendEnvWithMutuals(fuel: nat, m: Memory, binds: Ptr, mutualBinds: int, mutualEnv: int, extEnv: int): (r: Run<Ptr>)
    ensures r.Ok? ==> Appended(m, r.mem) && (r.out.tag == Env || r.out.tag == Err)
    decreases fuel, 2
  {
    if fuel == 0 then Halt(OutOfFuel)
    else
      match binds.tag
      case Nil => Ok(m, Ptr(Env, extEnv))
      case Cons => ExtendBinding(fuel, m, binds, mutualBinds, mutualEnv, extEnv)
      case _ => Ok(m, Error(InvalidForm))
  }

  /** The step of `extend_env_with_mutuals` for the first binding of a non-empty list: its shape. */
  function ExtendBinding(fuel: nat, m: Memory, binds: Ptr, mutualBinds: int, mutualEnv: int, extEnv: int): (r: Run<Ptr>)
    requires fuel > 0
    ensures r.Ok? ==> Appended(m, r.mem) && (r.out.tag == Env || r.out.tag == Err)
    decreases fuel, 1
  {
    var c :- LoadCell(m, binds);
    if c.out.fst.tag != Cons then Ok(m, Error(InvalidForm))
    else
      var b :- LoadCell(m, c.out.fst);
      if b.out.snd.tag != Cons then Ok(m, Error(InvalidForm))
      else
        var d :- LoadCell(m, b.out.snd);
        if d.out.snd.tag != Nil then Ok(m, Error(InvalidForm))
        else ExtendFix(fuel, m, b.out.fst, d.out.fst, c.out.snd, mutualBinds, mutualEnv, extEnv)
  }

  /** The rest of the step for a binding `(x e)`: `x` must be a symbol, bound to the fixed point of `e`. */
  function ExtendFix(fuel: nat, m: Memory, x: Ptr, e: Ptr, binds: Ptr, mutualBinds: int, mutualEnv: int, extEnv: int): (r: Run<Ptr>)
    requires fuel > 0
    ensures r.Ok? ==> Appended(m, r.mem) && (r.out.tag == Env || r.out.tag == Err)
    decreases fuel, 0
  {
    if SymLike(x.tag) then
      var ext := PushFix(m, x, e, mutualBinds, mutualEnv, extEnv);
      var r := ExtendEnvWithMutuals(fuel - 1, ext.mem, binds, mutualBinds, mutualEnv, ext.ptr);
      if r.Ok? then AppendedTrans(m, ext.mem, r.mem); r else r
    else Ok(m, Error(IllegalBindingVar))
  }

  /** Binds `x` in front of `env` to the fixed point `Fix(e, (Cons, mutualBinds), mutualEnv)`. */
  function PushFix(m: Memory, x: Ptr, e: Ptr, mutualBinds: int, mutualEnv: int, env: int): (s: Stored)
    ensures Appended(m, s.mem)
    ensures FixChain(s.mem, s.ptr, [Mutual(x, e)], mutualBinds, mutualEnv, env)
  {
    var fix := StoreTriple(m, e, Ptr(Cons, mutualBinds), mutualEnv);
    var ext := StoreTriple(fix.mem, x, Ptr(Fix, fix.ptr), env);
    AppendedTrans(m, fix.mem, ext.mem);
    TripleStable(fix.mem, ext.mem, fix.ptr);
    ext
  }

  /** One `(var expr)` binding of a `letrec`. */
  datatype Mutual = Mutual(name: Ptr, expr: Ptr)

  /** `binds` is a proper list of well-formed bindings `ps`, each with a symbol as its variable. */
  predicate MutualList(m: Memory, binds: Ptr, ps: seq<Mutual>)
    decreases |ps|
  {
    if ps == [] then binds.tag == Nil
    else
      binds.tag == Cons && LoadPair(m, binds.raw).Some?
      && var c := LoadPair(m, binds.raw).value;
      IsList(m, c.fst, [ps[0].name, ps[0].expr]) && SymLike(ps[0].name.tag)
      && MutualList(m, c.snd, ps[1..])
  }

  /**
   * `env` starts with bindings of the variables of `ps`, in order, each to
   * the fixed point of its expression over `(mutualBinds, mutualEnv)`, and
   * continues as `tail`.
   */
  predicate FixChain(m: Memory, env: int, ps: seq<Mutual>, mutualBinds: int, mutualEnv: int, tail: int)
    decreases |ps|
  {
    if ps == [] then env == tail
    else
      LoadTriple(m, env).Some?
      && var node := LoadTriple(m, env).value;
      node.fst == ps[0].name && node.snd.tag == Fix
      && LoadTriple(m, node.snd.raw) == Some(Triple(ps[0].expr, Ptr(Cons, mutualBinds), mutualEnv))
      && FixChain(m, node.env, ps[1..], mutualBinds, mutualEnv, tail)
  }

  /** `ps` reversed, in front of `acc`. */
  function RevOnto<A>(ps: seq<A>, acc: seq<A>): (r: seq<A>)
    ensures |r| == |ps| + |acc|
  {
    if ps == [] then acc else RevOnto(ps[1..], [ps[0]] + acc)
  }

  function Reverse<A>(ps: seq<A>): (r: seq<A>)
    ensures |r| == |ps|
  {
    RevOnto(ps, [])
  }

  lemma {:induction false} FixChainStable(m: Memory, m': Memory, env: int, ps: seq<Mutual>, mb: int, me: int, tail: int)
    requires FixChain(m, env, ps, mb, me, tail) && Extends(m, m')
    ensures FixChain(m', env, ps, mb, me, tail)
    decreases |ps|
  {
    if ps != [] {
      var node := LoadTriple(m, env).value;
      TripleStable(m, m', env);
      TripleStable(m, m', node.snd.raw);
      FixChainStable(m, m', node.env, ps[1..], mb, me, tail);
    }
  }

  /**
   * The whole-list effect: on a well-formed binding list `ps`, with enough
   * fuel, the result is an env that binds the variables of `ps` last to
   * first, each to its fixed point over the same `(mutualBinds,
   * mutualEnv)`, in front of `extEnv`. `acc` describes what `extEnv`
   * already starts with.
   */
  lemma {:induction false} ExtendAll(fuel: nat, m: Memory, binds: Ptr, ps: seq<Mutual>, mb: int, me: int,
                                     extEnv: int, acc: seq<Mutual>, base: int)
    requires MutualList(m, binds, ps) && FixChain(m, extEnv, acc, mb, me, base) && fuel > |ps|
    ensures ExtendEnvWithMutuals(fuel, m, binds, mb, me, extEnv).Ok?
    ensures var r := ExtendEnvWithMutuals(fuel, m, binds, mb, me, extEnv);
      r.out.tag == Env && FixChain(r.mem, r.out.raw, RevOnto(ps, acc), mb, me, base)
    decreases |ps|
  {
    if ps != [] {
      var c := LoadPair(m, binds.raw).value;
      var ext := PushFix(m, ps[0].name, ps[0].expr, mb, me, extEnv);
      var f := fuel - 1;
      assert MutualList(ext.mem, c.snd, ps[1..]) by {
        ExtendStep(fuel, f, m, binds, ps, mb, me, extEnv);
        MutualListStable(m, ext.mem, c.snd, ps[1..]);
      }
      assert FixChain(ext.mem, ext.ptr, [ps[0]] + acc, mb, me, base) by {
        FixChainStable(m, ext.mem, extEnv, acc, mb, me, base);
        FixChainCons(ext.mem, ext.ptr, ps[0], extEnv, acc, mb, me, base);
      }
      ExtendAll(f, ext.mem, c.snd, ps[1..], mb, me, ext.ptr, [ps[0]] + acc, base);
      ExtendStep(fuel, f, m, binds, ps, mb, me, extEnv);
    } else {
      assert ExtendEnvWithMutuals(fuel, m, binds, mb, me, extEnv) == Ok(m, Ptr(Env, extEnv));
    }
  }

  /** One step of the walk over a well-formed binding list. */
  lemma ExtendStep(fuel: nat, f: nat, m: Memory, binds: Ptr, ps: seq<Mutual>, mb: int, me: int, extEnv: int)
    requires fuel == f + 1 && ps != [] && MutualList(m, binds, ps)
    ensures MutualList(m, LoadPair(m, binds.raw).value.snd, ps[1..])
    ensures var ext := PushFix(m, ps[0].name, ps[0].expr, mb, me, extEnv);
      ExtendEnvWithMutuals(fuel, m, binds, mb, me, extEnv)
      == ExtendEnvWithMutuals(f, ext.mem, LoadPair(m, binds.raw).value.snd, mb, me, ext.ptr)
  {
    var c := LoadPair(m, binds.raw).value;
    ListTwo(m, c.fst, ps[0].name, ps[0].expr);
    var b := LoadPair(m, c.fst.raw).value;
    BindingStep(fuel, f, m, binds, c, b, LoadPair(m, b.snd.raw).value, ps[0].name, ps[0].expr, mb, me, extEnv);
  }

  lemma BindingStep(fuel: nat, f: nat, m: Memory, binds: Ptr, c: Pair, b: Pair, d: Pair, x: Ptr, e: Ptr,
                    mb: int, me: int, extEnv: int)
    requires fuel == f + 1 && binds.tag == Cons && LoadPair(m, binds.raw) == Some(c)
    requires c.fst.tag == Cons && LoadPair(m, c.fst.raw) == Some(b)
    requires b.snd.tag == Cons && LoadPair(m, b.snd.raw) == Some(d)
    requires d.snd.tag == Nil && b.fst == x && d.fst == e && SymLike(x.tag)
    ensures var ext := PushFix(m, x, e, mb, me, extEnv);
      ExtendEnvWithMutuals(fuel, m, binds, mb, me, extEnv)
      == ExtendEnvWithMutuals(f, ext.mem, LoadPair(m, binds.raw).value.snd, mb, me, ext.ptr)
  {
    assert ExtendEnvWithMutuals(fuel, m, binds, mb, me, extEnv) == ExtendBinding(fuel, m, binds, mb, me, extEnv);
    BindingUnfold(fuel, m, binds, c, b, d, mb, me, extEnv);
    FixUnfold(fuel, f, m, x, e, c.snd, mb, me, extEnv);
  }

  lemma FixUnfold(fuel: nat, f: nat, m: Memory, x: Ptr, e: Ptr, binds: Ptr, mb: int, me: int, extEnv: int)
    requires fuel == f + 1 && SymLike(x.tag)
    ensures var ext := PushFix(m, x, e, mb, me, extEnv);
      ExtendFix(fuel, m, x, e, binds, mb, me, extEnv) == ExtendEnvWithMutuals(f, ext.mem, binds, mb, me, ext.ptr)
  {
  }

  lemma BindingUnfold(fuel: nat, m: Memory, binds: Ptr, c: Pair, b: Pair, d: Pair, mb: int, me: int, extEnv: int)
    requires fuel > 0 && LoadPair(m, binds.raw) == Some(c)
    requires c.fst.tag == Cons && LoadPair(m, c.fst.raw) == Some(b)
    requires b.snd.tag == Cons && LoadPair(m, b.snd.raw) == Some(d)
    requires d.snd.tag == Nil
    ensures ExtendBinding(fuel, m, binds, mb, me, extEnv) == ExtendFix(fuel, m, b.fst, d.fst, c.snd, mb, me, extEnv)
  {
    assert LoadCell(m, binds) == Ok(m, c);
    assert LoadCell(m, c.fst) == Ok(m, b);
    assert LoadCell(m, b.snd) == Ok(m, d);
  }

  lemma FixChainCons(m: Memory, env: int, p: Mutual, mid: int, acc: seq<Mutual>, mb: int, me: int, base: int)
    requires FixChain(m, env, [p], mb, me, mid) && FixChain(m, mid, acc, mb, me, base)
    ensures FixChain(m, env, [p] + acc, mb, me, base)
  {
    assert ([p] + acc)[1..] == acc;
    assert [p][1..] == [];
  }

  lemma {:induction false} MutualListStable(m: Memory, m': Memory, binds: Ptr, ps: seq<Mutual>)
    requires MutualList(m, binds, ps) && Extends(m, m')
    ensures MutualList(m', binds, ps)
    decreases |ps|
  {
    if ps != [] {
      var c := LoadPair(m, binds.raw).value;
      PairStable(m, m', binds.raw);
      ListStable(m, m', c.fst, [ps[0].name, ps[0].expr]);
      MutualListStable(m, m', c.snd, ps[1..]);
    }
  }

  lemma {:induction false} ListStable(m: Memory, m': Memory, p: Ptr, xs: seq<Ptr>)
    requires IsList(m, p, xs) && Extends(m, m')
    ensures IsList(m', p, xs)
    decreases |xs|
  {
    if xs != [] {
      PairStable(m, m', p.raw);
      ListStable(m, m', LoadPair(m, p.raw).value.snd, xs[1..]);
    }
  }

  /** The `letrec` env: one fixed point per binding, last binding first, in front of `env`. */
  lemma LetrecEnv(fuel: nat, m: Memory, binds: Ptr, ps: seq<Mutual>, env: int)
    requires MutualList(m, binds, ps) && fuel > |ps|
    ensures ExtendEnvWithMutuals(fuel, m, binds, binds.raw, env, env).Ok?
    ensures var r := ExtendEnvWithMutuals(fuel, m, binds, binds.raw, env, env);
      r.out.tag == Env && FixChain(r.mem, r.out.raw, Reverse(ps), binds.raw, env, env)
  {
    ExtendAll(fuel, m, binds, ps, binds.raw, env, env, [], env);
  }

  /**
   * `binds` starts with the well-formed bindings `ps` and continues as the
   * list `tail`, which may be malformed.
   */
  predicate MutualPrefix(m: Memory, binds: Ptr, ps: seq<Mutual>, tail: Ptr)
    decreases |ps|
  {
    if ps == [] then binds == tail
    else
      binds.tag == Cons && LoadPair(m, binds.raw).Some?
      && var c := LoadPair(m, binds.raw).value;
      IsList(m, c.fst, [ps[0].name, ps[0].expr]) && SymLike(ps[0].name.tag)
      && MutualPrefix(m, c.snd, ps[1..], tail)
  }

  /** One step of the walk over the well-formed bindings in front of `tail`. */
  lemma PrefixStep(fuel: nat, m: Memory, binds: Ptr, ps: seq<Mutual>, tail: Ptr, mb: int, me: int, extEnv: int)
    returns (m1: Memory, p1: int, rest: Ptr)
    requires fuel > 0 && ps != [] && MutualPrefix(m, binds, ps, tail)
    ensures Extends(m, m1) && MutualPrefix(m1, rest, ps[1..], tail)
    ensures ExtendEnvWithMutuals(fuel, m, binds, mb, me, extEnv) == ExtendEnvWithMutuals(fuel - 1, m1, rest, mb, me, p1)
  {
    var c := LoadPair(m, binds.raw).value;
    ListTwo(m, c.fst, ps[0].name, ps[0].expr);
    var b := LoadPair(m, c.fst.raw).value;
    BindingStep(fuel, fuel - 1, m, binds, c, b, LoadPair(m, b.snd.raw).value, ps[0].name, ps[0].expr, mb, me, extEnv);
    var ext := PushFix(m, ps[0].name, ps[0].expr, mb, me, extEnv);
    m1, p1, rest := ext.mem, ext.ptr, c.snd;
    MutualPrefixStable(m, m1, rest, ps[1..], tail);
  }

  lemma {:induction false} MutualPrefixStable(m: Memory, m': Memory, binds: Ptr, ps: seq<Mutual>, tail: Ptr)
    requires MutualPrefix(m, binds, ps, tail) && Extends(m, m')
    ensures MutualPrefix(m', binds, ps, tail)
    decreases |ps|
  {
    if ps != [] {
      var c := LoadPair(m, binds.raw).value;
      PairStable(m, m', binds.raw);
      ListStable(m, m', c.fst, [ps[0].name, ps[0].expr]);
      MutualPrefixStable(m, m', c.snd, ps[1..], tail);
    }
  }

  /**
   * The list `binds` does not start with a 2-element binding: it is not a
   * list, or its first binding is not a list, is `(x)`, or is `(x e f …)`.
   */
  predicate Malformed(m: Memory, binds: Ptr)
  {
    (binds.tag != Nil && binds.tag != Cons)
    || (binds.tag == Cons && LoadPair(m, binds.raw).Some?
        && var c := LoadPair(m, binds.raw).value;
        (c.fst.tag != Cons
         || (LoadPair(m, c.fst.raw).Some?
             && var b := LoadPair(m, c.fst.raw).value;
             (b.snd.tag != Cons
              || (LoadPair(m, b.snd.raw).Some? && LoadPair(m, b.snd.raw).value.snd.tag != Nil)))))
  }

  lemma MalformedStable(m: Memory, m': Memory, binds: Ptr)
    requires Malformed(m, binds) && Extends(m, m')
    ensures Malformed(m', binds)
  {
    if binds.tag == Cons {
      var c := LoadPair(m, binds.raw).value;
      PairStable(m, m', binds.raw);
      if c.fst.tag == Cons {
        var b := LoadPair(m, c.fst.raw).value;
        PairStable(m, m', c.fst.raw);
        if b.snd.tag == Cons {
          PairStable(m, m', b.snd.raw);
        }
      }
    }
  }

  /** The list `binds` starts with a 2-element binding `(x e)` whose variable `x` is not a symbol. */
  predicate IllegalFirst(m: Memory, binds: Ptr)
  {
    binds.tag == Cons && LoadPair(m, binds.raw).Some?
    && var c := LoadPair(m, binds.raw).value;
    c.fst.tag == Cons && LoadPair(m, c.fst.raw).Some?
    && var b := LoadPair(m, c.fst.raw).value;
    b.snd.tag == Cons && LoadPair(m, b.snd.raw).Some? && LoadPair(m, b.snd.raw).value.snd.tag == Nil
    && !SymLike(b.fst.tag)
  }

  lemma IllegalFirstStable(m: Memory, m': Memory, binds: Ptr)
    requires IllegalFirst(m, binds) && Extends(m, m')
    ensures IllegalFirst(m', binds)
  {
    var c := LoadPair(m, binds.raw).value;
    PairStable(m, m', binds.raw);
    PairStable(m, m', c.fst.raw);
    PairStable(m, m', LoadPair(m, c.fst.raw).value.snd.raw);
  }

  /**
   * After the well-formed bindings `ps`, the walk goes on at `tail` with
   * `|ps|` less fuel, in a grown memory and a longer env.
   */
  lemma {:induction false} ExtendPrefix(fuel: nat, rem: nat, m: Memory, binds: Ptr, ps: seq<Mutual>, tail: Ptr,
                                        mb: int, me: int, extEnv: int)
    returns (m1: Memory, p1: int)
    requires MutualPrefix(m, binds, ps, tail) && fuel == rem + |ps|
    ensures Extends(m, m1)
    ensures ExtendEnvWithMutuals(fuel, m, binds, mb, me, extEnv) == ExtendEnvWithMutuals(rem, m1, tail, mb, me, p1)
    decreases |ps|, 1
  {
    if ps == [] {
      m1, p1 := m, extEnv;
    } else {
      m1, p1 := PrefixCons(fuel, rem, m, binds, ps, tail, mb, me, extEnv);
    }
  }

  lemma {:induction false} PrefixCons(fuel: nat, rem: nat, m: Memory, binds: Ptr, ps: seq<Mutual>, tail: Ptr,
                                      mb: int, me: int, extEnv: int)
    returns (m1: Memory, p1: int)
    requires MutualPrefix(m, binds, ps, tail) && fuel == rem + |ps| && ps != []
    ensures Extends(m, m1)
    ensures ExtendEnvWithMutuals(fuel, m, binds, mb, me, extEnv) == ExtendEnvWithMutuals(rem, m1, tail, mb, me, p1)
    decreases |ps|, 0
  {
    var ma, pa, rest := PrefixStep(fuel, m, binds, ps, tail, mb, me, extEnv);
    m1, p1 := ExtendPrefix(fuel - 1, rem, ma, rest, ps[1..], tail, mb, me, pa);
  }

  /**
   * A binding, at any position after well-formed ones, whose variable is
   * not a symbol stops the walk with `IllegalBindingVar`.
   */
  lemma IllegalVar(fuel: nat, m: Memory, binds: Ptr, ps: seq<Mutual>, tail: Ptr, mb: int, me: int, extEnv: int)
    requires MutualPrefix(m, binds, ps, tail) && fuel > |ps| && IllegalFirst(m, tail)
    ensures var r := ExtendEnvWithMutuals(fuel, m, binds, mb, me, extEnv);
      r.Ok? && r.out == Error(IllegalBindingVar)
  {
    var m1, p1 := ExtendPrefix(fuel, fuel - |ps|, m, binds, ps, tail, mb, me, extEnv);
    IllegalFirstStable(m, m1, tail);
    FirstIllegal(fuel - |ps|, m1, tail, mb, me, p1);
  }

  lemma FirstIllegal(fuel: nat, m: Memory, binds: Ptr, mb: int, me: int, extEnv: int)
    requires fuel > 0 && IllegalFirst(m, binds)
    ensures ExtendEnvWithMutuals(fuel, m, binds, mb, me, extEnv) == Ok(m, Error(IllegalBindingVar))
  {
    var c := LoadPair(m, binds.raw).value;
    var b := LoadPair(m, c.fst.raw).value;
    BindingUnfold(fuel, m, binds, c, b, LoadPair(m, b.snd.raw).value, mb, me, extEnv);
    assert ExtendEnvWithMutuals(fuel, m, binds, mb, me, extEnv) == ExtendBinding(fuel, m, binds, mb, me, extEnv);
  }

  /** A malformed binding list, at any position after well-formed bindings, is `InvalidForm`. */
  lemma MalformedBinding(fuel: nat, m: Memory, binds: Ptr, ps: seq<Mutual>, tail: Ptr, mb: int, me: int, extEnv: int)
    requires MutualPrefix(m, binds, ps, tail) && fuel > |ps| && Malformed(m, tail)
    ensures var r := ExtendEnvWithMutuals(fuel, m, binds, mb, me, extEnv);
      r.Ok? && r.out == Error(InvalidForm)
  {
    var m1, p1 := ExtendPrefix(fuel, fuel - |ps|, m, binds, ps, tail, mb, me, extEnv);
    MalformedStable(m, m1, tail);
    FirstMalformed(fuel - |ps|, m1, tail, mb, me, p1);
  }

  lemma FirstMalformed(fuel: nat, m: Memory, binds: Ptr, mb: int, me: int, extEnv: int)
    requires fuel > 0 && Malformed(m, binds)
    ensures ExtendEnvWithMutuals(fuel, m, binds, mb, me, extEnv) == Ok(m, Error(InvalidForm))
  {
    if binds.tag == Cons {
      assert ExtendEnvWithMutuals(fuel, m, binds, mb, me, extEnv) == ExtendBinding(fuel, m, binds, mb, me, extEnv);
    }
  }
}
