/**
 * Environments: a linked list of `(var, val, tail)` nodes of arity 5 in
 * memory, pointer 0 being the empty environment. Variables are compared by
 * tag and digest, so two pointers to the same symbol name are the same variable.
 */
module Envs {
  import opened Wrappers
  import opened Tags
  import opened Arena
  import opened Layout

  /**
   * `env_lookup`: the value bound to the variable with tag `xTag` and digest
   * `xDigest`, searching from the head of `env`. An unbound variable is the
   * error `UnboundVar`; a node or a variable digest missing from memory aborts.
   * `fuel` bounds the walk, since a memory could hold a cyclic list.
   */
  function EnvLookup(fuel: nat, m: Memory, xTag: Tag, xDigest: seq<int>, env: int): (r: Run<Ptr>)
    ensures r.Ok? ==> r.mem == m
    decreases fuel
  {
    if fuel == 0 then Halt(OutOfFuel)
    else if env == 0 then Ok(m, Error(UnboundVar))
    else
      match LoadTriple(m, env)
      case None => Halt(Panic)
      case Some(node) =>
        match LoadDigest(m, node.fst.raw)
        case None => Halt(Panic)
        case Some(yd) =>
          if node.fst.tag == xTag && yd == xDigest then Ok(m, node.snd)
          else EnvLookup(fuel - 1, m, xTag, xDigest, node.env)
  }

  /** One binding of an environment, its variable given by tag and digest. */
  datatype Binding = Binding(tag: Tag, digest: seq<int>, val: Ptr)

  predicate Matches(b: Binding, xTag: Tag, xDigest: seq<int>)
  {
    b.tag == xTag && b.digest == xDigest
  }

  /** `env` points to an environment whose bindings, front to back, are `bs`. */
  predicate Chain(m: Memory, env: int, bs: seq<Binding>)
    decreases |bs|
  {
    if bs == [] then env == 0
    else
      env != 0 && LoadTriple(m, env).Some?
      && var node := LoadTriple(m, env).value;
      node.fst.tag == bs[0].tag && LoadDigest(m, node.fst.raw) == Some(bs[0].digest)
      && node.snd == bs[0].val && Chain(m, node.env, bs[1..])
  }

  /** The reference meaning of a lookup in a list of bindings. */
  function Lookup(bs: seq<Binding>, xTag: Tag, xDigest: seq<int>): Ptr
  {
    if bs == [] then Error(UnboundVar)
    else if Matches(bs[0], xTag, xDigest) then bs[0].val
    else Lookup(bs[1..], xTag, xDigest)
  }

  /** The lookup finds the first binding of the variable, front to back. */
  lemma {:induction false} LookupFirst(bs: seq<Binding>, xTag: Tag, xDigest: seq<int>, i: int)
    requires 0 <= i < |bs| && Matches(bs[i], xTag, xDigest)
    requires forall j :: 0 <= j < i ==> !Matches(bs[j], xTag, xDigest)
    ensures Lookup(bs, xTag, xDigest) == bs[i].val
  {
    if i > 0 {
      LookupFirst(bs[1..], xTag, xDigest, i - 1);
    }
  }

  /** A variable bound nowhere in the list is unbound. */
  lemma {:induction false} LookupAbsent(bs: seq<Binding>, xTag: Tag, xDigest: seq<int>)
    requires forall j :: 0 <= j < |bs| ==> !Matches(bs[j], xTag, xDigest)
    ensures Lookup(bs, xTag, xDigest) == Error(UnboundVar)
  {
    if bs != [] {
      LookupAbsent(bs[1..], xTag, xDigest);
    }
  }

  /** A binding at the front shadows every later binding of the same variable. */
  lemma Shadowing(b: Binding, bs: seq<Binding>)
    ensures Lookup([b] + bs, b.tag, b.digest) == b.val
  {
  }

  /** With enough fuel, `env_lookup` on a well-formed environment computes `Lookup`. */
  lemma {:induction false} EnvLookupChain(fuel: nat, m: Memory, env: int, bs: seq<Binding>, xTag: Tag, xDigest: seq<int>)
    requires Chain(m, env, bs) && fuel > |bs|
    ensures EnvLookup(fuel, m, xTag, xDigest, env) == Ok(m, Lookup(bs, xTag, xDigest))
  {
    if bs != [] {
      EnvLookupChain(fuel - 1, m, LoadTriple(m, env).value.env, bs[1..], xTag, xDigest);
    }
  }

  /** A well-formed environment stays well formed as memory grows. */
  lemma {:induction false} ChainStable(m: Memory, m': Memory, env: int, bs: seq<Binding>)
    requires Chain(m, env, bs) && Extends(m, m')
    ensures Chain(m', env, bs)
    decreases |bs|
  {
    if bs != [] {
      TripleStable(m, m', env);
      DigestStable(m, m', LoadTriple(m, env).value.fst.raw);
      ChainStable(m, m', LoadTriple(m, env).value.env, bs[1..]);
    }
  }

  /** Storing a node `(var, val, env)` puts one binding in front of `env`'s bindings. */
  lemma Push(m: Memory, x: Ptr, d: seq<int>, val: Ptr, env: int, bs: seq<Binding>)
    requires Chain(m, env, bs) && LoadDigest(m, x.raw) == Some(d)
    ensures Chain(StoreTriple(m, x, val, env).mem, StoreTriple(m, x, val, env).ptr, [Binding(x.tag, d, val)] + bs)
  {
    var st := StoreTriple(m, x, val, env);
    ChainStable(m, st.mem, env, bs);
    DigestStable(m, st.mem, x.raw);
    assert ([Binding(x.tag, d, val)] + bs)[1..] == bs;
  }
}
