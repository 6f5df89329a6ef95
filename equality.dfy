/**
 * Structural equality of values (`equal_inner`), the comparison behind
 * `eq` and `eqq`: equal tags and either the same pointer or equal contents,
 * compared recursively through pairs and closures.
 */
module Equality {
  import opened Wrappers
  import opened Tags
  import opened Arena
  import opened Layout

  /**
   * `equal_inner`: same tag and same pointer is equal on the spot; `Num`s
   * are immediate, so distinct pointers are distinct numbers; characters and
   * digests compare their stored rows; strings, conses, closures and env
   * nodes compare their parts, all of them even once one part differs. An
   * empty string or empty env equals only itself. `fuel` bounds the
   * recursion, since a memory could hold a cyclic structure.
   */
  function EqualInner(fuel: nat, m: Memory, a: Ptr, b: Ptr): (r: Run<bool>)
    ensures r.Ok? ==> r.mem == m
    decreases fuel, 1
  {
    if fuel == 0 then Halt(OutOfFuel)
    else if a.tag != b.tag then Ok(m, false)
    else if a.raw == b.raw then Ok(m, true)
    else
      match a.tag
      case Num => Ok(m, false)
      case Char =>
        (match (Load(m, 4, a.raw), Load(m, 4, b.raw))
         case (Some(x), Some(y)) => Ok(m, x == y)
         case _ => Halt(Panic))
      case Key | Sym | Builtin | Coroutine | U64 | BigNum | Comm =>
        (match (LoadDigest(m, a.raw), LoadDigest(m, b.raw))
         case (Some(x), Some(y)) => Ok(m, x == y)
         case _ => Halt(Panic))
      case Str => if a.raw == 0 || b.raw == 0 then Ok(m, false) else EqualCells(fuel, m, a, b)
      case Cons => EqualCells(fuel, m, a, b)
      case Fun | Fix => EqualNodes(fuel, m, a, b)
      case Env => if a.raw == 0 || b.raw == 0 then Ok(m, false) else EqualNodes(fuel, m, a, b)
      case _ => Halt(Panic)
  }

  /** Two pairs are equal when both their parts are. */
  function EqualCells(fuel: nat, m: Memory, a: Ptr, b: Ptr): (r: Run<bool>)
    requires fuel > 0
    ensures r.Ok? ==> r.mem == m
    decreases fuel, 0
  {
    var pa :- LoadCell(m, a);
    var pb :- LoadCell(m, b);
    var x :- EqualInner(fuel - 1, m, pa.out.fst, pb.out.fst);
    var y :- EqualInner(fuel - 1, m, pa.out.snd, pb.out.snd);
    Ok(m, x.out && y.out)
  }

  /** Two closures or env nodes are equal when their two values and their envs are. */
  function EqualNodes(fuel: nat, m: Memory, a: Ptr, b: Ptr): (r: Run<bool>)
    requires fuel > 0
    ensures r.Ok? ==> r.mem == m
    decreases fuel, 0
  {
    match (LoadTriple(m, a.raw), LoadTriple(m, b.raw))
    case (Some(ta), Some(tb)) =>
      var x :- EqualInner(fuel - 1, m, ta.fst, tb.fst);
      var y :- EqualInner(fuel - 1, m, ta.snd, tb.snd);
      var z :- EqualInner(fuel - 1, m, Ptr(Env, ta.env), Ptr(Env, tb.env));
      Ok(m, x.out && y.out && z.out)
    case _ => Halt(Panic)
  }

  /** Every value equals itself, without a load. */
  lemma Reflexive(fuel: nat, m: Memory, a: Ptr)
    requires fuel > 0
    ensures EqualInner(fuel, m, a, a) == Ok(m, true)
  {
  }

  /** Values of different tags are unequal, and distinct `Num`s are unequal. */
  lemma FastPaths(fuel: nat, m: Memory, a: Ptr, b: Ptr)
    requires fuel > 0
    ensures a.tag != b.tag ==> EqualInner(fuel, m, a, b) == Ok(m, false)
    ensures a.tag == b.tag == Num ==> EqualInner(fuel, m, a, b) == Ok(m, a.raw == b.raw)
  {
  }

  /** The empty string and the empty env equal only themselves. */
  lemma EmptyOnlyItself(fuel: nat, m: Memory, a: Ptr, b: Ptr)
    requires fuel > 0 && a.tag == b.tag && (a.tag == Str || a.tag == Env) && (a.raw == 0 || b.raw == 0)
    ensures EqualInner(fuel, m, a, b) == Ok(m, a.raw == b.raw)
  {
  }

  /**
   * The comparison is symmetric, down to which halt it reports: the parts
   * are compared in the same order whichever side comes first.
   */
  lemma {:induction false} Symmetric(fuel: nat, m: Memory, a: Ptr, b: Ptr)
    ensures EqualInner(fuel, m, a, b) == EqualInner(fuel, m, b, a)
    decreases fuel
  {
    if fuel > 0 && a.tag == b.tag && a.raw != b.raw {
      var f := fuel - 1;
      match a.tag
      case Str | Cons =>
        if LoadPair(m, a.raw).Some? && LoadPair(m, b.raw).Some? {
          var pa, pb := LoadPair(m, a.raw).value, LoadPair(m, b.raw).value;
          Symmetric(f, m, pa.fst, pb.fst);
          Symmetric(f, m, pa.snd, pb.snd);
          CellsSymmetric(fuel, f, m, a, b);
        }
      case Fun | Fix | Env =>
        if LoadTriple(m, a.raw).Some? && LoadTriple(m, b.raw).Some? {
          var ta, tb := LoadTriple(m, a.raw).value, LoadTriple(m, b.raw).value;
          Symmetric(f, m, ta.fst, tb.fst);
          Symmetric(f, m, ta.snd, tb.snd);
          Symmetric(f, m, Ptr(Env, ta.env), Ptr(Env, tb.env));
          NodesSymmetric(fuel, f, m, a, b);
        }
      case _ =>
    }
  }

  lemma CellsSymmetric(fuel: nat, f: nat, m: Memory, a: Ptr, b: Ptr)
    requires fuel == f + 1 && LoadPair(m, a.raw).Some? && LoadPair(m, b.raw).Some?
    requires var pa, pb := LoadPair(m, a.raw).value, LoadPair(m, b.raw).value;
      EqualInner(f, m, pa.fst, pb.fst) == EqualInner(f, m, pb.fst, pa.fst)
      && EqualInner(f, m, pa.snd, pb.snd) == EqualInner(f, m, pb.snd, pa.snd)
    ensures EqualCells(fuel, m, a, b) == EqualCells(fuel, m, b, a)
  {
  }

  lemma NodesSymmetric(fuel: nat, f: nat, m: Memory, a: Ptr, b: Ptr)
    requires fuel == f + 1 && LoadTriple(m, a.raw).Some? && LoadTriple(m, b.raw).Some?
    requires var ta, tb := LoadTriple(m, a.raw).value, LoadTriple(m, b.raw).value;
      EqualInner(f, m, ta.fst, tb.fst) == EqualInner(f, m, tb.fst, ta.fst)
      && EqualInner(f, m, ta.snd, tb.snd) == EqualInner(f, m, tb.snd, ta.snd)
      && EqualInner(f, m, Ptr(Env, ta.env), Ptr(Env, tb.env)) == EqualInner(f, m, Ptr(Env, tb.env), Ptr(Env, ta.env))
    ensures EqualNodes(fuel, m, a, b) == EqualNodes(fuel, m, b, a)
  {
  }
}
