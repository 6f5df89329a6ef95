/**
 * How the evaluator lays its values out in memory: a pair of values
 * (a `Cons` cell or a `Str` node) is a row of arity 4, a triple of two
 * values and an env pointer (an `Env` node, a `Fun` closure, a `Fix`
 * point) is a row of arity 5, and a digest is a row of arity 8.
 */
module Layout {
  import opened Wrappers
  import opened Tags
  import opened Arena

  /** `(a_tag, a, b_tag, b)` */
  datatype Pair = Pair(fst: Ptr, snd: Ptr)

  /** `(a_tag, a, b_tag, b, env)` */
  datatype Triple = Triple(fst: Ptr, snd: Ptr, env: int)

  function PairRow(a: Ptr, b: Ptr): (r: seq<int>)
    ensures |r| == 4
  {
    [TagCode(a.tag), a.raw, TagCode(b.tag), b.raw]
  }

  function TripleRow(a: Ptr, b: Ptr, e: int): (r: seq<int>)
    ensures |r| == 5
  {
    [TagCode(a.tag), a.raw, TagCode(b.tag), b.raw, e]
  }

  /** Decodes a row of arity 4 as two values; a row whose tag words are not tags does not decode. */
  function LoadPair(m: Memory, p: int): (r: Option<Pair>)
    ensures r.Some? ==> Load(m, 4, p) == Some(PairRow(r.value.fst, r.value.snd))
  {
    match Load(m, 4, p)
    case None => None
    case Some(row) =>
      DecodeTagCode(row[0]);
      DecodeTagCode(row[2]);
      assert row == [row[0], row[1], row[2], row[3]];
      match (DecodeTag(row[0]), DecodeTag(row[2]))
      case (Some(a), Some(b)) => Some(Pair(Ptr(a, row[1]), Ptr(b, row[3])))
      case _ => None
  }

  function LoadTriple(m: Memory, p: int): (r: Option<Triple>)
    ensures r.Some? ==> Load(m, 5, p) == Some(TripleRow(r.value.fst, r.value.snd, r.value.env))
  {
    match Load(m, 5, p)
    case None => None
    case Some(row) =>
      DecodeTagCode(row[0]);
      DecodeTagCode(row[2]);
      assert row == [row[0], row[1], row[2], row[3], row[4]];
      match (DecodeTag(row[0]), DecodeTag(row[2]))
      case (Some(a), Some(b)) => Some(Triple(Ptr(a, row[1]), Ptr(b, row[3]), row[4]))
      case _ => None
  }

  function LoadDigest(m: Memory, p: int): Option<seq<int>>
  {
    Load(m, 8, p)
  }

  /** A row that loads as a pair keeps loading as that pair in every grown memory. */
  lemma PairStable(m: Memory, m': Memory, p: int)
    requires Extends(m, m') && LoadPair(m, p).Some?
    ensures LoadPair(m', p) == LoadPair(m, p)
  {
    LoadStable(m, m', 4, p);
  }

  lemma TripleStable(m: Memory, m': Memory, p: int)
    requires Extends(m, m') && LoadTriple(m, p).Some?
    ensures LoadTriple(m', p) == LoadTriple(m, p)
  {
    LoadStable(m, m', 5, p);
  }

  lemma DigestStable(m: Memory, m': Memory, p: int)
    requires Extends(m, m') && LoadDigest(m, p).Some?
    ensures LoadDigest(m', p) == LoadDigest(m, p)
  {
    LoadStable(m, m', 8, p);
  }

  /** A memory step that only appends rows. */
  predicate Appended(m: Memory, m': Memory)
  {
    Extends(m, m') && m'.hashes == m.hashes && (Unique(m) ==> Unique(m'))
  }

  function StorePair(m: Memory, a: Ptr, b: Ptr): (r: Stored)
    ensures r.ptr >= 1 && LoadPair(r.mem, r.ptr) == Some(Pair(a, b))
    ensures Appended(m, r.mem)
  {
    Store(m, PairRow(a, b))
  }

  function StoreTriple(m: Memory, a: Ptr, b: Ptr, e: int): (r: Stored)
    ensures r.ptr >= 1 && LoadTriple(r.mem, r.ptr) == Some(Triple(a, b, e))
    ensures Appended(m, r.mem)
  {
    Store(m, TripleRow(a, b, e))
  }

  function StoreDigest(m: Memory, d: seq<int>): (r: Stored)
    requires |d| == 8
    ensures r.ptr >= 1 && LoadDigest(r.mem, r.ptr) == Some(d)
    ensures Appended(m, r.mem)
  {
    Store(m, d)
  }

  /** The row of arity 4 of a stored byte quadruple (a `Char`), undecoded. */
  function StoreBytes(m: Memory, bytes: seq<int>): (r: Stored)
    requires |bytes| == 4
    ensures r.ptr >= 1 && Load(r.mem, 4, r.ptr) == Some(bytes)
    ensures Appended(m, r.mem)
  {
    Store(m, bytes)
  }

  lemma AppendedGrows(h: seq<int> -> Row8, m: Memory, m': Memory)
    requires Appended(m, m')
    ensures Grows(h, m, m')
  {
  }

  /** `load(p)` of a `Cons` or `Str` value: the pair it points to; a missing row aborts. */
  function LoadCell(m: Memory, p: Ptr): (r: Run<Pair>)
    ensures r.Ok? <==> LoadPair(m, p.raw).Some?
    ensures r.Ok? ==> r.mem == m && LoadPair(m, p.raw) == Some(r.out)
  {
    match LoadPair(m, p.raw)
    case None => Halt(Panic)
    case Some(c) => Ok(m, c)
  }

  /** `p` is the proper list `xs`: a chain of `Cons` cells ending in a `Nil`. */
  predicate IsList(m: Memory, p: Ptr, xs: seq<Ptr>)
    decreases |xs|
  {
    if xs == [] then p.tag == Nil
    else
      p.tag == Cons && LoadPair(m, p.raw).Some?
      && LoadPair(m, p.raw).value.fst == xs[0] && IsList(m, LoadPair(m, p.raw).value.snd, xs[1..])
  }

  /**
   * The argument check the evaluator repeats for every fixed-arity form:
   * `rest` must be a `Cons` for each expected argument and `Nil` after the
   * last one. A malformed list gives `None`; a cell that cannot be loaded aborts.
   */
  function Exactly(m: Memory, rest: Ptr, n: nat): (r: Run<Option<seq<Ptr>>>)
    ensures r.Ok? ==> r.mem == m
    ensures r.Ok? && r.out.Some? ==> |r.out.value| == n && IsList(m, rest, r.out.value)
    decreases n
  {
    if n == 0 then Ok(m, if rest.tag == Nil then Some([]) else None)
    else if rest.tag != Cons then Ok(m, None)
    else
      var c :- LoadCell(m, rest);
      var tail :- Exactly(m, c.out.snd, n - 1);
      match tail.out
      case None => Ok(m, None)
      case Some(xs) =>
        assert ([c.out.fst] + xs)[1..] == xs;
        Ok(m, Some([c.out.fst] + xs))
  }

  /** A proper list of `n` elements passes the check of arity `n` and no other. */
  lemma {:induction false} ExactlyList(m: Memory, rest: Ptr, xs: seq<Ptr>, n: nat)
    requires IsList(m, rest, xs)
    ensures Exactly(m, rest, n) == Ok(m, if n == |xs| then Some(xs) else None)
    decreases n
  {
    if n > 0 && xs != [] {
      ExactlyList(m, LoadPair(m, rest.raw).value.snd, xs[1..], n - 1);
      assert [xs[0]] + xs[1..] == xs;
    }
  }

  /** The cells of a 2-element list `(x e)`. */
  lemma ListTwo(m: Memory, p: Ptr, x: Ptr, e: Ptr)
    requires IsList(m, p, [x, e])
    ensures p.tag == Cons && LoadPair(m, p.raw).Some? && LoadPair(m, p.raw).value.fst == x
    ensures var q := LoadPair(m, p.raw).value.snd;
      q.tag == Cons && LoadPair(m, q.raw).Some? && LoadPair(m, q.raw).value.fst == e
      && LoadPair(m, q.raw).value.snd.tag == Nil
  {
    assert [x, e][1..] == [e];
    assert [e][1..] == [];
    var q := LoadPair(m, p.raw).value.snd;
    assert IsList(m, q, [e]);
    assert IsList(m, LoadPair(m, q.raw).value.snd, []);
  }

  lemma AppendedTrans(a: Memory, b: Memory, c: Memory)
    requires Appended(a, b) && Appended(b, c)
    ensures Appended(a, c)
  {
  }
}
