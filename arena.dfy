/**
 * The evaluator's memory: one append-only, content-addressed table of rows
 * per arity (4, 5 and 8 are the arities the evaluator uses), plus the record
 * of hash3 queries that `preimg` consults. Pointer `p >= 1` names row `p - 1`
 * of a table; pointer 0 names nothing and stands for the empty env and the
 * empty string.
 */
module Arena {
  import opened Wrappers

  type Row4 = s: seq<int> | |s| == 4 witness [0, 0, 0, 0]
  type Row5 = s: seq<int> | |s| == 5 witness [0, 0, 0, 0, 0]
  type Row8 = s: seq<int> | |s| == 8 witness [0, 0, 0, 0, 0, 0, 0, 0]

  datatype Memory = Memory(
    t4: seq<Row4>,
    t5: seq<Row5>,
    t8: seq<Row8>,
    /** hash3 queries seen so far: digest to preimage */
    hashes: map<seq<int>, seq<int>>)

  const Empty: Memory := Memory([], [], [], map[])

  predicate IsArity(n: int) { n == 4 || n == 5 || n == 8 }

  function Table(m: Memory, n: int): seq<seq<int>>
    requires IsArity(n)
  {
    if n == 4 then m.t4 else if n == 5 then m.t5 else m.t8
  }

  /** `load(ptr)` on the table of arity `n`; an unknown pointer has no row. */
  function Load(m: Memory, n: int, p: int): (r: Option<seq<int>>)
    requires IsArity(n)
    ensures r.Some? ==> |r.value| == n && p >= 1
  {
    var tab := Table(m, n);
    if 1 <= p <= |tab| then Some(tab[p - 1]) else None
  }

  /** The position of the first occurrence of `x` in `s`, or `|s|` if it does not occur. */
  function IndexOf(s: seq<seq<int>>, x: seq<int>): (i: nat)
    ensures i <= |s|
    ensures i < |s| ==> s[i] == x
    ensures forall j :: 0 <= j < i ==> s[j] != x
  {
    if s == [] then 0 else if s[0] == x then 0 else 1 + IndexOf(s[1..], x)
  }

  predicate NoDup(s: seq<seq<int>>)
  {
    forall i, j :: 0 <= i < j < |s| ==> s[i] != s[j]
  }

  /** Content addressing: each row occurs once in its table. */
  predicate Unique(m: Memory)
  {
    NoDup(m.t4) && NoDup(m.t5) && NoDup(m.t8)
  }

  /** Every recorded hash3 query maps its preimage to its digest under `h`. */
  predicate HashesAgree(m: Memory, h: seq<int> -> Row8)
  {
    forall d :: d in m.hashes ==> h(m.hashes[d]) == d
  }

  /** `m'` grew from `m`: every table is extended at its end and no query is forgotten. */
  predicate Extends(m: Memory, m': Memory)
  {
    m.t4 <= m'.t4 && m.t5 <= m'.t5 && m.t8 <= m'.t8 && m.hashes.Keys <= m'.hashes.Keys
  }

  /** What every evaluator step guarantees about the memory it hands on. */
  predicate Grows(h: seq<int> -> Row8, m: Memory, m': Memory)
  {
    Extends(m, m')
    && (Unique(m) ==> Unique(m'))
    && (HashesAgree(m, h) ==> HashesAgree(m', h))
  }

  lemma GrowsRefl(h: seq<int> -> Row8, m: Memory)
    ensures Grows(h, m, m)
  {
  }

  lemma GrowsTrans(h: seq<int> -> Row8, a: Memory, b: Memory, c: Memory)
    requires Grows(h, a, b) && Grows(h, b, c)
    ensures Grows(h, a, c)
  {
  }

  /** A row that can be loaded from `m` loads the same from any memory grown from it. */
  lemma {:induction false} LoadStable(m: Memory, m': Memory, n: int, p: int)
    requires IsArity(n) && Extends(m, m') && Load(m, n, p).Some?
    ensures Load(m', n, p) == Load(m, n, p)
  {
    var tab, tab' := Table(m, n), Table(m', n);
    assert tab <= tab';
    assert tab'[p - 1] == tab[p - 1];
  }

  datatype Stored = Stored(mem: Memory, ptr: int)

  function WithRow(m: Memory, t: seq<int>): Memory
    requires IsArity(|t|)
  {
    if |t| == 4 then m.(t4 := m.t4 + [t])
    else if |t| == 5 then m.(t5 := m.t5 + [t])
    else m.(t8 := m.t8 + [t])
  }

  /**
   * `store(t)`: the pointer of the first row equal to `t`, or a new row
   * appended at the end of the table of arity `|t|`.
   */
  function Store(m: Memory, t: seq<int>): (r: Stored)
    requires IsArity(|t|)
    ensures r.ptr >= 1 && Load(r.mem, |t|, r.ptr) == Some(t)
    ensures Extends(m, r.mem) && r.mem.hashes == m.hashes
    ensures Unique(m) ==> Unique(r.mem)
    ensures t in Table(m, |t|) ==> r.mem == m
    ensures t !in Table(m, |t|) ==> r.ptr == |Table(m, |t|)| + 1
  {
    var tab := Table(m, |t|);
    var i := IndexOf(tab, t);
    if i < |tab| then Stored(m, i + 1)
    else
      var m' := WithRow(m, t);
      assert Table(m', |t|) == tab + [t];
      Stored(m', |tab| + 1)
  }

  /** Storing is idempotent: a second store of the same row changes nothing and returns the same pointer. */
  lemma {:induction false} StoreIdempotent(m: Memory, t: seq<int>)
    requires IsArity(|t|)
    ensures Store(Store(m, t).mem, t) == Store(m, t)
  {
    var r := Store(m, t);
    var tab := Table(r.mem, |t|);
    assert tab[r.ptr - 1] == t;
    var j := IndexOf(tab, t);
    if t in Table(m, |t|) {
      var i := IndexOf(Table(m, |t|), t);
      assert r.ptr == i + 1;
      assert j == i;
    } else {
      assert Table(m, |t|) <= tab;
      assert j == r.ptr - 1;
    }
  }

  /**
   * In a content-addressed memory, storing a row that is already present
   * returns the pointer it was loaded from.
   */
  lemma {:induction false} StoreFindsExisting(m: Memory, n: int, p: int)
    requires IsArity(n) && Unique(m) && Load(m, n, p).Some?
    ensures Store(m, Load(m, n, p).value) == Stored(m, p)
  {
    var tab := Table(m, n);
    var t := tab[p - 1];
    assert NoDup(tab);
    var i := IndexOf(tab, t);
    assert i <= p - 1;
    assert tab[i] == tab[p - 1];
  }

  /** Two successive stores that return the same pointer stored the same row. */
  lemma {:induction false} StoreInjective(m: Memory, s: seq<int>, t: seq<int>)
    requires IsArity(|s|) && |s| == |t|
    requires Store(Store(m, s).mem, t).ptr == Store(m, s).ptr
    ensures s == t
  {
    var r1 := Store(m, s);
    var r2 := Store(r1.mem, t);
    LoadStable(r1.mem, r2.mem, |s|, r1.ptr);
  }

  /** The hash3 inverse record after a call of hash3 on `pre`. */
  function RecordHash(h: seq<int> -> Row8, m: Memory, pre: seq<int>): (m': Memory)
    ensures Grows(h, m, m') && h(pre) in m'.hashes && m'.hashes[h(pre)] == pre
    ensures m'.t4 == m.t4 && m'.t5 == m.t5 && m'.t8 == m.t8
  {
    m.(hashes := m.hashes[h(pre) := pre])
  }

  /** `preimg(hash3, d)`: the recorded preimage of `d`, if hash3 has produced it. */
  function Preimg(m: Memory, d: seq<int>): (r: Option<seq<int>>)
    ensures r.Some? <==> d in m.hashes
    ensures r.Some? ==> m.hashes[d] == r.value
  {
    if d in m.hashes then Some(m.hashes[d]) else None
  }

  /**
   * With an injective hash: once `pre` has been hashed, any memory grown from
   * that point, whose record agrees with the hash, still inverts its digest to `pre`.
   */
  lemma PreimgAfterHash(h: seq<int> -> Row8, m: Memory, m': Memory, pre: seq<int>)
    requires forall x, y :: h(x) == h(y) ==> x == y
    requires h(pre) in m.hashes && Extends(m, m') && HashesAgree(m', h)
    ensures Preimg(m', h(pre)) == Some(pre)
  {
  }

  /** Why a run stopped without a value: an aborted assertion or load, or exhausted fuel. */
  datatype Reason = Panic | OutOfFuel

  /** The outcome of an evaluator function: the grown memory and its result, or a halt. */
  datatype Run<+A> = Ok(mem: Memory, out: A) | Halt(why: Reason)
  {
    predicate IsFailure() { Halt? }

    function PropagateFailure<B>(): Run<B>
      requires Halt?
    {
      Halt(why)
    }

    function Extract(): (r: Run<A>)
      requires Ok?
      ensures r.Ok? && r == this
    {
      this
    }
  }
}
