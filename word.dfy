/**
 * Fixed-width words of field limbs (`Word<T, W>` in the gadgets): the width
 * `W` is a const generic there and a length discipline here. Limbs are
 * little-endian: limb `i` carries weight 256^i when the limbs are bytes.
 */
module Words {
  import opened Wrappers

  const WORD32_SIZE: nat := 4
  const WORD64_SIZE: nat := 8

  type Byte = x: int | 0 <= x < 256

  datatype Word<A> = Word(limbs: seq<A>)

  function Pow256(n: nat): (r: nat)
    ensures r >= 1
  {
    if n == 0 then 1 else 256 * Pow256(n - 1)
  }

  /** The unsigned number a sequence of little-endian limbs denotes. */
  function LeValue(limbs: seq<int>): int
  {
    if limbs == [] then 0 else limbs[0] + 256 * LeValue(limbs[1..])
  }

  predicate AllBytes(limbs: seq<int>)
  {
    forall i :: 0 <= i < |limbs| ==> 0 <= limbs[i] < 256
  }

  /** `Word::zero`: all `w` limbs are 0. */
  function Zero(w: nat): (r: Word<int>)
    ensures |r.limbs| == w && forall i :: 0 <= i < w ==> r.limbs[i] == 0
  {
    Word(seq(w, _ => 0))
  }

  /** `Word::one`: limb 0 is 1 and every other limb is 0. */
  function One(w: nat): (r: Word<int>)
    ensures |r.limbs| == w
    ensures w > 0 ==> r.limbs[0] == 1
    ensures forall i :: 1 <= i < w ==> r.limbs[i] == 0
  {
    Word(seq(w, i => if i == 0 then 1 else 0))
  }

  /** `Word::from_unsigned`: the `w` little-endian bytes of an unsigned `u` that fits in `w` bytes. */
  function FromUnsigned(u: nat, w: nat): (r: Word<int>)
    requires u < Pow256(w)
    ensures |r.limbs| == w && AllBytes(r.limbs)
    ensures LeValue(r.limbs) == u
  {
    if w == 0 then Word([])
    else
      assert u / 256 < Pow256(w - 1);
      var rest := FromUnsigned(u / 256, w - 1);
      assert ([u % 256] + rest.limbs)[1..] == rest.limbs;
      Word([u % 256] + rest.limbs)
  }

  /** The value of `w` byte limbs is below 256^w. */
  lemma {:induction false} LeValueBound(limbs: seq<int>)
    requires AllBytes(limbs)
    ensures 0 <= LeValue(limbs) < Pow256(|limbs|)
  {
    if limbs != [] {
      LeValueBound(limbs[1..]);
    }
  }

  /** Byte limbs are determined by their value: `from_unsigned` inverts `LeValue`. */
  lemma {:induction false} FromUnsignedOfValue(limbs: seq<int>)
    requires AllBytes(limbs)
    ensures 0 <= LeValue(limbs) < Pow256(|limbs|)
    ensures FromUnsigned(LeValue(limbs), |limbs|) == Word(limbs)
  {
    LeValueBound(limbs);
    if limbs != [] {
      var v := LeValue(limbs);
      var tail := LeValue(limbs[1..]);
      LeValueBound(limbs[1..]);
      assert v % 256 == limbs[0] && v / 256 == tail;
      FromUnsignedOfValue(limbs[1..]);
      assert FromUnsigned(v, |limbs|).limbs == [limbs[0]] + limbs[1..];
    }
  }

  /** `zero()` and `one()` are the encodings of 0 and 1. */
  lemma {:induction false} ZeroOneValues(w: nat)
    ensures FromUnsigned(0, w) == Zero(w)
    ensures w > 0 ==> FromUnsigned(1, w) == One(w)
  {
    if w > 0 {
      ZeroOneValues(w - 1);
      assert FromUnsigned(0, w).limbs == [0] + Zero(w - 1).limbs;
      assert FromUnsigned(1, w).limbs == [1] + Zero(w - 1).limbs;
    }
  }

  /** `Word::map`: `f` applied limb by limb; the width is unchanged. */
  function Map<A, B>(x: Word<A>, f: A -> B): (r: Word<B>)
    ensures |r.limbs| == |x.limbs|
    ensures forall i :: 0 <= i < |x.limbs| ==> r.limbs[i] == f(x.limbs[i])
  {
    Word(seq(|x.limbs|, i requires 0 <= i < |x.limbs| => f(x.limbs[i])))
  }

  /** Mapping twice is mapping once with the composed function. */
  lemma MapCompose<A, B, C>(x: Word<A>, f: A -> B, g: B -> C)
    ensures Map(Map(x, f), g) == Map(x, a => g(f(a)))
  {
    assert Map(Map(x, f), g).limbs == Map(x, a => g(f(a))).limbs;
  }

  /**
   * `FromIterator for Word`: pulls exactly `w` items from an iterator that
   * yields `items`, then demands that the iterator is exhausted; `None`
   * stands for the panic on too few or too many items.
   */
  method FromIter<A>(items: seq<A>, w: nat) returns (r: Option<Word<A>>)
    ensures r.Some? <==> |items| == w
    ensures r.Some? ==> r.value.limbs == items
  {
    var limbs: seq<A> := [];
    var next := 0;
    while next < w
      invariant 0 <= next <= w && next <= |items|
      invariant limbs == items[..next]
    {
      if next >= |items| {
        return None;
      }
      limbs := limbs + [items[next]];
      next := next + 1;
    }
    if next < |items| {
      return None;
    }
    assert items[..next] == items;
    return Some(Word(limbs));
  }

  /** A request that `value` be range-checked as a byte, with the given multiplicity. */
  datatype RangeCheck = U8Check(value: int, multiplicity: int)

  function ByteChecks(values: seq<int>, multiplicity: int): (r: seq<RangeCheck>)
    ensures |r| == |values|
    ensures forall i :: 0 <= i < |values| ==> r[i] == U8Check(values[i], multiplicity)
  {
    seq(|values|, i requires 0 <= i < |values| => U8Check(values[i], multiplicity))
  }

  /** The byte range-check record: only the requests submitted to it are modelled. */
  class ByteRecord {
    var checks: seq<RangeCheck>

    constructor ()
      ensures checks == []
    {
      checks := [];
    }

    method RangeCheckU8Iter(values: seq<int>, multiplicity: int)
      modifies this
      ensures checks == old(checks) + ByteChecks(values, multiplicity)
    {
      checks := checks + ByteChecks(values, multiplicity);
    }
  }

  /** A word whose limbs have not been range-checked yet; its limbs are updated in place. */
  class UncheckedWord {
    const limbs: array<int>

    /** `Default`: `w` zero limbs. */
    constructor (w: nat)
      ensures fresh(limbs) && limbs.Length == w
      ensures forall i :: 0 <= i < w ==> limbs[i] == 0
    {
      limbs := new int[w](_ => 0);
    }

    /** `assign_bytes`: limb `i` becomes `bytes[i]`, and every byte is submitted for a range check. */
    method AssignBytes(bytes: seq<Byte>, record: ByteRecord)
      requires |bytes| == limbs.Length
      modifies limbs, record
      ensures limbs[..] == bytes
      ensures record.checks == old(record.checks) + ByteChecks(bytes, 1)
    {
      for i := 0 to limbs.Length
        invariant limbs[..i] == bytes[..i]
        modifies limbs
      {
        limbs[i] := bytes[i];
      }
      assert limbs[..] == limbs[..limbs.Length];
      record.RangeCheckU8Iter(bytes, 1);
    }

    /** `into_checked`: the same limbs as a `Word`, each submitted for a range check with multiplicity `isReal`. */
    method IntoChecked(record: ByteRecord, isReal: int) returns (w: Word<int>)
      modifies record
      ensures w.limbs == limbs[..]
      ensures record.checks == old(record.checks) + ByteChecks(limbs[..], isReal)
    {
      record.RangeCheckU8Iter(limbs[..], isReal);
      w := Word(limbs[..]);
    }

    /** `into_unchecked`: the same limbs as a `Word`, with no check. */
    method IntoUnchecked() returns (w: Word<int>)
      ensures w.limbs == limbs[..]
    {
      w := Word(limbs[..]);
    }
  }
}
