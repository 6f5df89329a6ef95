/**
 * Arithmetic in the BabyBear prime field, p = 15 * 2^27 + 1, in which Lurk's
 * `Num` values and all pointers live. Elements are kept as canonical integers
 * in [0, P).
 */
module Field {
  const P: int := 2013265921

  function Add(a: int, b: int): (r: int)
    ensures 0 <= r < P
  {
    (a + b) % P
  }

  function Sub(a: int, b: int): (r: int)
    ensures 0 <= r < P
  {
    (a - b) % P
  }

  function Mul(a: int, b: int): (r: int)
    ensures 0 <= r < P
  {
    (a * b) % P
  }

  /** Zero as a field element: a multiple of P. */
  predicate IsZero(a: int)
  {
    a % P == 0
  }

  /** The Bezout coefficients `a * x + b * y == g` of the extended Euclidean algorithm. */
  datatype Bezout = Bezout(g: int, x: int, y: int)

  function Egcd(a: nat, b: nat): (r: Bezout)
    ensures a * r.x + b * r.y == r.g
    ensures r.g >= 0
    decreases b
  {
    if b == 0 then Bezout(a, 1, 0)
    else
      var q := a / b;
      var rest := Egcd(b, a % b);
      assert a % b == a - q * b;
      assert b * rest.x + (a - q * b) * rest.y == rest.g;
      assert a * rest.y + b * (rest.x - q * rest.y) == rest.g by {
        assert (a - q * b) * rest.y == a * rest.y - b * (q * rest.y);
        assert b * (rest.x - q * rest.y) == b * rest.x - b * (q * rest.y);
      }
      Bezout(rest.g, rest.y, rest.x - q * rest.y)
  }

  /** The multiplicative inverse, read off the Bezout coefficient of `b`. */
  function Inv(b: int): (r: int)
    ensures 0 <= r < P
  {
    Egcd(b % P, P).x % P
  }

  /** Field division `a * b^-1` (the caller rules out `b == 0`). */
  function Div(a: int, b: int): (r: int)
    ensures 0 <= r < P
  {
    Mul(a, Inv(b))
  }

  /**
   * Multiplying the quotient back by the divisor recovers the dividend
   * whenever the divisor is coprime with P, which in the prime field is
   * every non-zero element (primality of P is not proved here).
   */
  lemma {:induction false} DivMul(a: int, b: int)
    requires Egcd(b % P, P).g == 1
    ensures Mul(Div(a, b), b) == a % P
  {
    var e := Egcd(b % P, P);
    var bb := b % P;
    assert bb * e.x + P * e.y == 1;
    var i := e.x % P;
    InvIsInverse(bb, e.x, e.y, b);
    assert Mul(b, i) == 1;
    MulAssoc(a, i, b);
  }

  lemma InvIsInverse(bb: int, x: int, y: int, b: int)
    requires bb == b % P
    requires bb * x + P * y == 1
    ensures (b * (x % P)) % P == 1
  {
    var kb := b / P;
    var kx := x / P;
    assert b == bb + P * kb;
    assert x == x % P + P * kx;
    assert b * (x % P) == b * x - b * P * kx;
    assert b * x == bb * x + P * kb * x;
    assert b * (x % P) == 1 + P * (kb * x - y - b * kx);
    ModMultiple(1, kb * x - y - b * kx);
  }

  lemma ModMultiple(r: int, k: int)
    requires 0 <= r < P
    ensures (r + P * k) % P == r
  {
  }

  lemma MulAssoc(a: int, i: int, b: int)
    requires (b * i) % P == 1
    ensures Mul(Mul(a, i), b) == a % P
  {
    var ai := a * i;
    var q := ai / P;
    assert (ai % P) * b == ai * b - P * (q * b);
    ModShift(ai * b, q * b);
    assert Mul(Mul(a, i), b) == (ai * b) % P;
    var bi := b * i;
    var s := bi / P;
    assert bi == 1 + P * s;
    assert ai * b == a * bi;
    assert a * bi == a + P * (a * s);
    ModShift(a + P * (a * s), a * s);
  }

  lemma ModShift(x: int, k: int)
    ensures (x - P * k) % P == x % P
  {
  }
}
