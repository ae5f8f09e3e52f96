/**
  Arithmetic modulo the group order.

  Scalars of the BLS12-381 group are integers in [0, q). A curve point is represented by its
  exponent with respect to the fixed generator, so the generator itself is 1, scalar
  multiplication is multiplication modulo q and point addition is addition modulo q.
*/
module Field {

  predicate Divides(d: int, n: int)
    requires d != 0
  {
    n % d == 0
  }

  ghost predicate Prime(q: int) {
    1 < q && forall d :: 1 < d < q ==> !Divides(d, q)
  }

  /** Two integers stand for the same scalar. */
  predicate Cong(a: int, b: int, q: int)
    requires 0 < q
  {
    a % q == b % q
  }

  /** `BigInt::reduce`: Rust's `%=` truncates toward zero, a negative remainder is shifted up. */
  method Reduce(a: int, m: int) returns (result: int)
    requires 0 < m
    ensures 0 <= result < m
    ensures exists k :: a == result + k * m
    ensures result == a % m
  {
    result := TruncatedRem(a, m);
    var k := TruncatedQuot(a, m);
    TruncatedDivision(a, m);
    if result < 0 {
      result := result + m;
      k := k - 1;
    }
    assert a == result + k * m;
    QuotientUnique(a, m, k, result);
  }

  function TruncatedQuot(a: int, m: int): int
    requires 0 < m
  {
    if a < 0 then -((-a) / m) else a / m
  }

  function TruncatedRem(a: int, m: int): int
    requires 0 < m
  {
    if a < 0 then -((-a) % m) else a % m
  }

  lemma TruncatedDivision(a: int, m: int)
    requires 0 < m
    ensures a == TruncatedRem(a, m) + TruncatedQuot(a, m) * m
    ensures -m < TruncatedRem(a, m) < m
  {
  }

  // ------------------------------------------------------------------ congruence is a ring congruence

  lemma QuotientUnique(x: int, q: int, d: int, r: int)
    requires 0 <= r < q
    requires x == r + d * q
    ensures x % q == r && x / q == d
  {
    var e := d - x / q;
    assert e * q == d * q - (x / q) * q;
    assert e * q == x % q - r;
    if e >= 1 {
      MulGrows(e, q);
    } else if e <= -1 {
      MulGrows(-e, q);
    }
  }

  lemma MulGrows(e: int, q: int)
    requires 1 <= e && 0 < q
    ensures e * q >= q
  {
    assert (e - 1) * q >= 0;
  }

  lemma CongShift(a: int, k: int, q: int)
    requires 0 < q
    ensures Cong(a + k * q, a, q)
  {
    assert a + k * q == a % q + (a / q + k) * q;
    QuotientUnique(a + k * q, q, a / q + k, a % q);
  }

  /** Congruent integers differ by a multiple of q. */
  lemma CongWitness(a: int, b: int, q: int) returns (k: int)
    requires 0 < q
    requires Cong(a, b, q)
    ensures a == b + k * q
  {
    k := a / q - b / q;
    assert a == a % q + (a / q) * q;
    assert b == b % q + (b / q) * q;
    assert k * q == (a / q) * q - (b / q) * q;
  }

  lemma CongMod(a: int, q: int)
    requires 0 < q
    ensures Cong(a % q, a, q)
  {
    QuotientUnique(a % q, q, 0, a % q);
  }

  lemma CongAdd(a: int, a': int, b: int, b': int, q: int)
    requires 0 < q
    requires Cong(a, a', q) && Cong(b, b', q)
    ensures Cong(a + b, a' + b', q)
  {
    var k := CongWitness(a, a', q);
    var l := CongWitness(b, b', q);
    assert a + b == (a' + b') + (k + l) * q;
    CongShift(a' + b', k + l, q);
  }

  lemma CongSub(a: int, a': int, b: int, b': int, q: int)
    requires 0 < q
    requires Cong(a, a', q) && Cong(b, b', q)
    ensures Cong(a - b, a' - b', q)
  {
    var k := CongWitness(a, a', q);
    var l := CongWitness(b, b', q);
    assert a - b == (a' - b') + (k - l) * q;
    CongShift(a' - b', k - l, q);
  }

  lemma CongMulLeft(a: int, a': int, b: int, q: int)
    requires 0 < q
    requires Cong(a, a', q)
    ensures Cong(a * b, a' * b, q)
  {
    var k := CongWitness(a, a', q);
    var m := k * b;
    assert a * b == a' * b + m * q by { AddMultiple(a', k, b, q); }
    CongShift(a' * b, m, q);
  }

  lemma CongMul(a: int, a': int, b: int, b': int, q: int)
    requires 0 < q
    requires Cong(a, a', q) && Cong(b, b', q)
    ensures Cong(a * b, a' * b', q)
  {
    CongMulLeft(a, a', b, q);
    CongMulLeft(b, b', a', q);
    assert b * a' == a' * b && b' * a' == a' * b';
  }

  lemma AddMultiple(a: int, k: int, b: int, q: int)
    ensures (a + k * q) * b == a * b + (k * b) * q
  {
    assert (k * q) * b == (k * b) * q;
  }

  /** Congruence transported to the remainder form used by the operations. */
  lemma CongSmall(a: int, b: int, q: int)
    requires 0 <= a < q && 0 <= b < q
    requires Cong(a, b, q)
    ensures a == b
  {
    QuotientUnique(a, q, 0, a);
    QuotientUnique(b, q, 0, b);
  }

  lemma ModSmall(a: int, q: int)
    requires 0 <= a < q
    ensures a % q == a
  {
    QuotientUnique(a, q, 0, a);
  }

  lemma CongZeroDiff(a: int, b: int, q: int)
    requires 0 < q
    ensures Cong(a - b, 0, q) <==> Cong(a, b, q)
  {
    if Cong(a - b, 0, q) {
      CongAdd(a - b, 0, b, b, q);
    }
    if Cong(a, b, q) {
      CongSub(a, b, b, b, q);
    }
  }

  // ------------------------------------------------------------------ inverses modulo a prime

  /** The multiplicative inverse of a, by the recursion q = (q / a) * a + q % a. */
  function Inv(a: int, q: int): (r: int)
    requires 0 < a < q
    decreases a
  {
    if a == 1 || q % a == 0 then 1 else ((q - q / a) * Inv(q % a, q)) % q
  }

  lemma InvStep(a: int, d: int, r: int, i: int, q: int)
    requires q == a * d + r
    ensures a * ((q - d) * i) == r * i + ((a - 1) * i) * q
  {
    calc {
      a * ((q - d) * i);
      (a * q - a * d) * i;
      (a * q - q + r) * i;
      r * i + (a * q - q) * i;
      r * i + ((a - 1) * q) * i;
      r * i + ((a - 1) * i) * q;
    }
  }

  lemma DivMod(q: int, a: int) returns (d: int, r: int)
    requires 0 < a
    ensures d == q / a && r == q % a && q == a * d + r && 0 <= r < a
  {
    d, r := q / a, q % a;
  }

  lemma InvCombine(a: int, d: int, r: int, i: int, q: int)
    requires 0 < q == a * d + r
    requires Cong(r * i, 1, q)
    ensures Cong(a * (((q - d) * i) % q), 1, q)
  {
    var j := (q - d) * i;
    InvStep(a, d, r, i, q);
    CongShift(r * i, (a - 1) * i, q);
    CongMod(j, q);
    CongMul(a, a, j % q, j, q);
  }

  lemma {:induction false} InvInverts(a: int, q: int)
    requires Prime(q) && 0 < a < q
    ensures 0 <= Inv(a, q) < q
    ensures Cong(a * Inv(a, q), 1, q)
    decreases a
  {
    if a > 1 {
      assert !Divides(a, q);
      var d, r := DivMod(q, a);
      InvInverts(r, q);
      InvCombine(a, d, r, Inv(r, q), q);
    }
  }

  /** The inverse of any integer that is not 0 modulo q. */
  function InvMod(a: int, q: int): (r: int)
    requires 0 < q && !Cong(a, 0, q)
  {
    CongMod(a, q);
    Inv(a % q, q)
  }

  lemma InvModInverts(a: int, q: int)
    requires Prime(q) && !Cong(a, 0, q)
    ensures 0 <= InvMod(a, q) < q
    ensures Cong(a * InvMod(a, q), 1, q)
  {
    ModSmall(0, q);
    InvInverts(a % q, q);
    CongMod(a, q);
    CongMul(a % q, a, InvMod(a, q), InvMod(a, q), q);
  }

  /** There are no zero divisors modulo a prime. */
  lemma CancelFactor(a: int, b: int, q: int)
    requires Prime(q) && !Cong(a, 0, q)
    requires Cong(a * b, 0, q)
    ensures Cong(b, 0, q)
  {
    InvModInverts(a, q);
    var i := InvMod(a, q);
    CongMul(a * b, 0, i, i, q);
    CongMul(a * i, 1, b, b, q);
    assert a * b * i == a * i * b;
  }

  lemma CancelEqual(a: int, b: int, c: int, q: int)
    requires Prime(q) && !Cong(a, 0, q)
    requires Cong(a * b, a * c, q)
    ensures Cong(b, c, q)
  {
    CongZeroDiff(a * b, a * c, q);
    assert a * (b - c) == a * b - a * c;
    CancelFactor(a, b - c, q);
    CongZeroDiff(b, c, q);
  }
}
