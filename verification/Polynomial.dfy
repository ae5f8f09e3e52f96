/**
  Polynomials over the scalars, and polynomials whose coefficients are hidden in the exponent.

  A coefficient list runs from the constant term upward. Evaluation is kept over the integers and
  reduced once, as `key_split_with_poly` does with big integers.
*/
module Polynomial {
  import opened Field

  // ------------------------------------------------------------------ evaluation

  function Pow(x: int, n: nat): int {
    if n == 0 then 1 else x * Pow(x, n - 1)
  }

  /** The textbook meaning: the sum of cs[i] * x^i for i < n. */
  function PowerSum(cs: seq<int>, x: int, n: nat): int
    requires n <= |cs|
  {
    if n == 0 then 0 else PowerSum(cs, x, n - 1) + cs[n - 1] * Pow(x, n - 1)
  }

  /** The nested form that induction over the coefficient list follows. */
  function Eval(cs: seq<int>, x: int): int {
    if cs == [] then 0 else cs[0] + x * Eval(cs[1..], x)
  }

  lemma PowerSumShift(cs: seq<int>, x: int, n: nat)
    requires 1 <= n <= |cs|
    ensures PowerSum(cs, x, n) == cs[0] + x * PowerSum(cs[1..], x, n - 1)
  {
    if n > 1 {
      PowerSumShift(cs, x, n - 1);
      assert cs[1..][n - 2] == cs[n - 1];
      FactorOut(x, cs[n - 1], Pow(x, n - 2), PowerSum(cs[1..], x, n - 2));
    }
  }

  lemma FactorOut(x: int, c: int, p: int, s: int)
    ensures x * (s + c * p) == x * s + c * (x * p)
  {
    assert x * (c * p) == c * (x * p);
  }

  lemma {:induction false} EvalIsPowerSum(cs: seq<int>, x: int)
    ensures Eval(cs, x) == PowerSum(cs, x, |cs|)
  {
    if cs != [] {
      EvalIsPowerSum(cs[1..], x);
      PowerSumShift(cs, x, |cs|);
    }
  }

  /** `Polynomial::eval`: Horner's rule from the leading coefficient down; no coefficients give zero. */
  method HornerEval(coeffs: seq<int>, x: int) returns (sum: int)
    ensures sum == PowerSum(coeffs, x, |coeffs|)
    ensures sum == Eval(coeffs, x)
  {
    EvalIsPowerSum(coeffs, x);
    if coeffs == [] {
      return 0;
    }
    sum := coeffs[|coeffs| - 1];
    for i := |coeffs| - 1 downto 0
      invariant sum == Eval(coeffs[i..], x)
    {
      sum := sum * x;
      sum := sum + coeffs[i];
      assert coeffs[i..][1..] == coeffs[i + 1..];
    }
  }

  // ------------------------------------------------------------------ commitments

  predicate InField(cs: seq<int>, q: int) {
    forall i :: 0 <= i < |cs| ==> 0 <= cs[i] < q
  }

  ghost predicate CongAll(cs: seq<int>, bs: seq<int>, q: int)
    requires 0 < q
  {
    |cs| == |bs| && forall i :: 0 <= i < |cs| ==> Cong(cs[i], bs[i], q)
  }

  function Scale(cs: seq<int>, g: int): (r: seq<int>) {
    seq(|cs|, i requires 0 <= i < |cs| => g * cs[i])
  }

  function ReduceAll(cs: seq<int>, q: int): (r: seq<int>)
    requires 0 < q
  {
    seq(|cs|, i requires 0 <= i < |cs| => cs[i] % q)
  }

  lemma ReduceAllCong(cs: seq<int>, q: int)
    requires 0 < q
    ensures CongAll(ReduceAll(cs, q), cs, q) && InField(ReduceAll(cs, q), q)
  {
    forall i | 0 <= i < |cs| ensures Cong(ReduceAll(cs, q)[i], cs[i], q) {
      CongMod(cs[i], q);
    }
  }

  const SCALAR_LIMIT: nat := 0x8000000000000000000000000000000000000000000000000000000000000000

  /** The scalar made of a coefficient: its sign is dropped, and only the low 255 bits of its magnitude are used. */
  function ScalarOf(c: int): (s: nat) {
    (if c < 0 then -c else c) % SCALAR_LIMIT
  }

  /** Coefficients up to the limit are their own scalar, the sign makes no difference, and neither do higher bits. */
  lemma ScalarMeans(c: int, k: nat)
    ensures 0 <= c < SCALAR_LIMIT ==> ScalarOf(c) == c
    ensures ScalarOf(-c) == ScalarOf(c)
    ensures 0 <= c < SCALAR_LIMIT ==> ScalarOf(c + k * SCALAR_LIMIT) == c
  {
    if 0 <= c < SCALAR_LIMIT {
      ModSmall(c, SCALAR_LIMIT);
      QuotientUnique(c + k * SCALAR_LIMIT, SCALAR_LIMIT, k, c);
    }
  }

  /**
    `Polynomial::commit`: every coefficient is moved into the exponent of g. For coefficients in the field, which
    is smaller than the limit, these are the commitments to the polynomial.
  */
  method Commit(coeffs: seq<int>, g: int, q: int) returns (commitments: seq<int>)
    requires 0 < q
    ensures |commitments| == |coeffs|
    ensures forall i :: 0 <= i < |coeffs| ==> commitments[i] == (g * ScalarOf(coeffs[i])) % q
    ensures q <= SCALAR_LIMIT && InField(coeffs, q) ==> commitments == ReduceAll(Scale(coeffs, g), q)
  {
    commitments := [];
    for i := 0 to |coeffs|
      invariant |commitments| == i
      invariant forall j :: 0 <= j < i ==> commitments[j] == (g * ScalarOf(coeffs[j])) % q
    {
      commitments := commitments + [(g * ScalarOf(coeffs[i])) % q];
    }
    if q <= SCALAR_LIMIT && InField(coeffs, q) {
      forall i | 0 <= i < |coeffs| ensures ScalarOf(coeffs[i]) == coeffs[i] {
        ModSmall(coeffs[i], SCALAR_LIMIT);
      }
    }
  }

  /** `CommittedPoly::eval`: running powers of x, every step reduced; an empty commitment is refused. */
  method CommittedEval(commitments: seq<int>, x: int, q: int) returns (y: int)
    requires 0 < q && commitments != [] && InField(commitments, q)
    ensures y == Eval(commitments, x) % q
  {
    y := commitments[0];
    var xPower := x;
    assert Pow(x, 0) == 1 && Pow(x, 1) == x * Pow(x, 0);
    assert PowerSum(commitments, x, 1) == PowerSum(commitments, x, 0) + commitments[0] * Pow(x, 0);
    for i := 1 to |commitments|
      invariant 0 <= y < q
      invariant Cong(y, PowerSum(commitments, x, i), q)
      invariant Cong(xPower, Pow(x, i), q)
    {
      var term := (commitments[i] * xPower) % q;
      CongMod(commitments[i] * xPower, q);
      CongMul(commitments[i], commitments[i], xPower, Pow(x, i), q);
      CongAdd(y, PowerSum(commitments, x, i), term, commitments[i] * Pow(x, i), q);
      CongMod(y + term, q);
      y := (y + term) % q;
      CongMod(xPower * x, q);
      CongMul(xPower, Pow(x, i), x, x, q);
      assert Pow(x, i) * x == x * Pow(x, i);
      xPower := (xPower * x) % q;
    }
    EvalIsPowerSum(commitments, x);
    ModSmall(y, q);
  }

  lemma {:induction false} EvalCong(cs: seq<int>, bs: seq<int>, x: int, y: int, q: int)
    requires 0 < q && CongAll(cs, bs, q) && Cong(x, y, q)
    ensures Cong(Eval(cs, x), Eval(bs, y), q)
  {
    if cs != [] {
      EvalCong(cs[1..], bs[1..], x, y, q);
      CongMul(x, y, Eval(cs[1..], x), Eval(bs[1..], y), q);
      CongAdd(cs[0], bs[0], x * Eval(cs[1..], x), y * Eval(bs[1..], y), q);
    }
  }

  lemma {:induction false} EvalScale(cs: seq<int>, g: int, x: int)
    ensures Eval(Scale(cs, g), x) == g * Eval(cs, x)
  {
    if cs != [] {
      EvalScale(cs[1..], g, x);
      assert Scale(cs, g)[1..] == Scale(cs[1..], g);
      FactorOut(g, x, Eval(cs[1..], x), cs[0]);
    }
  }

  /** Committing is homomorphic: evaluating the commitment is committing the evaluation. */
  lemma CommittedEvalIsCommitment(cs: seq<int>, g: int, x: int, q: int)
    requires 0 < q
    ensures Eval(ReduceAll(Scale(cs, g), q), x) % q == (g * (Eval(cs, x) % q)) % q
  {
    ReduceAllCong(Scale(cs, g), q);
    EvalCong(ReduceAll(Scale(cs, g), q), Scale(cs, g), x, x, q);
    EvalScale(cs, g, x);
    CongMod(Eval(cs, x), q);
    CongMul(g, g, Eval(cs, x) % q, Eval(cs, x), q);
  }

  // ------------------------------------------------------------------ wire format

  type byte = b: int | 0 <= b < 256

  const POINT_BYTES: nat := 48
  const U32: nat := 0x1_0000_0000

  /** `u32::to_be_bytes` after the truncating cast `as u32`. */
  function LengthPrefix(n: nat): (r: seq<byte>) {
    var m := n % U32;
    [m / 0x100_0000, m / 0x1_0000 % 0x100, m / 0x100 % 0x100, m % 0x100]
  }

  function ReadLength(bytes: seq<byte>): (n: nat)
    requires |bytes| >= 4
  {
    (bytes[0] as int) * 0x100_0000 + (bytes[1] as int) * 0x1_0000 + (bytes[2] as int) * 0x100 + (bytes[3] as int)
  }

  lemma LengthRoundTrip(n: nat)
    ensures ReadLength(LengthPrefix(n)) == n % U32
  {
    var m := n % U32;
    var m1 := m / 0x100;
    var m2 := m1 / 0x100;
    assert m / 0x1_0000 == m2;
    assert m / 0x100_0000 == m2 / 0x100;
  }

  datatype Decoded = Commitments(points: seq<int>) | OutOfBounds

  ghost predicate PointCodec(compress: int -> seq<byte>, uncompress: seq<byte> -> int) {
    forall p :: |compress(p)| == POINT_BYTES && uncompress(compress(p)) == p
  }

  function Concat(cs: seq<int>, compress: int -> seq<byte>): seq<byte> {
    if cs == [] then [] else compress(cs[0]) + Concat(cs[1..], compress)
  }

  lemma ConcatAppend(cs: seq<int>, c: int, compress: int -> seq<byte>)
    ensures Concat(cs + [c], compress) == Concat(cs, compress) + compress(c)
  {
    if cs == [] {
      assert cs + [c] == [c];
    } else {
      assert (cs + [c])[1..] == cs[1..] + [c];
    }
  }

  /** `CommittedPoly::to_bytes` */
  method ToBytes(cs: seq<int>, compress: int -> seq<byte>) returns (bytes: seq<byte>)
    ensures bytes == LengthPrefix(|cs|) + Concat(cs, compress)
    ensures |bytes| >= 4 && |cs| % U32 ==
      (bytes[0] as int) * 0x100_0000 + (bytes[1] as int) * 0x1_0000 + (bytes[2] as int) * 0x100 + (bytes[3] as int)
  {
    LengthRoundTrip(|cs|);
    bytes := LengthPrefix(|cs|);
    for i := 0 to |cs|
      invariant bytes == LengthPrefix(|cs|) + Concat(cs[..i], compress)
    {
      assert cs[..i + 1] == cs[..i] + [cs[i]];
      ConcatAppend(cs[..i], cs[i], compress);
      bytes := bytes + compress(cs[i]);
    }
    assert cs[..|cs|] == cs;
  }

  function Chunk(bytes: seq<byte>, i: nat): (r: seq<byte>)
    requires 4 + (i + 1) * POINT_BYTES <= |bytes|
  {
    bytes[4 + i * POINT_BYTES..4 + (i + 1) * POINT_BYTES]
  }

  /** `CommittedPoly::from_bytes`: a slice past the end of the input is a panic. */
  method FromBytes(bytes: seq<byte>, uncompress: seq<byte> -> int) returns (r: Decoded)
    ensures r.OutOfBounds? <==> |bytes| < 4 || |bytes| < 4 + ReadLength(bytes) * POINT_BYTES
    ensures r.Commitments? ==>
      && |r.points| == ReadLength(bytes)
      && forall i :: 0 <= i < |r.points| ==> r.points[i] == uncompress(Chunk(bytes, i))
  {
    if |bytes| < 4 {
      return OutOfBounds;
    }
    var index := 4;
    var size := ReadLength(bytes);
    var points := [];
    for i := 0 to size
      invariant |points| == i && index == 4 + i * POINT_BYTES <= |bytes|
      invariant forall j :: 0 <= j < i ==> points[j] == uncompress(Chunk(bytes, j))
    {
      if index + POINT_BYTES > |bytes| {
        return OutOfBounds;
      }
      points := points + [uncompress(bytes[index..index + POINT_BYTES])];
      index := index + POINT_BYTES;
    }
    return Commitments(points);
  }

  lemma {:induction false} ConcatChunks(cs: seq<int>, compress: int -> seq<byte>, uncompress: seq<byte> -> int, i: nat)
    requires PointCodec(compress, uncompress)
    ensures |Concat(cs, compress)| == |cs| * POINT_BYTES
    ensures i < |cs| ==> Concat(cs, compress)[i * POINT_BYTES..(i + 1) * POINT_BYTES] == compress(cs[i])
  {
    if cs != [] {
      var head, tail := compress(cs[0]), Concat(cs[1..], compress);
      assert uncompress(head) == cs[0];
      ConcatChunks(cs[1..], compress, uncompress, if i == 0 then 0 else i - 1);
      if 0 < i < |cs| {
        assert (head + tail)[i * POINT_BYTES..(i + 1) * POINT_BYTES] == tail[(i - 1) * POINT_BYTES..i * POINT_BYTES];
      } else if i == 0 {
        assert (head + tail)[0..POINT_BYTES] == head;
      }
    }
  }

  lemma ChunkOfBody(prefix: seq<byte>, body: seq<byte>, rest: seq<byte>, i: nat)
    requires |prefix| == 4 && (i + 1) * POINT_BYTES <= |body|
    ensures Chunk(prefix + body + rest, i) == body[i * POINT_BYTES..(i + 1) * POINT_BYTES]
  {
    assert (prefix + body + rest)[4..4 + |body|] == body;
    assert i * POINT_BYTES <= (i + 1) * POINT_BYTES;
  }

  /**
    Decoding what was encoded gives back the commitments exactly when their number fits in 32 bits;
    the cast of the length drops the high bits otherwise. Trailing bytes are ignored.
  */
  method RoundTrip(cs: seq<int>, rest: seq<byte>, compress: int -> seq<byte>, uncompress: seq<byte> -> int)
    returns (r: Decoded)
    requires PointCodec(compress, uncompress)
    ensures r == Commitments(cs[..|cs| % U32])
    ensures r == Commitments(cs) <==> |cs| < U32
  {
    var bytes := ToBytes(cs, compress);
    ghost var prefix, body := LengthPrefix(|cs|), Concat(cs, compress);
    LengthRoundTrip(|cs|);
    ConcatChunks(cs, compress, uncompress, 0);
    r := FromBytes(bytes + rest, uncompress);
    assert ReadLength(bytes + rest) == |cs| % U32;
    forall i | 0 <= i < |cs| % U32 ensures r.points[i] == cs[i] {
      ConcatChunks(cs, compress, uncompress, i);
      ChunkOfBody(prefix, body, rest, i);
    }
  }
}
