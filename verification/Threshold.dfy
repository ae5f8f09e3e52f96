/**
  Combining partial signatures.

  The hash of the message is a point m of the signature group, a signature under the key s is s * m,
  and a signature verifies under the public key p exactly when it equals p * m: this is what the
  pairing equation says about exponents.
*/
module Threshold {
  import opened Field
  import opened Polynomial
  import opened Shamir

  // ------------------------------------------------------------------ Lagrange coefficients at zero

  lemma DifferenceInvertible(xs: seq<int>, i: nat, j: nat, q: int)
    requires 0 < q && Distinct(xs, q) && i < |xs| && j < |xs| && i != j
    ensures !Cong(xs[j] - xs[i], 0, q)
  {
    if Cong(xs[j] - xs[i], 0, q) { CongZeroDiff(xs[j], xs[i], q); }
  }

  ghost function DiffInv(xs: seq<int>, i: nat, j: nat, q: int): int
    requires 0 < q && Distinct(xs, q) && i < |xs| && j < |xs| && i != j
  {
    DifferenceInvertible(xs, i, j, q);
    InvMod(xs[j] - xs[i], q)
  }

  /** The product of xs[j] / (xs[j] - xs[i]) over j < k other than i. */
  ghost function LagrangeProduct(xs: seq<int>, i: nat, k: nat, q: int): int
    requires 0 < q && Distinct(xs, q) && i < |xs| && k <= |xs|
  {
    if k == 0 then 1
    else if k - 1 == i then LagrangeProduct(xs, i, k - 1, q)
    else LagrangeProduct(xs, i, k - 1, q) * (xs[k - 1] * DiffInv(xs, i, k - 1, q))
  }

  /** `lagrange_coeffs` */
  method LagrangeCoeffs(xs: seq<int>, q: int) returns (coeffs: seq<int>)
    requires 0 < q && Distinct(xs, q)
    ensures |coeffs| == |xs|
    ensures forall i :: 0 <= i < |xs| ==> coeffs[i] == LagrangeProduct(xs, i, |xs|, q) % q
  {
    coeffs := [];
    for i := 0 to |xs|
      invariant |coeffs| == i
      invariant forall l :: 0 <= l < i ==> coeffs[l] == LagrangeProduct(xs, l, |xs|, q) % q
    {
      var p := 1 % q;
      for j := 0 to |xs|
        invariant p == LagrangeProduct(xs, i, j, q) % q
      {
        if i != j {
          DifferenceInvertible(xs, i, j, q);
          var diff := (xs[j] - xs[i]) % q;
          CongMod(xs[j] - xs[i], q);
          var inv := InvMod(diff, q);
          assert inv == DiffInv(xs, i, j, q);
          var tmp := (xs[j] * inv) % q;
          ProductMod(LagrangeProduct(xs, i, j, q), xs[j] * inv, q);
          p := (p * tmp) % q;
        }
      }
      coeffs := coeffs + [p];
    }
  }

  lemma ProductMod(a: int, b: int, q: int)
    requires 0 < q
    ensures ((a % q) * (b % q)) % q == (a * b) % q
  {
    CongMod(a, q);
    CongMod(b, q);
    CongMul(a % q, a, b % q, b, q);
  }

  // ------------------------------------------------------------------ the basis polynomials

  /** The coefficients of the product of (xs[j] - x) / (xs[j] - xs[i]) over j < k other than i. */
  ghost function Basis(xs: seq<int>, i: nat, k: nat, q: int): (p: seq<int>)
    requires 0 < q && Distinct(xs, q) && i < |xs| && k <= |xs|
    ensures |p| == 1 + k - if i < k then 1 else 0
  {
    if k == 0 then [1]
    else if k - 1 == i then Basis(xs, i, k - 1, q)
    else Scale(LinMul(Basis(xs, i, k - 1, q), xs[k - 1], 0), -DiffInv(xs, i, k - 1, q))
  }

  lemma BasisStep(xs: seq<int>, i: nat, k: nat, x: int, q: int)
    requires 0 < q && Distinct(xs, q) && i < |xs| && 0 < k <= |xs| && k - 1 != i
    ensures Eval(Basis(xs, i, k, q), x) ==
      Eval(Basis(xs, i, k - 1, q), x) * ((xs[k - 1] - x) * DiffInv(xs, i, k - 1, q))
  {
    var b, d, r := Basis(xs, i, k - 1, q), DiffInv(xs, i, k - 1, q), xs[k - 1];
    EvalScale(LinMul(b, r, 0), -d, x);
    EvalLinMul(b, r, 0, x);
    FlipSigns(d, x, r, Eval(b, x));
  }

  lemma FlipSigns(d: int, x: int, r: int, e: int)
    ensures -d * (0 + (x - r) * e) == e * ((r - x) * d)
  {
    assert (x - r) * e == -(e * (r - x));
    assert -d * -(e * (r - x)) == e * ((r - x) * d);
  }

  lemma {:induction false} BasisAtZero(xs: seq<int>, i: nat, k: nat, q: int)
    requires 0 < q && Distinct(xs, q) && i < |xs| && k <= |xs|
    ensures Eval(Basis(xs, i, k, q), 0) == LagrangeProduct(xs, i, k, q)
  {
    if k > 0 {
      BasisAtZero(xs, i, k - 1, q);
      if k - 1 != i { BasisStep(xs, i, k, 0, q); }
    }
  }

  lemma {:induction false} BasisAtOwnPoint(xs: seq<int>, i: nat, k: nat, q: int)
    requires Prime(q) && Distinct(xs, q) && i < |xs| && k <= |xs|
    ensures Cong(Eval(Basis(xs, i, k, q), xs[i]), 1, q)
  {
    if k > 0 {
      BasisAtOwnPoint(xs, i, k - 1, q);
      if k - 1 != i {
        BasisStep(xs, i, k, xs[i], q);
        DifferenceInvertible(xs, i, k - 1, q);
        InvModInverts(xs[k - 1] - xs[i], q);
        CongMul(Eval(Basis(xs, i, k - 1, q), xs[i]), 1, (xs[k - 1] - xs[i]) * DiffInv(xs, i, k - 1, q), 1, q);
      }
    }
  }

  lemma {:induction false} BasisAtOtherPoint(xs: seq<int>, i: nat, k: nat, j: nat, q: int)
    requires 0 < q && Distinct(xs, q) && i < |xs| && j < k <= |xs| && j != i
    ensures Eval(Basis(xs, i, k, q), xs[j]) == 0
  {
    if k - 1 == i {
      BasisAtOtherPoint(xs, i, k - 1, j, q);
    } else {
      BasisStep(xs, i, k, xs[j], q);
      if k - 1 == j {
        FactorZero(Eval(Basis(xs, i, j, q), xs[j]), DiffInv(xs, i, j, q));
      } else {
        BasisAtOtherPoint(xs, i, k - 1, j, q);
      }
    }
  }

  lemma FactorZero(e: int, d: int)
    ensures e * (0 * d) == 0
  {
  }

  // ------------------------------------------------------------------ interpolation at zero

  function Dot(cs: seq<int>, vs: seq<int>, k: nat): int
    requires k <= |cs| && k <= |vs|
  {
    if k == 0 then 0 else Dot(cs, vs, k - 1) + cs[k - 1] * vs[k - 1]
  }

  function Plus(cs: seq<int>, ds: seq<int>): (r: seq<int>)
    requires |cs| == |ds|
  {
    seq(|cs|, i requires 0 <= i < |cs| => cs[i] + ds[i])
  }

  lemma {:induction false} EvalPlus(cs: seq<int>, ds: seq<int>, x: int)
    requires |cs| == |ds|
    ensures Eval(Plus(cs, ds), x) == Eval(cs, x) + Eval(ds, x)
  {
    if cs != [] {
      EvalPlus(cs[1..], ds[1..], x);
      assert Plus(cs, ds)[1..] == Plus(cs[1..], ds[1..]);
    }
  }

  function Zeros(n: nat): (r: seq<int>) {
    seq(n, i => 0)
  }

  lemma {:induction false} EvalZeros(n: nat, x: int)
    ensures Eval(Zeros(n), x) == 0
  {
    if n > 0 {
      assert Zeros(n)[1..] == Zeros(n - 1);
      EvalZeros(n - 1, x);
    }
  }

  ghost predicate SameLength(ps: seq<seq<int>>, n: nat) {
    forall i :: 0 <= i < |ps| ==> |ps[i]| == n
  }

  /** The combination of the first k polynomials with the given weights. */
  ghost function Combination(ps: seq<seq<int>>, ys: seq<int>, k: nat, n: nat): (p: seq<int>)
    requires k <= |ps| == |ys| && SameLength(ps, n)
    ensures |p| == n
  {
    if k == 0 then Zeros(n) else Plus(Combination(ps, ys, k - 1, n), Scale(ps[k - 1], ys[k - 1]))
  }

  ghost function ValuesOf(ps: seq<seq<int>>, x: int): (r: seq<int>) {
    seq(|ps|, i requires 0 <= i < |ps| => Eval(ps[i], x))
  }

  lemma {:induction false} CombinationEval(ps: seq<seq<int>>, ys: seq<int>, k: nat, n: nat, x: int)
    requires k <= |ps| == |ys| && SameLength(ps, n)
    ensures Eval(Combination(ps, ys, k, n), x) == Dot(ValuesOf(ps, x), ys, k)
  {
    if k == 0 {
      EvalZeros(n, x);
    } else {
      CombinationEval(ps, ys, k - 1, n, x);
      EvalScale(ps[k - 1], ys[k - 1], x);
      EvalPlus(Combination(ps, ys, k - 1, n), Scale(ps[k - 1], ys[k - 1]), x);
      Commute(ys[k - 1], Eval(ps[k - 1], x));
    }
  }

  lemma Commute(a: int, b: int)
    ensures a * b == b * a
  {
  }

  ghost function BasisAll(xs: seq<int>, q: int): (r: seq<seq<int>>)
    requires 0 < q && Distinct(xs, q)
    ensures |r| == |xs| && SameLength(r, |xs|)
  {
    seq(|xs|, i requires 0 <= i < |xs| => Basis(xs, i, |xs|, q))
  }

  /** Basis values that are 1 at j and 0 elsewhere pick out the j-th value. */
  lemma {:induction false} DotPicks(bs: seq<int>, ys: seq<int>, k: nat, j: nat, q: int)
    requires 0 < q && k <= |bs| == |ys| && j < |bs|
    requires Cong(bs[j], 1, q) && forall i :: 0 <= i < |bs| && i != j ==> bs[i] == 0
    ensures Cong(Dot(bs, ys, k), if j < k then ys[j] else 0, q)
  {
    if k > 0 {
      DotPicks(bs, ys, k - 1, j, q);
      if j == k - 1 {
        CongMul(bs[j], 1, ys[j], ys[j], q);
        CongAdd(Dot(bs, ys, k - 1), 0, bs[j] * ys[j], ys[j], q);
      }
    }
  }

  lemma BasisPicks(xs: seq<int>, ys: seq<int>, j: nat, q: int)
    requires Prime(q) && Distinct(xs, q) && |xs| == |ys| && j < |xs|
    ensures Cong(Dot(ValuesOf(BasisAll(xs, q), xs[j]), ys, |xs|), ys[j], q)
  {
    var bs := ValuesOf(BasisAll(xs, q), xs[j]);
    BasisAtOwnPoint(xs, j, |xs|, q);
    forall i | 0 <= i < |xs| && i != j ensures bs[i] == 0 {
      BasisAtOtherPoint(xs, i, |xs|, j, q);
    }
    DotPicks(bs, ys, |xs|, j, q);
  }

  ghost function LagrangeAll(xs: seq<int>, q: int): (r: seq<int>)
    requires 0 < q && Distinct(xs, q)
  {
    seq(|xs|, i requires 0 <= i < |xs| => LagrangeProduct(xs, i, |xs|, q))
  }

  lemma BasisValuesAtZero(xs: seq<int>, q: int)
    requires 0 < q && Distinct(xs, q)
    ensures ValuesOf(BasisAll(xs, q), 0) == LagrangeAll(xs, q)
  {
    forall i | 0 <= i < |xs| ensures ValuesOf(BasisAll(xs, q), 0)[i] == LagrangeAll(xs, q)[i] {
      BasisAtZero(xs, i, |xs|, q);
    }
  }

  ghost function ValuesAt(cs: seq<int>, xs: seq<int>): (r: seq<int>) {
    seq(|xs|, i requires 0 <= i < |xs| => Eval(cs, xs[i]))
  }

  function Pad(cs: seq<int>, n: nat): (r: seq<int>)
    requires |cs| <= n
  {
    cs + Zeros(n - |cs|)
  }

  lemma {:induction false} EvalPad(cs: seq<int>, n: nat, x: int)
    requires |cs| <= n
    ensures Eval(Pad(cs, n), x) == Eval(cs, x)
  {
    if cs == [] {
      assert Pad(cs, n) == Zeros(n);
      EvalZeros(n, x);
    } else {
      assert Pad(cs, n)[1..] == Pad(cs[1..], n - 1);
      EvalPad(cs[1..], n - 1, x);
    }
  }

  /** Values at as many points as there are coefficients give back the constant term. */
  lemma ShortInterpolation(cs: seq<int>, xs: seq<int>, q: int)
    requires Prime(q) && Distinct(xs, q) && |cs| <= |xs|
    ensures Cong(Dot(LagrangeAll(xs, q), ValuesAt(cs, xs), |xs|), Eval(cs, 0), q)
  {
    var n, ys, ps := |xs|, ValuesAt(cs, xs), BasisAll(xs, q);
    var p, c := Pad(cs, n), Combination(ps, ys, n, n);
    forall i | 0 <= i < n ensures Cong(Eval(c, xs[i]), Eval(p, xs[i]), q) {
      CombinationEval(ps, ys, n, n, xs[i]);
      BasisPicks(xs, ys, i, q);
      EvalPad(cs, n, xs[i]);
    }
    AgreementForcesCong(c, p, xs, q);
    EvalCong(c, p, 0, 0, q);
    EvalPad(cs, n, 0);
    CombinationEval(ps, ys, n, n, 0);
    BasisValuesAtZero(xs, q);
  }

  // ------------------------------------------------------------------ polynomials longer than the point list

  /** What is left of cs after dividing out all the points. */
  ghost function Quots(cs: seq<int>, xs: seq<int>): (r: seq<int>)
    ensures |r| == if |cs| <= |xs| then 0 else |cs| - |xs|
    decreases |xs|
  {
    if xs == [] then cs else Quots(Quot(cs, xs[0]), xs[1..])
  }

  function NodeProduct(xs: seq<int>, x: int): int {
    if xs == [] then 1 else (x - xs[0]) * NodeProduct(xs[1..], x)
  }

  /** The remainder of cs modulo the product of the (x - xs[i]), as an integer polynomial. */
  ghost function Remainder(cs: seq<int>, xs: seq<int>): (r: seq<int>)
    ensures |r| == |xs|
    decreases |xs|
  {
    if xs == [] then [] else LinMul(Remainder(Quot(cs, xs[0]), xs[1..]), xs[0], Eval(cs, xs[0]))
  }

  lemma {:induction false} DivisionByNodes(cs: seq<int>, xs: seq<int>, x: int)
    ensures Eval(cs, x) == Eval(Remainder(cs, xs), x) + NodeProduct(xs, x) * Eval(Quots(cs, xs), x)
    decreases |xs|
  {
    if xs != [] {
      var g, rest := Quot(cs, xs[0]), xs[1..];
      DivisionByNodes(g, rest, x);
      SyntheticDivision(cs, xs[0], x);
      EvalLinMul(Remainder(g, rest), xs[0], Eval(cs, xs[0]), x);
      Distribute(x - xs[0], Eval(Remainder(g, rest), x), NodeProduct(rest, x), Eval(Quots(g, rest), x));
    }
  }

  lemma Distribute(d: int, r: int, n: int, e: int)
    ensures d * (r + n * e) == d * r + (d * n) * e
  {
    assert d * (n * e) == (d * n) * e;
  }

  lemma {:induction false} NodeProductZero(xs: seq<int>, i: nat)
    requires i < |xs|
    ensures NodeProduct(xs, xs[i]) == 0
  {
    if i > 0 {
      NodeProductZero(xs[1..], i - 1);
    }
  }

  /** Interpolating at zero is off by the product of the negated points times the leftover's constant term. */
  lemma LongInterpolation(cs: seq<int>, xs: seq<int>, q: int)
    requires Prime(q) && Distinct(xs, q)
    ensures Cong(Dot(LagrangeAll(xs, q), ValuesAt(cs, xs), |xs|),
                 Eval(cs, 0) - NodeProduct(xs, 0) * Eval(Quots(cs, xs), 0), q)
  {
    var r := Remainder(cs, xs);
    assert ValuesAt(r, xs) == ValuesAt(cs, xs) by {
      forall i | 0 <= i < |xs| ensures Eval(r, xs[i]) == Eval(cs, xs[i]) {
        DivisionByNodes(cs, xs, xs[i]);
        NodeProductZero(xs, i);
      }
    }
    ShortInterpolation(r, xs, q);
    DivisionByNodes(cs, xs, 0);
  }

  lemma {:induction false} NodeProductInvertible(xs: seq<int>, q: int)
    requires Prime(q) && ShareHolders(xs, q)
    ensures !Cong(NodeProduct(xs, 0), 0, q)
  {
    if xs == [] {
      ModSmall(1, q);
      ModSmall(0, q);
    } else {
      NodeProductInvertible(xs[1..], q);
      if Cong(NodeProduct(xs, 0), 0, q) {
        if Cong(0 - xs[0], 0, q) {
          CongZeroDiff(0, xs[0], q);
          CongSmall(0, xs[0], q);
        }
        CancelFactor(0 - xs[0], NodeProduct(xs[1..], 0), q);
      }
    }
  }

  // ------------------------------------------------------------------ unsafe_aggregate

  predicate Verifies(pk: int, sig: int, m: int, q: int)
    requires 0 < q
  {
    sig == (pk * m) % q
  }

  /** Every partial signature verifies under its holder's share of f. */
  ghost predicate PartialsVerify(f: seq<int>, ids: seq<int>, sigs: seq<int>, m: int, q: int)
    requires 0 < q
  {
    |sigs| == |ids| && forall i :: 0 <= i < |ids| ==> Verifies(ShareOf(f, ids[i], q), sigs[i], m, q)
  }

  /** `unsafe_aggregate`: the partial signatures weighted by their Lagrange coefficients. */
  method UnsafeAggregate(sigs: seq<int>, ids: seq<int>, q: int) returns (agg: int)
    requires 0 < q && Distinct(ids, q) && |sigs| == |ids|
    ensures agg == Dot(LagrangeAll(ids, q), sigs, |ids|) % q
  {
    var coeffs := LagrangeCoeffs(ids, q);
    agg := 0;
    ModSmall(0, q);
    for i := 0 to |ids|
      invariant agg == Dot(LagrangeAll(ids, q), sigs, i) % q
    {
      var term := (sigs[i] * coeffs[i]) % q;
      var l, before := LagrangeAll(ids, q)[i], Dot(LagrangeAll(ids, q), sigs, i);
      CongMod(l, q);
      CongMul(sigs[i], sigs[i], coeffs[i], l, q);
      assert sigs[i] * l == l * sigs[i];
      CongMod(sigs[i] * coeffs[i], q);
      CongMod(before, q);
      CongAdd(agg, before, term, l * sigs[i], q);
      agg := (agg + term) % q;
    }
  }

  lemma {:induction false} DotScaledCong(ls: seq<int>, sigs: seq<int>, vals: seq<int>, m: int, k: nat, q: int)
    requires 0 < q && k <= |ls| == |sigs| == |vals|
    requires forall i :: 0 <= i < |sigs| ==> Cong(sigs[i], vals[i] * m, q)
    ensures Cong(Dot(ls, sigs, k), Dot(ls, vals, k) * m, q)
  {
    if k > 0 {
      DotScaledCong(ls, sigs, vals, m, k - 1, q);
      var l, v := ls[k - 1], vals[k - 1];
      CongMul(l, l, sigs[k - 1], v * m, q);
      CongAdd(Dot(ls, sigs, k - 1), Dot(ls, vals, k - 1) * m, l * sigs[k - 1], l * (v * m), q);
      assert Dot(ls, vals, k - 1) * m + l * (v * m) == (Dot(ls, vals, k - 1) + l * v) * m by {
        assert l * (v * m) == (l * v) * m;
      }
    }
  }

  /**
    Partial signatures that verify under the keys of a sharing polynomial f combine to a signature
    under the master key f(0) exactly when the part of f beyond the signers' reach has constant term
    zero. A sharing polynomial with no more coefficients than signers has no such part.
  */
  lemma AggregateVerifiesIff(f: seq<int>, ids: seq<int>, sigs: seq<int>, agg: int, m: int, q: int)
    requires Prime(q) && ShareHolders(ids, q) && Distinct(ids, q) && 0 < m < q
    requires PartialsVerify(f, ids, sigs, m, q)
    requires agg == Dot(LagrangeAll(ids, q), sigs, |ids|) % q
    ensures Verifies(ShareOf(f, 0, q), agg, m, q) <==> Cong(Eval(Quots(f, ids), 0), 0, q)
    ensures |f| <= |ids| ==> Quots(f, ids) == []
  {
    var s, n, e := Eval(f, 0), NodeProduct(ids, 0), Eval(Quots(f, ids), 0);
    assert Cong(agg, (s - n * e) * m, q) by { CombinedSignature(f, ids, sigs, agg, m, q); }
    assert !Cong(n, 0, q) by { NodeProductInvertible(ids, q); }
    MasterSignatureIff(agg, s, n, e, m, q);
  }

  lemma CombinedSignature(f: seq<int>, ids: seq<int>, sigs: seq<int>, agg: int, m: int, q: int)
    requires Prime(q) && Distinct(ids, q)
    requires PartialsVerify(f, ids, sigs, m, q)
    requires agg == Dot(LagrangeAll(ids, q), sigs, |ids|) % q
    ensures Cong(agg, (Eval(f, 0) - NodeProduct(ids, 0) * Eval(Quots(f, ids), 0)) * m, q)
  {
    var vals, ls := ValuesAt(f, ids), LagrangeAll(ids, q);
    forall i | 0 <= i < |ids| ensures Cong(sigs[i], vals[i] * m, q) {
      PartialSignature(vals[i], sigs[i], m, q);
    }
    DotScaledCong(ls, sigs, vals, m, |ids|, q);
    LongInterpolation(f, ids, q);
    var s := Eval(f, 0) - NodeProduct(ids, 0) * Eval(Quots(f, ids), 0);
    CongMul(Dot(ls, vals, |ids|), s, m, m, q);
    CongMod(Dot(ls, sigs, |ids|), q);
  }

  lemma PartialSignature(v: int, sig: int, m: int, q: int)
    requires 0 < q && Verifies(v % q, sig, m, q)
    ensures Cong(sig, v * m, q)
  {
    CongMod(v, q);
    CongMul(v % q, v, m, m, q);
    CongMod((v % q) * m, q);
  }

  lemma MasterSignatureIff(agg: int, s: int, n: int, e: int, m: int, q: int)
    requires Prime(q) && 0 < m < q && 0 <= agg < q && !Cong(n, 0, q)
    requires Cong(agg, (s - n * e) * m, q)
    ensures Verifies(s % q, agg, m, q) <==> Cong(e, 0, q)
  {
    var off := (n * e) * m;
    assert (s - n * e) * m == s * m - off;
    VerifiesIffCong(s, agg, m, q);
    assert Cong(agg, s * m, q) <==> Cong(off, 0, q) by { OffByMultiple(agg, s * m, off, q); }
    assert Cong(off, 0, q) <==> Cong(e, 0, q) by { OffZero(n, e, m, q); }
  }

  lemma VerifiesIffCong(s: int, agg: int, m: int, q: int)
    requires 0 <= agg < q
    ensures Verifies(s % q, agg, m, q) <==> Cong(agg, s * m, q)
  {
    CongMod(s, q);
    CongMul(s % q, s, m, m, q);
    CongMod((s % q) * m, q);
    if Cong(agg, s * m, q) {
      CongSmall(agg, ((s % q) * m) % q, q);
    }
  }

  lemma OffByMultiple(agg: int, v: int, off: int, q: int)
    requires 0 < q && Cong(agg, v - off, q)
    ensures Cong(agg, v, q) <==> Cong(off, 0, q)
  {
    if Cong(off, 0, q) {
      CongSub(v, v, off, 0, q);
    }
    if Cong(agg, v, q) {
      CongSub(v, v - off, v - off, v - off, q);
    }
  }

  lemma OffZero(n: int, e: int, m: int, q: int)
    requires Prime(q) && 0 < m < q && !Cong(n, 0, q)
    ensures Cong((n * e) * m, 0, q) <==> Cong(e, 0, q)
  {
    if Cong(e, 0, q) {
      CongMul(n, n, e, 0, q);
      CongMul(n * e, 0, m, m, q);
    }
    if Cong((n * e) * m, 0, q) {
      if Cong(m, 0, q) { CongSmall(m, 0, q); }
      Commute(m, n * e);
      CancelFactor(m, n * e, q);
      CancelFactor(n, e, q);
    }
  }
}
