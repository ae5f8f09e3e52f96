/**
  Splitting a key into shares: shares are values of a random polynomial whose constant term is the
  key. As many shares as there are coefficients pin the polynomial down; one share fewer says
  nothing about the key.
*/
module Shamir {
  import opened Field
  import opened Polynomial

  // ------------------------------------------------------------------ key_split_with_poly

  datatype SplitResult =
    | Shares(shares: map<int, int>, coeffs: seq<int>)
    | InvalidId
    | ZeroShare(id: int)  // `SecretKey::deserialize` refuses the zero key and the result is unwrapped

  function ShareOf(coeffs: seq<int>, id: int, q: int): int
    requires 0 < q
  {
    Eval(coeffs, id) % q
  }

  /** The outcome of looking at one id: none means the loop goes on. */
  predicate StopsAt(coeffs: seq<int>, id: int, q: int)
    requires 0 < q
  {
    id == 0 || ShareOf(coeffs, id, q) == 0
  }

  ghost predicate StopsFirstAt(coeffs: seq<int>, ids: seq<int>, i: int, r: SplitResult, q: int)
    requires 0 < q
  {
    && 0 <= i < |ids|
    && StopsAt(coeffs, ids[i], q)
    && (forall j :: 0 <= j < i ==> !StopsAt(coeffs, ids[j], q))
    && r == if ids[i] == 0 then InvalidId else ZeroShare(ids[i])
  }

  /** `key_split_with_poly`; `sample` is the random coefficient vector, its first entry is replaced by the key. */
  method KeySplit(sk: int, sample: seq<int>, ids: seq<int>, q: int) returns (r: SplitResult)
    requires 0 < q && sample != []
    ensures r.Shares? <==> forall i :: 0 <= i < |ids| ==> !StopsAt(sample[0 := sk], ids[i], q)
    ensures r.Shares? ==>
      && r.coeffs == sample[0 := sk]
      && (forall id :: id in r.shares <==> id in ids)
      && forall id :: id in r.shares ==> r.shares[id] == PowerSum(r.coeffs, id, |r.coeffs|) % q != 0
    ensures !r.Shares? ==> var cs := sample[0 := sk]; exists i :: StopsFirstAt(cs, ids, i, r, q)
  {
    var coeffs := sample[0 := sk];
    var shares: map<int, int> := map[];
    for i := 0 to |ids|
      invariant forall j :: 0 <= j < i ==> !StopsAt(coeffs, ids[j], q)
      invariant forall id :: id in shares <==> id in ids[..i]
      invariant forall id :: id in shares ==> shares[id] == ShareOf(coeffs, id, q) != 0
    {
      if ids[i] == 0 {
        assert StopsFirstAt(coeffs, ids, i, InvalidId, q);
        return InvalidId;
      }
      var value := HornerEval(coeffs, ids[i]);
      var share := Reduce(value, q);
      if share == 0 {
        assert StopsFirstAt(coeffs, ids, i, ZeroShare(ids[i]), q);
        return ZeroShare(ids[i]);
      }
      shares := shares[ids[i] := share];
      assert ids[..i + 1] == ids[..i] + [ids[i]];
    }
    assert ids[..|ids|] == ids;
    forall id | id in shares ensures shares[id] == PowerSum(coeffs, id, |coeffs|) % q {
      EvalIsPowerSum(coeffs, id);
    }
    return Shares(shares, coeffs);
  }

  // ------------------------------------------------------------------ synthetic division

  /** The quotient of cs by (x - r). */
  function Quot(cs: seq<int>, r: int): (g: seq<int>)
    ensures |g| == if cs == [] then 0 else |cs| - 1
  {
    if |cs| <= 1 then [] else [Eval(cs[1..], r)] + Quot(cs[1..], r)
  }

  lemma {:induction false} SyntheticDivision(cs: seq<int>, r: int, x: int)
    ensures Eval(cs, x) == Eval(cs, r) + (x - r) * Eval(Quot(cs, r), x)
  {
    if |cs| == 1 {
      assert cs[1..] == [];
    } else if |cs| > 1 {
      var rest, g := cs[1..], Quot(cs[1..], r);
      SyntheticDivision(rest, r, x);
      assert Quot(cs, r)[1..] == g;
      DivisionStep(cs[0], Eval(rest, r), Eval(g, x), r, x);
    }
  }

  lemma DivisionStep(c: int, f: int, g: int, r: int, x: int)
    ensures c + x * (f + (x - r) * g) == (c + r * f) + (x - r) * (f + x * g)
  {
    calc {
      c + x * (f + (x - r) * g);
      c + x * f + x * ((x - r) * g);
      c + r * f + (x - r) * f + (x - r) * (x * g);
    }
  }

  lemma {:induction false} QuotAt(cs: seq<int>, r: int, k: nat)
    requires k + 1 < |cs|
    ensures Quot(cs, r)[k] == Eval(cs[k + 1..], r)
  {
    if k > 0 {
      QuotAt(cs[1..], r, k - 1);
      assert cs[1..][k..] == cs[k + 1..];
    }
  }

  // ------------------------------------------------------------------ a short polynomial has few roots

  ghost predicate Distinct(xs: seq<int>, q: int)
    requires 0 < q
  {
    forall i, j :: 0 <= i < j < |xs| ==> !Cong(xs[i], xs[j], q)
  }

  lemma SmallDistinct(xs: seq<int>, q: int)
    requires 0 < q && InField(xs, q)
    requires forall i, j :: 0 <= i < j < |xs| ==> xs[i] != xs[j]
    ensures Distinct(xs, q)
  {
    forall i, j | 0 <= i < j < |xs| ensures !Cong(xs[i], xs[j], q) {
      if Cong(xs[i], xs[j], q) { CongSmall(xs[i], xs[j], q); }
    }
  }

  ghost predicate AllZero(cs: seq<int>, q: int)
    requires 0 < q
  {
    forall k :: 0 <= k < |cs| ==> Cong(cs[k], 0, q)
  }

  ghost predicate Roots(cs: seq<int>, xs: seq<int>, q: int)
    requires 0 < q
  {
    forall i :: 0 <= i < |xs| ==> Cong(Eval(cs, xs[i]), 0, q)
  }

  lemma QuotientKeepsRoot(cs: seq<int>, r: int, x: int, q: int)
    requires Prime(q) && !Cong(r, x, q)
    requires Cong(Eval(cs, r), 0, q) && Cong(Eval(cs, x), 0, q)
    ensures Cong(Eval(Quot(cs, r), x), 0, q)
  {
    var g := Eval(Quot(cs, r), x);
    SyntheticDivision(cs, r, x);
    CongSub(Eval(cs, x), 0, Eval(cs, r), 0, q);
    if Cong(x - r, 0, q) { CongZeroDiff(x, r, q); }
    CancelFactor(x - r, g, q);
  }

  /** The k-th coefficient, from the values at r of the two tails around it. */
  lemma CoefficientFromTails(cs: seq<int>, r: int, k: nat, q: int)
    requires 0 < q && k < |cs|
    requires Cong(Eval(cs[k..], r), 0, q) && Cong(Eval(cs[k + 1..], r), 0, q)
    ensures Cong(cs[k], 0, q)
  {
    var low, high := Eval(cs[k..], r), Eval(cs[k + 1..], r);
    assert cs[k..][1..] == cs[k + 1..];
    assert low == cs[k] + r * high;
    CongMul(r, r, high, 0, q);
    CongSub(low, 0, r * high, 0, q);
  }

  lemma TailVanishes(cs: seq<int>, r: int, k: nat, q: int)
    requires 0 < q && k <= |cs| && AllZero(Quot(cs, r), q) && Cong(Eval(cs, r), 0, q)
    ensures Cong(Eval(cs[k..], r), 0, q)
  {
    if k == 0 {
      assert cs[0..] == cs;
    } else if k < |cs| {
      QuotAt(cs, r, k - 1);
    }
  }

  lemma ZeroQuotientZeroPoly(cs: seq<int>, r: int, q: int)
    requires 0 < q && AllZero(Quot(cs, r), q) && Cong(Eval(cs, r), 0, q)
    ensures AllZero(cs, q)
  {
    forall k | 0 <= k < |cs| ensures Cong(cs[k], 0, q) {
      TailVanishes(cs, r, k, q);
      TailVanishes(cs, r, k + 1, q);
      CoefficientFromTails(cs, r, k, q);
    }
  }

  /** A polynomial with at least as many roots as coefficients is zero. */
  lemma {:induction false} RootsForceZero(cs: seq<int>, xs: seq<int>, q: int)
    requires Prime(q) && |cs| <= |xs| && Distinct(xs, q) && Roots(cs, xs, q)
    ensures AllZero(cs, q)
    decreases |xs|
  {
    if cs != [] {
      var r, g := xs[0], Quot(cs, xs[0]);
      forall i | 0 <= i < |xs[1..]| ensures Cong(Eval(g, xs[1..][i]), 0, q) {
        assert xs[1..][i] == xs[i + 1];
        QuotientKeepsRoot(cs, r, xs[i + 1], q);
      }
      RootsForceZero(g, xs[1..], q);
      ZeroQuotientZeroPoly(cs, r, q);
    }
  }

  function Minus(cs: seq<int>, ds: seq<int>): (r: seq<int>)
    requires |cs| == |ds|
  {
    seq(|cs|, i requires 0 <= i < |cs| => cs[i] - ds[i])
  }

  lemma {:induction false} EvalMinus(cs: seq<int>, ds: seq<int>, x: int)
    requires |cs| == |ds|
    ensures Eval(Minus(cs, ds), x) == Eval(cs, x) - Eval(ds, x)
  {
    if cs != [] {
      EvalMinus(cs[1..], ds[1..], x);
      assert Minus(cs, ds)[1..] == Minus(cs[1..], ds[1..]);
    }
  }

  ghost predicate Agree(cs: seq<int>, ds: seq<int>, xs: seq<int>, q: int)
    requires 0 < q
  {
    forall i :: 0 <= i < |xs| ==> Cong(Eval(cs, xs[i]), Eval(ds, xs[i]), q)
  }

  lemma AgreementForcesCong(cs: seq<int>, ds: seq<int>, xs: seq<int>, q: int)
    requires Prime(q) && |cs| == |ds| <= |xs| && Distinct(xs, q) && Agree(cs, ds, xs, q)
    ensures CongAll(cs, ds, q)
  {
    var m := Minus(cs, ds);
    forall i | 0 <= i < |xs| ensures Cong(Eval(m, xs[i]), 0, q) {
      EvalMinus(cs, ds, xs[i]);
      CongZeroDiff(Eval(cs, xs[i]), Eval(ds, xs[i]), q);
    }
    RootsForceZero(m, xs, q);
    forall k | 0 <= k < |cs| ensures Cong(cs[k], ds[k], q) {
      assert m[k] == cs[k] - ds[k];
      CongZeroDiff(cs[k], ds[k], q);
    }
  }

  // ------------------------------------------------------------------ interpolation

  /** The coefficients of c + (x - r) * g(x). */
  function LinMul(g: seq<int>, r: int, c: int): (p: seq<int>)
    ensures |p| == |g| + 1
  {
    if g == [] then [c] else [c - r * g[0]] + LinMul(g[1..], r, g[0])
  }

  lemma LinMulStep(g: int, rest: int, r: int, c: int, x: int)
    ensures c - r * g + x * (g + (x - r) * rest) == c + (x - r) * (g + x * rest)
  {
    assert x * ((x - r) * rest) == (x - r) * (x * rest);
  }

  lemma {:induction false} EvalLinMul(g: seq<int>, r: int, c: int, x: int)
    ensures Eval(LinMul(g, r, c), x) == c + (x - r) * Eval(g, x)
  {
    if g != [] {
      EvalLinMul(g[1..], r, g[0], x);
      assert LinMul(g, r, c)[1..] == LinMul(g[1..], r, g[0]);
      LinMulStep(g[0], Eval(g[1..], x), r, c, x);
    } else {
      assert LinMul(g, r, c)[1..] == [];
    }
  }

  ghost predicate Passes(cs: seq<int>, xs: seq<int>, ys: seq<int>, q: int)
    requires 0 < q && |xs| == |ys|
  {
    forall i :: 0 <= i < |xs| ==> Cong(Eval(cs, xs[i]), ys[i], q)
  }

  /** Values the quotient by (x - xs[0]) must take at the remaining points. */
  lemma DividedValues(xs: seq<int>, ys: seq<int>, q: int) returns (zs: seq<int>)
    requires Prime(q) && |xs| == |ys| && Distinct(xs, q) && xs != []
    ensures |zs| == |xs| - 1
    ensures forall i :: 0 <= i < |zs| ==> Cong((xs[i + 1] - xs[0]) * zs[i], ys[i + 1] - ys[0], q)
  {
    zs := [];
    for k := 1 to |xs|
      invariant |zs| == k - 1
      invariant forall i :: 0 <= i < |zs| ==> Cong((xs[i + 1] - xs[0]) * zs[i], ys[i + 1] - ys[0], q)
    {
      var d, v := xs[k] - xs[0], ys[k] - ys[0];
      if Cong(d, 0, q) { CongZeroDiff(xs[k], xs[0], q); }
      InvModInverts(d, q);
      var i := InvMod(d, q);
      CongMul(d * i, 1, v, v, q);
      assert d * (i * v) == d * i * v;
      zs := zs + [i * v];
    }
  }

  /** Through points with distinct abscissas passes a polynomial with one coefficient per point. */
  lemma {:induction false} Interpolate(xs: seq<int>, ys: seq<int>, q: int) returns (cs: seq<int>)
    requires Prime(q) && |xs| == |ys| && Distinct(xs, q)
    ensures |cs| == |xs| && InField(cs, q) && Passes(cs, xs, ys, q)
    decreases |xs|
  {
    if xs == [] {
      return [];
    }
    var zs := DividedValues(xs, ys, q);
    var g := Interpolate(xs[1..], zs, q);
    var p := LinMul(g, xs[0], ys[0]);
    cs := ReduceAll(p, q);
    ReduceAllCong(p, q);
    forall i | 0 <= i < |xs| ensures Cong(Eval(cs, xs[i]), ys[i], q) {
      EvalCong(cs, p, xs[i], xs[i], q);
      if i > 0 {
        assert xs[1..][i - 1] == xs[i];
        NewtonStep(g, xs[0], ys[0], xs[i], zs[i - 1], ys[i], q);
      } else {
        EvalLinMul(g, xs[0], ys[0], xs[0]);
      }
    }
  }

  lemma NewtonStep(g: seq<int>, r: int, c: int, x: int, z: int, y: int, q: int)
    requires 0 < q && Cong(Eval(g, x), z, q) && Cong((x - r) * z, y - c, q)
    ensures Cong(Eval(LinMul(g, r, c), x), y, q)
  {
    EvalLinMul(g, r, c, x);
    CongMul(x - r, x - r, Eval(g, x), z, q);
    CongAdd(c, c, (x - r) * Eval(g, x), y - c, q);
  }

  // ------------------------------------------------------------------ what shares reveal

  /** The holders of `ids` see `shares` when the coefficients are cs. */
  ghost predicate Explains(cs: seq<int>, t: nat, ids: seq<int>, shares: seq<int>, q: int)
    requires 0 < q && |ids| == |shares|
  {
    && |cs| == t && InField(cs, q)
    && forall i :: 0 <= i < |ids| ==> ShareOf(cs, ids[i], q) == shares[i]
  }

  predicate ShareHolders(ids: seq<int>, q: int) {
    && (forall i :: 0 <= i < |ids| ==> 0 < ids[i] < q)
    && (forall i, j :: 0 <= i < j < |ids| ==> ids[i] != ids[j])
  }

  /** At least t shares determine the coefficients, the secret among them. */
  lemma SharesDetermineSecret(cs: seq<int>, ds: seq<int>, t: nat, ids: seq<int>, shares: seq<int>, q: int)
    requires Prime(q) && |ids| == |shares| && ShareHolders(ids, q) && t <= |ids|
    requires Explains(cs, t, ids, shares, q) && Explains(ds, t, ids, shares, q)
    ensures cs == ds
  {
    SmallDistinct(ids, q);
    AgreementForcesCong(cs, ds, ids, q);
    forall k | 0 <= k < t ensures cs[k] == ds[k] {
      CongSmall(cs[k], ds[k], q);
    }
  }

  /** With t - 1 shares every secret is still possible, through exactly one coefficient vector. */
  lemma FewerSharesHideSecret(secret: int, t: nat, ids: seq<int>, shares: seq<int>, q: int) returns (cs: seq<int>)
    requires Prime(q) && ShareHolders(ids, q) && |ids| == |shares| == t - 1
    requires InField(shares, q) && 0 <= secret < q
    ensures Explains(cs, t, ids, shares, q) && cs[0] == secret
    ensures forall ds :: Explains(ds, t, ids, shares, q) && ds[0] == secret ==> ds == cs
  {
    var xs, ys := [0] + ids, [secret] + shares;
    SmallDistinct(xs, q);
    cs := Interpolate(xs, ys, q);
    ConstantTerm(cs);
    assert xs[0] == 0 && ys[0] == secret && Cong(Eval(cs, xs[0]), ys[0], q);
    CongSmall(cs[0], secret, q);
    forall i | 0 <= i < |ids| ensures ShareOf(cs, ids[i], q) == shares[i] {
      assert xs[i + 1] == ids[i] && ys[i + 1] == shares[i];
      ModSmall(shares[i], q);
    }
    forall ds | Explains(ds, t, ids, shares, q) && ds[0] == secret ensures ds == cs {
      ConstantTerm(ds);
      forall i | 0 <= i < |xs| ensures Cong(Eval(cs, xs[i]), Eval(ds, xs[i]), q) {
        if i > 0 { assert xs[i] == ids[i - 1] && ShareOf(ds, ids[i - 1], q) == ShareOf(cs, ids[i - 1], q); }
      }
      AgreementForcesCong(cs, ds, xs, q);
      forall k | 0 <= k < t ensures cs[k] == ds[k] {
        CongSmall(cs[k], ds[k], q);
      }
    }
  }

  lemma ConstantTerm(cs: seq<int>)
    ensures cs != [] ==> Eval(cs, 0) == cs[0]
  {
  }
}
