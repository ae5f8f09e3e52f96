/**
  `threshold_aggregate`: choosing which partial signatures to combine.
*/
module Aggregation {
  import opened Field
  import opened Polynomial
  import opened Shamir
  import opened Threshold

  datatype AggregateResult =
    | Aggregated(sig: int)
    | DifferentLength(x: nat, y: nat)
    | InsufficientSignatures(got: nat, expected: nat)
    | InvalidOperatorId
    | InsufficientValidSignatures(got: nat, expected: nat)

  // ------------------------------------------------------------------ the entries that are used

  /** Entry i is the first verifying entry of its operator. */
  predicate IsFirst(ids: seq<int>, ok: seq<bool>, i: nat)
    requires i < |ids| == |ok|
  {
    ok[i] && forall j :: 0 <= j < i && ids[j] == ids[i] ==> !ok[j]
  }

  /** The first verifying entries among the first k, in input order. */
  function Firsts(ids: seq<int>, ok: seq<bool>, k: nat): (r: seq<nat>)
    requires k <= |ids| == |ok|
    ensures |r| <= k && forall a :: 0 <= a < |r| ==> r[a] < k && IsFirst(ids, ok, r[a])
  {
    if k == 0 then []
    else Firsts(ids, ok, k - 1) + if IsFirst(ids, ok, k - 1) then [k - 1] else []
  }

  lemma {:induction false} FirstsPrefix(ids: seq<int>, ok: seq<bool>, k: nat, n: nat)
    requires k <= n <= |ids| == |ok|
    ensures Firsts(ids, ok, k) <= Firsts(ids, ok, n)
  {
    if k < n {
      FirstsPrefix(ids, ok, k, n - 1);
    }
  }

  ghost function VerifiedIds(ids: seq<int>, ok: seq<bool>, k: nat): set<int>
    requires k <= |ids| == |ok|
  {
    set i | 0 <= i < k && ok[i] :: ids[i]
  }

  /** There is one such entry per operator with some verifying entry. */
  lemma {:induction false} FirstsCountOperators(ids: seq<int>, ok: seq<bool>, k: nat)
    requires k <= |ids| == |ok|
    ensures |Firsts(ids, ok, k)| == |VerifiedIds(ids, ok, k)|
  {
    if k > 0 {
      FirstsCountOperators(ids, ok, k - 1);
      VerifiedStep(ids, ok, k - 1);
      assert !IsFirst(ids, ok, k - 1) ==> VerifiedIds(ids, ok, k) == VerifiedIds(ids, ok, k - 1);
    }
  }

  function Pick(vs: seq<int>, used: seq<nat>): (r: seq<int>)
    requires forall a :: 0 <= a < |used| ==> used[a] < |vs|
  {
    seq(|used|, a requires 0 <= a < |used| => vs[used[a]])
  }

  lemma {:induction false} FirstsDistinct(ids: seq<int>, ok: seq<bool>, k: nat)
    requires k <= |ids| == |ok|
    ensures forall a, b :: 0 <= a < b < |Firsts(ids, ok, k)| ==> Firsts(ids, ok, k)[a] < Firsts(ids, ok, k)[b]
  {
    if k > 0 {
      FirstsDistinct(ids, ok, k - 1);
    }
  }

  lemma FirstsNameDistinctOperators(ids: seq<int>, ok: seq<bool>, k: nat)
    requires k <= |ids| == |ok|
    ensures var u := Firsts(ids, ok, k); forall a, b :: 0 <= a < b < |u| ==> ids[u[a]] != ids[u[b]]
  {
    FirstsDistinct(ids, ok, k);
    var u := Firsts(ids, ok, k);
    forall a, b | 0 <= a < b < |u| ensures ids[u[a]] != ids[u[b]] {
      assert IsFirst(ids, ok, u[b]) && IsFirst(ids, ok, u[a]);
    }
  }

  // ------------------------------------------------------------------ the outcome

  function Checks(sigs: seq<int>, pks: seq<int>, m: int, q: int): (ok: seq<bool>)
    requires 0 < q && |sigs| == |pks|
  {
    seq(|sigs|, i requires 0 <= i < |sigs| => Verifies(pks[i], sigs[i], m, q))
  }

  /** The threshold is reached by entry k - 1, and no zero id stands before it. */
  ghost predicate Reached(ids: seq<int>, ok: seq<bool>, t: nat, k: int)
    requires |ids| == |ok|
  {
    0 < k <= |ids| && |Firsts(ids, ok, k)| == t && 0 !in ids[..k]
  }

  /** A zero id is met before the threshold is reached. */
  ghost predicate ZeroMet(ids: seq<int>, ok: seq<bool>, t: nat, k: int)
    requires |ids| == |ok|
  {
    0 <= k < |ids| && ids[k] == 0 && |Firsts(ids, ok, k)| < t && 0 !in ids[..k]
  }

  ghost predicate CommitteeKeys(f: seq<int>, ids: seq<int>, pks: seq<int>, q: int)
    requires 0 < q
  {
    |ids| == |pks| && forall i :: 0 <= i < |ids| ==> pks[i] == ShareOf(f, ids[i], q)
  }

  lemma VerifiedStep(ids: seq<int>, ok: seq<bool>, i: nat)
    requires i < |ids| == |ok|
    ensures VerifiedIds(ids, ok, i + 1) == VerifiedIds(ids, ok, i) + if ok[i] then {ids[i]} else {}
    ensures IsFirst(ids, ok, i) <==> ok[i] && ids[i] !in VerifiedIds(ids, ok, i)
  {
  }

  lemma PickAppend(vs: seq<int>, used: seq<nat>, i: nat)
    requires i < |vs| && forall a :: 0 <= a < |used| ==> used[a] < |vs|
    ensures Pick(vs, used + [i]) == Pick(vs, used) + [vs[i]]
  {
  }

  datatype Selection = Selected(sigs: seq<int>, ids: seq<int>) | ZeroId | TooFew(got: nat)

  /** The loop over the entries; ok[i] is the answer of `sigs[i].verify(pks[i], msg)`. */
  method SelectEntries(sigs: seq<int>, ids: seq<int>, ok: seq<bool>, t: nat)
    returns (r: Selection, ghost used: seq<nat>)
    requires |sigs| == |ids| == |ok| && 1 <= t
    ensures r.Selected? <==> exists k :: Reached(ids, ok, t, k)
    ensures r.ZeroId? <==> exists k :: ZeroMet(ids, ok, t, k)
    ensures r.TooFew? ==> r.got == |VerifiedIds(ids, ok, |ids|)| < t
    ensures |used| <= |Firsts(ids, ok, |ids|)| && used == Firsts(ids, ok, |ids|)[..|used|]
    ensures r.Selected? ==> |used| == t && r.sigs == Pick(sigs, used) && r.ids == Pick(ids, used)
  {
    used := [];
    var sigsValid, idsValid, validSet: set<int> := [], [], {};
    var i := 0;
    while i < |sigs|
      invariant 0 <= i <= |sigs|
      invariant used == Firsts(ids, ok, i) && |used| < t
      invariant sigsValid == Pick(sigs, used) && idsValid == Pick(ids, used)
      invariant validSet == VerifiedIds(ids, ok, i)
      invariant 0 !in ids[..i]
    {
      FirstsPrefix(ids, ok, i, |ids|);
      if ids[i] == 0 {
        assert ZeroMet(ids, ok, t, i);
        NoneReachedBefore(ids, ok, t, i);
        return ZeroId, used;
      }
      assert ids[..i + 1] == ids[..i] + [ids[i]];
      VerifiedStep(ids, ok, i);
      if ids[i] !in validSet && ok[i] {
        PickAppend(sigs, used, i);
        PickAppend(ids, used, i);
        sigsValid := sigsValid + [sigs[i]];
        idsValid := idsValid + [ids[i]];
        validSet := validSet + {ids[i]};
        used := used + [i];
        if |sigsValid| >= t {
          FirstsPrefix(ids, ok, i + 1, |ids|);
          assert Reached(ids, ok, t, i + 1);
          NoZeroMetBefore(ids, ok, t, i + 1);
          return Selected(sigsValid, idsValid), used;
        }
      }
      i := i + 1;
    }
    FirstsCountOperators(ids, ok, |ids|);
    NoneReachedBefore(ids, ok, t, |ids|);
    assert ids[..|ids|] == ids;
    return TooFew(|sigsValid|), used;
  }

  /** Without a zero id only the number of operators with a verifying entry counts. */
  lemma ReachedIffEnough(ids: seq<int>, ok: seq<bool>, t: nat)
    requires |ids| == |ok| && 0 !in ids && 1 <= t
    ensures (exists k :: Reached(ids, ok, t, k)) <==> |VerifiedIds(ids, ok, |ids|)| >= t
  {
    FirstsCountOperators(ids, ok, |ids|);
    if |Firsts(ids, ok, |ids|)| >= t {
      var k := |ids|;
      while |Firsts(ids, ok, k)| > t
        invariant 0 < k <= |ids| && |Firsts(ids, ok, k)| >= t
        decreases k
      {
        k := k - 1;
      }
      assert Reached(ids, ok, t, k);
    }
    forall k | Reached(ids, ok, t, k) ensures |Firsts(ids, ok, |ids|)| >= t {
      FirstsPrefix(ids, ok, k, |ids|);
    }
  }

  /**
    `threshold_aggregate`. Besides the exact outcome: whatever the entries are, a returned signature
    verifies under the master key of every sharing polynomial with at most t coefficients that the
    public keys belong to.
  */
  method ThresholdAggregate(sigs: seq<int>, pks: seq<int>, ids: seq<int>, m: int, t: nat, q: int)
    returns (r: AggregateResult, ghost used: seq<nat>)
    requires Prime(q) && InField(ids, q) && 0 < m < q && 1 <= t
    ensures |sigs| != |pks| ==> r == DifferentLength(|sigs|, |pks|)
    ensures |sigs| == |pks| && |sigs| != |ids| ==> r == DifferentLength(|sigs|, |ids|)
    ensures |sigs| == |pks| == |ids| < t ==> r == InsufficientSignatures(|sigs|, t)
    ensures |sigs| == |pks| == |ids| >= t ==> var ok := Checks(sigs, pks, m, q);
      && (r.Aggregated? <==> exists k :: Reached(ids, ok, t, k))
      && (r.InvalidOperatorId? <==> exists k :: ZeroMet(ids, ok, t, k))
      && (r.Aggregated? || r.InvalidOperatorId? || r == InsufficientValidSignatures(|VerifiedIds(ids, ok, |ids|)|, t))
    ensures r.Aggregated? ==> |sigs| == |pks| == |ids| && var ok := Checks(sigs, pks, m, q);
      && |used| == t <= |Firsts(ids, ok, |ids|)| && used == Firsts(ids, ok, |ids|)[..t]
      && Distinct(Pick(ids, used), q)
      && r.sig == Dot(LagrangeAll(Pick(ids, used), q), Pick(sigs, used), t) % q
    ensures forall f :: r.Aggregated? && |f| <= t && CommitteeKeys(f, ids, pks, q) ==>
      Verifies(ShareOf(f, 0, q), r.sig, m, q)
  {
    used := [];
    if |sigs| != |pks| {
      return DifferentLength(|sigs|, |pks|), used;
    }
    if |sigs| != |ids| {
      return DifferentLength(|sigs|, |ids|), used;
    }
    if |sigs| < t {
      return InsufficientSignatures(|sigs|, t), used;
    }
    var ok := Checks(sigs, pks, m, q);
    var chosen;
    chosen, used := SelectEntries(sigs, ids, ok, t);
    match chosen
    case ZeroId =>
      return InvalidOperatorId, used;
    case TooFew(got) =>
      return InsufficientValidSignatures(got, t), used;
    case Selected(sigsValid, idsValid) =>
      ChosenDistinct(ids, ok, used, q);
      ChosenNonzero(ids, ok, used);
      var sig := UnsafeAggregate(sigsValid, idsValid, q);
      forall f | |f| <= t && CommitteeKeys(f, ids, pks, q) ensures Verifies(ShareOf(f, 0, q), sig, m, q) {
        ChosenVerifyUnderMaster(f, sigs, pks, ids, used, sig, m, q);
      }
      return Aggregated(sig), used;
  }

  lemma ChosenDistinct(ids: seq<int>, ok: seq<bool>, used: seq<nat>, q: int)
    requires 0 < q && |ids| == |ok| && InField(ids, q)
    requires |used| <= |Firsts(ids, ok, |ids|)| && used == Firsts(ids, ok, |ids|)[..|used|]
    ensures Distinct(Pick(ids, used), q)
    ensures forall a, b :: 0 <= a < b < |used| ==> ids[used[a]] != ids[used[b]]
  {
    FirstsNameDistinctOperators(ids, ok, |ids|);
    SmallDistinct(Pick(ids, used), q);
  }

  lemma ChosenNonzero(ids: seq<int>, ok: seq<bool>, used: seq<nat>)
    requires |ids| == |ok| && exists k :: Reached(ids, ok, |used|, k)
    requires |used| <= |Firsts(ids, ok, |ids|)| && used == Firsts(ids, ok, |ids|)[..|used|]
    ensures 0 !in Pick(ids, used)
  {
    var k :| Reached(ids, ok, |used|, k);
    FirstsPrefix(ids, ok, k, |ids|);
    assert used == Firsts(ids, ok, k);
    forall a | 0 <= a < |used| ensures Pick(ids, used)[a] != 0 {
      assert ids[used[a]] in ids[..k];
    }
  }

  lemma ChosenVerifyUnderMaster(f: seq<int>, sigs: seq<int>, pks: seq<int>, ids: seq<int>, used: seq<nat>, sig: int,
                                m: int, q: int)
    requires Prime(q) && InField(ids, q) && 0 < m < q && |sigs| == |ids| && CommitteeKeys(f, ids, pks, q) &&
      |f| <= |used|
    requires |used| <= |Firsts(ids, Checks(sigs, pks, m, q), |ids|)| &&
      used == Firsts(ids, Checks(sigs, pks, m, q), |ids|)[..|used|]
    requires 0 !in Pick(ids, used)
    requires Distinct(Pick(ids, used), q) && sig == Dot(LagrangeAll(Pick(ids, used), q), Pick(sigs, used), |used|) % q
    ensures Verifies(ShareOf(f, 0, q), sig, m, q)
  {
    var ok, idsUsed, sigsUsed := Checks(sigs, pks, m, q), Pick(ids, used), Pick(sigs, used);
    ChosenDistinct(ids, ok, used, q);
    forall a | 0 <= a < |used| ensures Verifies(ShareOf(f, idsUsed[a], q), sigsUsed[a], m, q) && 0 < idsUsed[a] < q {
      assert idsUsed[a] in idsUsed && IsFirst(ids, ok, used[a]);
    }
    assert PartialsVerify(f, idsUsed, sigsUsed, m, q);
    AggregateVerifiesIff(f, idsUsed, sigsUsed, sig, m, q);
    assert Eval([], 0) == 0;
  }

  lemma NoneReachedBefore(ids: seq<int>, ok: seq<bool>, t: nat, n: nat)
    requires n <= |ids| == |ok| && |Firsts(ids, ok, n)| < t && (n < |ids| ==> ids[n] == 0)
    ensures !exists k :: Reached(ids, ok, t, k)
  {
    forall k ensures !Reached(ids, ok, t, k) {
      if Reached(ids, ok, t, k) {
        if k <= n { FirstsPrefix(ids, ok, k, n); }
      }
    }
  }

  lemma NoZeroMetBefore(ids: seq<int>, ok: seq<bool>, t: nat, n: nat)
    requires |ids| == |ok| && Reached(ids, ok, t, n)
    ensures !exists k :: ZeroMet(ids, ok, t, k)
  {
    forall k ensures !ZeroMet(ids, ok, t, k) {
      if ZeroMet(ids, ok, t, k) {
        if n <= k { FirstsPrefix(ids, ok, n, k); }
      }
    }
  }
}
