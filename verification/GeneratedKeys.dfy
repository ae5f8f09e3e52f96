/**
  From the key generation to signatures: what is signed with generated keys verifies under the generated master key.
*/
module GeneratedKeys {
  import opened Field
  import opened Polynomial
  import opened Shamir
  import opened Threshold
  import opened Aggregation
  import opened Disputes
  import opened GroupKeys
  import opened DkgParty
  import opened DkgHonest

  /** All dealers chose polynomials with at most t coefficients. */
  ghost predicate Dealt(su: Setup, t: nat) {
    forall i :: 0 <= i < |su.ids| && su.ids[i] in su.polys ==> |su.polys[su.ids[i]]| <= t
  }

  function KeysOf(ids: seq<int>, pks: map<int, int>): (r: seq<int>)
    requires forall k :: 0 <= k < |ids| ==> ids[k] in pks
  {
    seq(|ids|, k requires 0 <= k < |ids| => pks[ids[k]])
  }

  /** The keys that all parties agree on are those of one polynomial with t coefficients. */
  lemma AgreedIsSharing(su: Setup, i: int, t: nat, ids: seq<int>) returns (f: seq<int>)
    requires Committed(su) && Dealt(su, t) && i in su.all && forall k :: 0 <= k < |ids| ==> ids[k] in su.all
    ensures |f| == t && ShareOf(f, 0, su.c.q) == Agreed(su, i).mpk
    ensures CommitteeKeys(f, ids, KeysOf(ids, Agreed(su, i).pks), su.c.q)
  {
    f := SumPoly(su.ids, su.polys, t);
    SumPolyEval(su.ids, su.polys, t, 0);
    forall k | 0 <= k < |ids| ensures KeysOf(ids, Agreed(su, i).pks)[k] == ShareOf(f, ids[k], su.c.q) {
      SumPolyEval(su.ids, su.polys, t, ids[k]);
    }
  }

  /**
    A committee signs with the keys its parties agreed on: whatever the entries are, a returned signature
    verifies under the agreed master key, and one is returned if at least t operators have a verifying entry.
  */
  method SignWithGeneratedKeys(out: Output, sigs: seq<int>, ids: seq<int>, m: int, t: nat, q: int, ghost su: Setup,
                               ghost i: int)
    returns (r: AggregateResult)
    requires Committed(su) && Dealt(su, t) && i in su.all && out == Agreed(su, i) && q == su.c.q
    requires |sigs| == |ids| && (forall k :: 0 <= k < |ids| ==> ids[k] in su.all) && 0 < m < q && 1 <= t
    ensures r.Aggregated? ==> Verifies(out.mpk, r.sig, m, q)
    ensures r.Aggregated? <==> |VerifiedIds(ids, Checks(sigs, KeysOf(ids, out.pks), m, q), |ids|)| >= t
  {
    ghost var f := AgreedIsSharing(su, i, t, ids);
    var pks := KeysOf(ids, out.pks);
    assert 0 !in ids && InField(ids, q) by {
      assert forall k :: 0 <= k < |ids| ==> 0 < ids[k] < q;
    }
    ghost var used;
    r, used := ThresholdAggregate(sigs, pks, ids, m, t, q);
    ReachedIffEnough(ids, Checks(sigs, pks, m, q), t);
    FewEntries(ids, Checks(sigs, pks, m, q));
  }

  lemma FewEntries(ids: seq<int>, ok: seq<bool>)
    requires |ids| == |ok|
    ensures |VerifiedIds(ids, ok, |ids|)| <= |ids|
  {
    FirstsCountOperators(ids, ok, |ids|);
  }

  /**
    After a verified key generation with arbitrary dealers, the combination of verifying partial signatures of
    the operators in `who` verifies under the master key exactly when the part of the joint polynomial that
    they cannot interpolate vanishes at 0. It does whenever no commitment vector is longer than `who`; the key
    generation itself does not check their length.
  */
  lemma AcceptedKeysSignIff(c: Crypto, ids: seq<int>, polys: map<int, seq<int>>, mpk: int, gpks: map<int, int>,
                            who: seq<int>, sigs: seq<int>, agg: int, m: int)
    requires OnOnePolynomial(c, ids, polys, mpk, gpks)
    requires QuorumSigns(c, ids, gpks, who, sigs, agg, m)
    ensures Verifies(mpk, agg, m, c.q) <==> Cong(Eval(Quots(Joint(ids, polys, c.h, c.q), who), 0), 0, c.q)
    ensures MaxLen(ids, polys) <= |who| ==> Verifies(mpk, agg, m, c.q)
  {
    var f := Joint(ids, polys, c.h, c.q);
    forall k | 0 <= k < |who| ensures Verifies(ShareOf(f, who[k], c.q), sigs[k], m, c.q) {
      assert SignedByMember(c, ids, gpks, who[k], sigs[k], m);
      var j :| 0 <= j < |ids| && ids[j] == who[k] && who[k] in gpks && Verifies(gpks[who[k]], sigs[k], m, c.q);
    }
    AggregateVerifiesIff(f, who, sigs, agg, m, c.q);
    assert Eval([], 0) == 0;
  }

  ghost predicate SignedByMember(c: Crypto, ids: seq<int>, gpks: map<int, int>, x: int, sig: int, m: int)
    requires 0 < c.q
  {
    exists j :: 0 <= j < |ids| && ids[j] == x && x in gpks && Verifies(gpks[x], sig, m, c.q)
  }

  /** Members with distinct ids sign m, each under its group key, and their signatures are combined. */
  ghost predicate QuorumSigns(c: Crypto, ids: seq<int>, gpks: map<int, int>, who: seq<int>, sigs: seq<int>, agg: int,
                              m: int)
  {
    && Prime(c.q) && ShareHolders(who, c.q) && Distinct(who, c.q) && 0 < m < c.q && |sigs| == |who|
    && (forall k :: 0 <= k < |who| ==> SignedByMember(c, ids, gpks, who[k], sigs[k], m))
    && agg == Dot(LagrangeAll(who, c.q), sigs, |who|) % c.q
  }
}
