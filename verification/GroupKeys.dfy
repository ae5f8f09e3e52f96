/**
  Deriving the group keys from the dealt shares, for arbitrary dealers: every party ends up with the
  value of one joint polynomial, although nobody knows that polynomial.
*/
module GroupKeys {
  import opened Field
  import opened Polynomial
  import opened Shamir
  import opened Threshold
  import opened Dleq
  import opened Disputes
  import opened Collections

  // ------------------------------------------------------------------ sums over the committee

  ghost function Sum(ids: seq<int>, m: map<int, int>): int
    requires forall i :: 0 <= i < |ids| ==> ids[i] in m
  {
    if ids == [] then 0 else m[ids[0]] + Sum(ids[1..], m)
  }

  /** The part of the sum contributed by the ids in s. */
  ghost function SumWithin(ids: seq<int>, m: map<int, int>, s: set<int>): int
    requires forall i :: 0 <= i < |ids| ==> ids[i] in m
  {
    if ids == [] then 0 else (if ids[0] in s then m[ids[0]] else 0) + SumWithin(ids[1..], m, s)
  }

  lemma {:induction false} SumWithinAdd(ids: seq<int>, m: map<int, int>, s: set<int>, x: int)
    requires forall i :: 0 <= i < |ids| ==> ids[i] in m
    requires forall i, j :: 0 <= i < j < |ids| ==> ids[i] != ids[j]
    requires x in m && x !in s
    ensures SumWithin(ids, m, s + {x}) == SumWithin(ids, m, s) + if x in ids then m[x] else 0
  {
    if ids != [] {
      SumWithinAdd(ids[1..], m, s, x);
    }
  }

  lemma {:induction false} SumWithinEnds(ids: seq<int>, m: map<int, int>, s: set<int>)
    requires forall i :: 0 <= i < |ids| ==> ids[i] in m
    ensures (forall i :: 0 <= i < |ids| ==> ids[i] in s) ==> SumWithin(ids, m, s) == Sum(ids, m)
    ensures s == {} ==> SumWithin(ids, m, s) == 0
  {
    if ids != [] {
      SumWithinEnds(ids[1..], m, s);
    }
  }

  /** Adding up the values of a map modulo q, in the map's own order: `construct_group_key`, `blst_p1s_add`. */
  method AddAll(m: map<int, int>, q: int, ghost ids: seq<int>) returns (sum: int)
    requires 0 < q && Lists(ids, m.Keys)
    ensures sum == Sum(ids, m) % q
  {
    sum := 0;
    var todo := m.Keys;
    ghost var done: set<int> := {};
    SumWithinEnds(ids, m, done);
    while todo != {}
      invariant todo <= m.Keys && done == m.Keys - todo
      invariant 0 <= sum < q && Cong(sum, SumWithin(ids, m, done), q)
    {
      Inhabited(todo);
      var id :| id in todo;
      todo := todo - {id};
      SumWithinAdd(ids, m, done, id);
      CongAdd(sum, SumWithin(ids, m, done), m[id], m[id], q);
      CongMod(sum + m[id], q);
      done := done + {id};
      sum := (sum + m[id]) % q;
    }
    SumWithinEnds(ids, m, done);
    ModSmall(sum, q);
  }

  // ------------------------------------------------------------------ the joint polynomial

  ghost predicate PolysOf(ids: seq<int>, polys: map<int, seq<int>>) {
    forall i :: 0 <= i < |ids| ==> ids[i] in polys && polys[ids[i]] != []
  }

  /** The sum of all committed evaluations at x. */
  ghost function CommitSum(ids: seq<int>, polys: map<int, seq<int>>, x: int): int
    requires PolysOf(ids, polys)
  {
    if ids == [] then 0 else Eval(polys[ids[0]], x) + CommitSum(ids[1..], polys, x)
  }

  ghost function MaxLen(ids: seq<int>, polys: map<int, seq<int>>): (n: nat)
    requires PolysOf(ids, polys)
    ensures forall i :: 0 <= i < |ids| ==> |polys[ids[i]]| <= n
    ensures ids != [] ==> exists i :: 0 <= i < |ids| && |polys[ids[i]]| == n
  {
    if ids == [] then 0
    else
      var n, m := |polys[ids[0]]|, MaxLen(ids[1..], polys);
      assert ids[1..] != [] ==> exists i :: 0 <= i < |ids[1..]| && |polys[ids[1..][i]]| == m;
      if n < m then m else n
  }

  ghost function SumPoly(ids: seq<int>, polys: map<int, seq<int>>, n: nat): (p: seq<int>)
    requires PolysOf(ids, polys) && forall i :: 0 <= i < |ids| ==> |polys[ids[i]]| <= n
    ensures |p| == n
  {
    if ids == [] then Zeros(n) else Plus(Pad(polys[ids[0]], n), SumPoly(ids[1..], polys, n))
  }

  lemma {:induction false} SumPolyEval(ids: seq<int>, polys: map<int, seq<int>>, n: nat, x: int)
    requires PolysOf(ids, polys) && forall i :: 0 <= i < |ids| ==> |polys[ids[i]]| <= n
    ensures Eval(SumPoly(ids, polys, n), x) == CommitSum(ids, polys, x)
  {
    if ids == [] {
      EvalZeros(n, x);
    } else {
      SumPolyEval(ids[1..], polys, n, x);
      EvalPad(polys[ids[0]], n, x);
      EvalPlus(Pad(polys[ids[0]], n), SumPoly(ids[1..], polys, n), x);
    }
  }

  /** The polynomial F whose coefficients, times h, are the summed commitments. */
  ghost function Joint(ids: seq<int>, polys: map<int, seq<int>>, h: int, q: int): (f: seq<int>)
    requires 0 < q && !Cong(h, 0, q) && PolysOf(ids, polys)
    ensures |f| == MaxLen(ids, polys)
  {
    Scale(SumPoly(ids, polys, MaxLen(ids, polys)), InvMod(h, q))
  }

  lemma JointEval(ids: seq<int>, polys: map<int, seq<int>>, h: int, x: int, q: int)
    requires Prime(q) && !Cong(h, 0, q) && PolysOf(ids, polys)
    ensures Cong(h * Eval(Joint(ids, polys, h, q), x), CommitSum(ids, polys, x), q)
  {
    var s, i, v := SumPoly(ids, polys, MaxLen(ids, polys)), InvMod(h, q), CommitSum(ids, polys, x);
    SumPolyEval(ids, polys, MaxLen(ids, polys), x);
    EvalScale(s, i, x);
    InvModInverts(h, q);
    CongMul(h * i, 1, v, v, q);
    assert h * (i * v) == (h * i) * v;
  }

  // ------------------------------------------------------------------ shares

  /** Every share passes the check against its dealer's commitments at x. */
  ghost predicate AllMatch(c: Crypto, ids: seq<int>, polys: map<int, seq<int>>, shares: map<int, int>, x: int)
    requires 0 < c.q
  {
    forall i :: 0 <= i < |ids| ==>
      ids[i] in polys && ids[i] in shares && ShareMatches(c, polys[ids[i]], shares[ids[i]], x)
  }

  lemma AddScaled(h: int, s: int, v: int, rest: int, restV: int, q: int)
    requires 0 < q && Cong(h * s, v, q) && Cong(h * rest, restV, q)
    ensures Cong(h * (s + rest), v + restV, q)
  {
    CongAdd(h * s, v, h * rest, restV, q);
    assert h * (s + rest) == h * s + h * rest;
  }

  lemma {:induction false} SharesAddUp(c: Crypto, ids: seq<int>, polys: map<int, seq<int>>, shares: map<int, int>,
                                       x: int)
    requires 0 < c.q && PolysOf(ids, polys) && AllMatch(c, ids, polys, shares, x)
    ensures Cong(c.h * Sum(ids, shares), CommitSum(ids, polys, x), c.q)
  {
    if ids != [] {
      SharesAddUp(c, ids[1..], polys, shares, x);
      assert ShareMatches(c, polys[ids[0]], shares[ids[0]], x);
      AddScaled(c.h, shares[ids[0]], Eval(polys[ids[0]], x), Sum(ids[1..], shares), CommitSum(ids[1..], polys, x), c.q);
    }
  }

  /** An exponent with the right image under h is the value of the joint polynomial. */
  lemma ValueOfJoint(ids: seq<int>, polys: map<int, seq<int>>, h: int, x: int, v: int, q: int)
    requires Prime(q) && !Cong(h, 0, q) && PolysOf(ids, polys)
    requires Cong(h * v, CommitSum(ids, polys, x), q)
    ensures v % q == ShareOf(Joint(ids, polys, h, q), x, q)
  {
    JointEval(ids, polys, h, x, q);
    CancelEqual(h, v, Eval(Joint(ids, polys, h, q), x), q);
  }

  /** All shares a party holds match the commitments of their dealers. */
  ghost predicate SharesVerified(c: Crypto, party: int, shares: map<int, int>, ids: seq<int>, polys: map<int, seq<int>>)
  {
    Prime(c.q) && !Cong(c.h, 0, c.q) && PolysOf(ids, polys) && AllMatch(c, ids, polys, shares, party)
  }

  /** `construct_group_key`: if all shares verified, whoever dealt them, the key is F(party). */
  method ConstructGroupKey(c: Crypto, party: int, shares: map<int, int>, ghost ids: seq<int>,
                           ghost polys: map<int, seq<int>>)
    returns (gsk: int, gpk: int)
    requires 0 < c.q && Lists(ids, shares.Keys)
    ensures gsk == Sum(ids, shares) % c.q && gpk == gsk
    ensures SharesVerified(c, party, shares, ids, polys) ==>
      && (c.h * gsk) % c.q == CommitSum(ids, polys, party) % c.q
      && gsk == ShareOf(Joint(ids, polys, c.h, c.q), party, c.q)
  {
    gsk := AddAll(shares, c.q, ids);
    gpk := gsk;
    if SharesVerified(c, party, shares, ids, polys) {
      SharesAddUp(c, ids, polys, shares, party);
      ValueOfJoint(ids, polys, c.h, party, Sum(ids, shares), c.q);
      CongMod(Sum(ids, shares), c.q);
      CongMul(c.h, c.h, gsk, Sum(ids, shares), c.q);
    }
  }

  // ------------------------------------------------------------------ key exchanges

  datatype PkPayload = PkPayload(pk: int, proof: Proof)
  datatype GpkPayload = GpkPayload(gpk: int, auxGpk: int, proof: Proof)
  datatype KeysResult = Keys(keys: map<int, int>) | ZKProofInvalidInput | InsufficientValidPks

  predicate AcceptsPk(c: Crypto, commitments: seq<int>, p: PkPayload)
    requires 0 < c.q && commitments != []
  {
    DleqVerify(1, p.pk, c.h, commitments[0], p.proof, c.hash, c.q)
  }

  ghost predicate AcceptsGpk(c: Crypto, ids: seq<int>, polys: map<int, seq<int>>, id: int, p: GpkPayload)
    requires 0 < c.q && PolysOf(ids, polys)
  {
    DleqVerify(1, p.gpk, c.h, p.auxGpk, p.proof, c.hash, c.q) && p.auxGpk == CommitSum(ids, polys, id) % c.q
  }

  /** The first n peers have been gone through: p is the party's own position, `missing` were rejected. */
  ghost predicate Collected(ids: seq<int>, offers: seq<Option<int>>, p: nat, n: nat, results: map<int, int>,
                            missing: nat)
    requires p < |ids| == |offers| && n <= |ids|
  {
    && |results| + missing + (if p < n then 1 else 0) == n
    && (missing == 0 <==> forall i :: 0 <= i < n && i != p ==> offers[i].Some?)
    && (forall i :: n <= i < |ids| || i == p ==> ids[i] !in results)
    && forall i :: 0 <= i < n && i != p && offers[i].Some? ==> ids[i] in results && results[ids[i]] == offers[i].value
  }

  lemma CollectKey(ids: seq<int>, offers: seq<Option<int>>, p: nat, n: nat, results: map<int, int>, missing: nat)
    requires p < |ids| == |offers| && n < |ids| && n != p && offers[n].Some? &&
      Collected(ids, offers, p, n, results, missing)
    requires forall i, j :: 0 <= i < j < |ids| ==> ids[i] != ids[j]
    ensures Collected(ids, offers, p, n + 1, results[ids[n] := offers[n].value], missing)
  {
    assert |results[ids[n] := offers[n].value]| == |results| + 1;
  }

  lemma CollectNone(ids: seq<int>, offers: seq<Option<int>>, p: nat, n: nat, results: map<int, int>, missing: nat)
    requires p < |ids| == |offers| && n < |ids| && (n == p || offers[n].None?) &&
      Collected(ids, offers, p, n, results, missing)
    ensures Collected(ids, offers, p, n + 1, results, if n == p then missing else missing + 1)
  {
  }

  /** The keys of the peers that were not rejected; `missing` counts the rejected ones. */
  method Accepted(party: int, ids: seq<int>, offers: seq<Option<int>>, ghost all: set<int>, ghost p: nat)
    returns (results: map<int, int>, ghost missing: nat)
    requires Lists(ids, all) && p < |ids| == |offers| && ids[p] == party
    ensures Collected(ids, offers, p, |ids|, results, missing) && results.Keys <= all
  {
    results := map[];
    missing := 0;
    for n := 0 to |ids|
      invariant Collected(ids, offers, p, n, results, missing) && results.Keys <= all
    {
      if ids[n] == party {
        CollectNone(ids, offers, p, n, results, missing);
        continue;
      }
      if offers[n].Some? {
        CollectKey(ids, offers, p, n, results, missing);
        results := results[ids[n] := offers[n].value];
      } else {
        CollectNone(ids, offers, p, n, results, missing);
        missing := missing + 1;
      }
    }
  }

  /**
    The common end of both exchanges: offers[i] is the answer of the task for ids[i], none when it
    rejected. Rejected peers are dropped, the own key is added, the sizes are compared.
  */
  method Gather(party: int, ids: seq<int>, own: int, offers: seq<Option<int>>, ghost all: set<int>)
    returns (r: KeysResult)
    requires Lists(ids, all) && party in all && |offers| == |ids|
    ensures !r.ZKProofInvalidInput?
    ensures r.Keys? <==> forall i :: 0 <= i < |ids| && ids[i] != party ==> offers[i].Some?
    ensures r.Keys? ==>
      && Lists(ids, r.keys.Keys) && r.keys[party] == own
      && forall i :: 0 <= i < |ids| && ids[i] != party ==> r.keys[ids[i]] == offers[i].value
  {
    ghost var p :| 0 <= p < |ids| && ids[p] == party;
    var results, _ := Accepted(party, ids, offers, all, p);
    results := results[party := own];
    if |results| < |ids| {
      return InsufficientValidPks;
    }
    return Keys(results);
  }

  /** `exchange_public_keys`, from the moment all messages have arrived. */
  method ExchangePublicKeys(c: Crypto, party: int, ids: seq<int>, polys: map<int, seq<int>>, pk: int, sk: int, w: int,
                            received: map<int, PkPayload>)
    returns (r: KeysResult)
    requires 0 < c.q && Lists(ids, received.Keys + {party}) && PolysOf(ids, polys) && party in polys &&
      polys[party] != []
    ensures r.ZKProofInvalidInput? <==> DleqProve(1, pk, c.h, polys[party][0], sk, w, c.hash, c.q).InvalidInput?
    ensures r.Keys? ==> AcceptedPks(c, party, ids, polys, pk, received, r.keys)
    ensures r.InsufficientValidPks? ==>
      exists i :: 0 <= i < |ids| && ids[i] != party && !AcceptsPk(c, polys[ids[i]], received[ids[i]])
  {
    var proof := DleqProve(1, pk, c.h, polys[party][0], sk, w, c.hash, c.q);
    if proof.InvalidInput? {
      return ZKProofInvalidInput;
    }
    var offers: seq<Option<int>> := [];
    for n := 0 to |ids|
      invariant |offers| == n
      invariant forall i :: 0 <= i < n && ids[i] != party ==>
        offers[i] == if AcceptsPk(c, polys[ids[i]], received[ids[i]]) then Some(received[ids[i]].pk) else None
    {
      if ids[n] == party || !AcceptsPk(c, polys[ids[n]], received[ids[n]]) {
        offers := offers + [None];
      } else {
        offers := offers + [Some(received[ids[n]].pk)];
      }
    }
    r := Gather(party, ids, pk, offers, received.Keys + {party});
  }

  /** All received keys were accepted, and the result holds them and the own key. */
  ghost predicate AcceptedPks(c: Crypto, party: int, ids: seq<int>, polys: map<int, seq<int>>, pk: int,
                              received: map<int, PkPayload>, keys: map<int, int>)
    requires 0 < c.q && PolysOf(ids, polys)
  {
    && Lists(ids, keys.Keys) && party in keys && keys[party] == pk
    && forall i :: 0 <= i < |ids| && ids[i] != party ==>
      ids[i] in received && AcceptsPk(c, polys[ids[i]], received[ids[i]]) && keys[ids[i]] == received[ids[i]].pk
  }

  lemma {:induction false} EvalSums(ids: seq<int>, polys: map<int, seq<int>>, evals: map<int, int>, x: int, q: int)
    requires 0 < q && PolysOf(ids, polys)
    requires forall i :: 0 <= i < |ids| ==> ids[i] in evals && evals[ids[i]] == Eval(polys[ids[i]], x) % q
    ensures Cong(Sum(ids, evals), CommitSum(ids, polys, x), q)
  {
    if ids != [] {
      EvalSums(ids[1..], polys, evals, x, q);
      CongMod(Eval(polys[ids[0]], x), q);
      CongAdd(evals[ids[0]], Eval(polys[ids[0]], x), Sum(ids[1..], evals), CommitSum(ids[1..], polys, x), q);
    }
  }

  ghost predicate FieldPolys(ids: seq<int>, polys: map<int, seq<int>>, q: int) {
    && PolysOf(ids, polys)
    && forall i :: 0 <= i < |ids| ==> InField(polys[ids[i]], q)
  }

  /** The sum of all committed evaluations at x, as a point. */
  method SumOfEvals(ids: seq<int>, polys: map<int, seq<int>>, x: int, q: int) returns (f: int)
    requires 0 < q && FieldPolys(ids, polys, q) && Lists(ids, polys.Keys)
    ensures f == CommitSum(ids, polys, x) % q
  {
    var evals: map<int, int> := map[];
    for n := 0 to |ids|
      invariant evals.Keys <= polys.Keys
      invariant forall i :: 0 <= i < n ==> ids[i] in evals && evals[ids[i]] == Eval(polys[ids[i]], x) % q
    {
      var y := CommittedEval(polys[ids[n]], x, q);
      evals := evals[ids[n] := y];
    }
    f := AddAll(evals, q, ids);
    EvalSums(ids, polys, evals, x, q);
  }

  /** The check of one received group key. */
  method CheckGroupKey(c: Crypto, ids: seq<int>, polys: map<int, seq<int>>, id: int, p: GpkPayload)
    returns (offer: Option<int>)
    requires 0 < c.q && FieldPolys(ids, polys, c.q) && Lists(ids, polys.Keys)
    ensures offer == if AcceptsGpk(c, ids, polys, id, p) then Some(p.gpk) else None
  {
    if !DleqVerify(1, p.gpk, c.h, p.auxGpk, p.proof, c.hash, c.q) {
      return None;
    }
    var f := SumOfEvals(ids, polys, id, c.q);
    if p.auxGpk != f {
      return None;
    }
    return Some(p.gpk);
  }

  /** `exchange_group_public_keys`, from the moment all messages have arrived. */
  method ExchangeGroupPublicKeys(c: Crypto, party: int, ids: seq<int>, polys: map<int, seq<int>>, gpk: int, gsk: int,
                                 w: int, received: map<int, GpkPayload>)
    returns (r: KeysResult)
    requires 0 < c.q && Lists(ids, received.Keys + {party}) && FieldPolys(ids, polys, c.q) && Lists(ids, polys.Keys)
    ensures r.ZKProofInvalidInput? <==> DleqProve(1, gpk, c.h, (c.h * gsk) % c.q, gsk, w, c.hash, c.q).InvalidInput?
    ensures r.Keys? ==> AcceptedGpks(c, party, ids, polys, gpk, received, r.keys)
    ensures r.InsufficientValidPks? ==>
      exists i :: 0 <= i < |ids| && ids[i] != party && !AcceptsGpk(c, ids, polys, ids[i], received[ids[i]])
  {
    var proof := DleqProve(1, gpk, c.h, (c.h * gsk) % c.q, gsk, w, c.hash, c.q);
    if proof.InvalidInput? {
      return ZKProofInvalidInput;
    }
    var offers: seq<Option<int>> := [];
    for n := 0 to |ids|
      invariant |offers| == n
      invariant forall i :: 0 <= i < n && ids[i] != party ==>
        offers[i] == if AcceptsGpk(c, ids, polys, ids[i], received[ids[i]]) then Some(received[ids[i]].gpk) else None
    {
      if ids[n] == party {
        offers := offers + [None];
      } else {
        var offer := CheckGroupKey(c, ids, polys, ids[n], received[ids[n]]);
        offers := offers + [offer];
      }
    }
    r := Gather(party, ids, gpk, offers, received.Keys + {party});
  }

  ghost predicate AcceptedGpks(c: Crypto, party: int, ids: seq<int>, polys: map<int, seq<int>>, gpk: int,
                               received: map<int, GpkPayload>, keys: map<int, int>)
    requires 0 < c.q && PolysOf(ids, polys)
  {
    && Lists(ids, keys.Keys) && party in keys && keys[party] == gpk
    && forall i :: 0 <= i < |ids| && ids[i] != party ==>
      ids[i] in received && AcceptsGpk(c, ids, polys, ids[i], received[ids[i]]) && keys[ids[i]] == received[ids[i]].gpk
  }

  // ------------------------------------------------------------------ what an accepting party holds

  /** An accepted proof is taken to mean what it claims: one exponent for both bases. */
  ghost predicate Sound(c: Crypto, y1: int, y2: int)
    requires 0 < c.q
  {
    SameExponent(1, y1, c.h, y2, c.q)
  }

  lemma SoundExponent(c: Crypto, y1: int, y2: int)
    requires 0 < c.q && Sound(c, y1, y2)
    ensures 0 <= y1 < c.q && y2 == (c.h * y1) % c.q
  {
    var alpha :| CommonExponent(1, y1, c.h, y2, alpha, c.q);
    ModSmall(alpha, c.q);
  }

  lemma {:induction false} PublicKeysAddUp(c: Crypto, ids: seq<int>, polys: map<int, seq<int>>, keys: map<int, int>)
    requires 0 < c.q && PolysOf(ids, polys)
    requires forall i :: 0 <= i < |ids| ==> ids[i] in keys && Sound(c, keys[ids[i]], polys[ids[i]][0])
    ensures Cong(c.h * Sum(ids, keys), CommitSum(ids, polys, 0), c.q)
  {
    if ids != [] {
      PublicKeysAddUp(c, ids[1..], polys, keys);
      var k := keys[ids[0]];
      SoundExponent(c, k, polys[ids[0]][0]);
      ConstantTerm(polys[ids[0]]);
      CongMod(c.h * k, c.q);
      AddScaled(c.h, k, Eval(polys[ids[0]], 0), Sum(ids[1..], keys), CommitSum(ids[1..], polys, 0), c.q);
    }
  }

  /** What a party holds once both exchanges have succeeded. */
  datatype View = View(party: int, polys: map<int, seq<int>>, shares: map<int, int>,
                       pk: int, pks: map<int, int>, receivedPks: map<int, PkPayload>,
                       gpk: int, gpks: map<int, int>, receivedGpks: map<int, GpkPayload>)

  /** All checks have passed, and the own and the accepted proofs are sound. */
  ghost predicate AcceptingRun(c: Crypto, ids: seq<int>, v: View) {
    && Prime(c.q) && !Cong(c.h, 0, c.q) && PolysOf(ids, v.polys)
    && (forall i :: 0 <= i < |ids| ==> 0 < ids[i] < c.q)
    && Lists(ids, v.shares.Keys) && AllMatch(c, ids, v.polys, v.shares, v.party) && v.gpk == Sum(ids, v.shares) % c.q
    && AcceptedPks(c, v.party, ids, v.polys, v.pk, v.receivedPks, v.pks) && Sound(c, v.pk, v.polys[v.party][0])
    && AcceptedGpks(c, v.party, ids, v.polys, v.gpk, v.receivedGpks, v.gpks)
    && (forall i :: 0 <= i < |ids| && ids[i] != v.party ==> Sound(c, v.receivedPks[ids[i]].pk, v.polys[ids[i]][0]))
    && (forall i :: 0 <= i < |ids| && ids[i] != v.party ==>
      Sound(c, v.receivedGpks[ids[i]].gpk, v.receivedGpks[ids[i]].auxGpk))
  }

  /**
    The master key and the group keys are the values, at 0 and at the ids, of the polynomial the committee committed
    to.
  */
  ghost predicate OnOnePolynomial(c: Crypto, ids: seq<int>, polys: map<int, seq<int>>, mpk: int, gpks: map<int, int>) {
    && Prime(c.q) && !Cong(c.h, 0, c.q) && PolysOf(ids, polys)
    && (forall i :: 0 <= i < |ids| ==> 0 < ids[i] < c.q)
    && mpk == ShareOf(Joint(ids, polys, c.h, c.q), 0, c.q)
    && forall i :: 0 <= i < |ids| ==>
      ids[i] in gpks && gpks[ids[i]] == ShareOf(Joint(ids, polys, c.h, c.q), ids[i], c.q)
  }

  /**
    For arbitrary dealers and commitment vectors of any length: a party that accepts holds, for one
    and the same polynomial F, the group keys F(id) of everybody and the master key F(0).
  */
  lemma AcceptedKeysOnOnePolynomial(c: Crypto, ids: seq<int>, v: View)
    requires AcceptingRun(c, ids, v)
    ensures OnOnePolynomial(c, ids, v.polys, Sum(ids, v.pks) % c.q, v.gpks)
  {
    PublicKeysAddUp(c, ids, v.polys, v.pks);
    ValueOfJoint(ids, v.polys, c.h, 0, Sum(ids, v.pks), c.q);
    SharesAddUp(c, ids, v.polys, v.shares, v.party);
    ValueOfJoint(ids, v.polys, c.h, v.party, Sum(ids, v.shares), c.q);
    forall i | 0 <= i < |ids| && ids[i] != v.party
      ensures v.gpks[ids[i]] == ShareOf(Joint(ids, v.polys, c.h, c.q), ids[i], c.q)
    {
      AcceptedGroupKey(c, ids, v.polys, ids[i], v.receivedGpks[ids[i]]);
    }
  }

  lemma AcceptedGroupKey(c: Crypto, ids: seq<int>, polys: map<int, seq<int>>, x: int, p: GpkPayload)
    requires Prime(c.q) && !Cong(c.h, 0, c.q) && PolysOf(ids, polys)
    requires AcceptsGpk(c, ids, polys, x, p) && Sound(c, p.gpk, p.auxGpk)
    ensures p.gpk == ShareOf(Joint(ids, polys, c.h, c.q), x, c.q)
  {
    SoundExponent(c, p.gpk, p.auxGpk);
    CongMod(c.h * p.gpk, c.q);
    CongMod(CommitSum(ids, polys, x), c.q);
    ValueOfJoint(ids, polys, c.h, x, p.gpk, c.q);
    ModSmall(p.gpk, c.q);
  }
}
