/**
  What dealers can do without being noticed. The verified key generation compares commitments with
  shares and keys; it looks at no commitment's length, and the parties never compare the commitments
  they were shown.
*/
module DishonestDealers {
  import opened Field
  import opened Polynomial
  import opened Shamir
  import opened Threshold
  import opened Dleq
  import opened Disputes
  import opened GroupKeys
  import opened KeyGeneration
  import opened GeneratedKeys
  import opened Collections

  // ------------------------------------------------------------------ polynomials that agree at some points

  function Longer(f: seq<int>, g: seq<int>): (n: nat)
    ensures |f| <= n && |g| <= n && (n == |f| || n == |g|)
  {
    if |f| < |g| then |g| else |f|
  }

  function Difference(f: seq<int>, g: seq<int>): (d: seq<int>)
    ensures |d| == Longer(f, g)
  {
    Minus(Pad(f, Longer(f, g)), Pad(g, Longer(f, g)))
  }

  lemma EvalDifference(f: seq<int>, g: seq<int>, x: int)
    ensures Eval(Difference(f, g), x) == Eval(f, x) - Eval(g, x)
  {
    var n := Longer(f, g);
    EvalPad(f, n, x);
    EvalPad(g, n, x);
    EvalMinus(Pad(f, n), Pad(g, n), x);
  }

  /** A polynomial that vanishes at all the points is a multiple of their product. */
  lemma MultipleOfNodes(d: seq<int>, xs: seq<int>, x: int, q: int)
    requires Prime(q) && Distinct(xs, q) && Roots(d, xs, q)
    ensures Cong(Eval(d, x), NodeProduct(xs, x) * Eval(Quots(d, xs), x), q)
  {
    var r := Remainder(d, xs);
    forall i | 0 <= i < |xs| ensures Cong(Eval(r, xs[i]), 0, q) {
      DivisionByNodes(d, xs, xs[i]);
      NodeProductZero(xs, i);
    }
    RootsForceZero(r, xs, q);
    EvalCong(r, Zeros(|r|), x, x, q);
    EvalZeros(|r|, x);
    DivisionByNodes(d, xs, x);
    var m := NodeProduct(xs, x) * Eval(Quots(d, xs), x);
    CongAdd(Eval(r, x), 0, m, m, q);
  }

  /** The values at x differ by a multiple of the product of the (x - xs[i]). */
  ghost predicate OffByNodes(f: seq<int>, g: seq<int>, xs: seq<int>, x: int, q: int)
    requires 0 < q
  {
    Cong(Eval(f, x) - Eval(g, x), NodeProduct(xs, x) * Eval(Quots(Difference(f, g), xs), x), q)
  }

  /** Agreement at the points xs: the polynomials differ by a multiple of the points' product, everywhere. */
  lemma DifferByNodes(f: seq<int>, g: seq<int>, xs: seq<int>, x: int, q: int)
    requires Prime(q) && ShareHolders(xs, q) && Agree(f, g, xs, q)
    ensures OffByNodes(f, g, xs, x, q)
  {
    SmallDistinct(xs, q);
    forall i | 0 <= i < |xs| ensures Cong(Eval(Difference(f, g), xs[i]), 0, q) {
      EvalDifference(f, g, xs[i]);
      CongZeroDiff(Eval(f, xs[i]), Eval(g, xs[i]), q);
    }
    MultipleOfNodes(Difference(f, g), xs, x, q);
    EvalDifference(f, g, x);
  }

  lemma EqualIffOffsetZero(u: int, v: int, n: int, e: int, q: int)
    requires Prime(q) && !Cong(n, 0, q) && Cong(u - v, n * e, q)
    ensures u % q == v % q <==> Cong(e, 0, q)
  {
    CongZeroDiff(u, v, q);
    if Cong(e, 0, q) {
      CongMul(n, n, e, 0, q);
    }
    if Cong(n * e, 0, q) {
      CancelFactor(n, e, q);
    }
  }

  lemma NothingLeft(d: seq<int>, xs: seq<int>)
    requires |d| <= |xs|
    ensures Eval(Quots(d, xs), 0) == 0
  {
    var r := Quots(d, xs);
    assert r == [];
  }

  /** In particular at zero, which is none of the points; u and v are the values there. */
  lemma AgreeAtZeroIff(f: seq<int>, g: seq<int>, xs: seq<int>, u: int, v: int, q: int)
    requires Prime(q) && ShareHolders(xs, q) && Agree(f, g, xs, q) && u == Eval(f, 0) && v == Eval(g, 0)
    ensures u % q == v % q <==> Cong(Eval(Quots(Difference(f, g), xs), 0), 0, q)
  {
    var n, e := NodeProduct(xs, 0), Eval(Quots(Difference(f, g), xs), 0);
    assert !Cong(n, 0, q) by { NodeProductInvertible(xs, q); }
    assert Cong(u - v, n * e, q) by { DifferByNodes(f, g, xs, 0, q); }
    EqualIffOffsetZero(u, v, n, e, q);
  }

  // ------------------------------------------------------------------ two parties with different commitments

  /** What one party goes by: the commitments it was shown, and the keys it came out with. */
  datatype Outcome = Outcome(polys: map<int, seq<int>>, mpk: int, gpks: map<int, int>)

  ghost predicate Holds(c: Crypto, ids: seq<int>, o: Outcome) {
    OnOnePolynomial(c, ids, o.polys, o.mpk, o.gpks)
  }

  /** The honest parties are members that told the group key they hold to both. */
  ghost predicate Honest(ids: seq<int>, gpks: map<int, int>, gpks': map<int, int>, hs: seq<int>, q: int) {
    && ShareHolders(hs, q)
    && forall k :: 0 <= k < |hs| ==> hs[k] in ids && hs[k] in gpks && hs[k] in gpks' && gpks[hs[k]] == gpks'[hs[k]]
  }

  ghost function JointOf(c: Crypto, ids: seq<int>, o: Outcome): seq<int>
    requires Holds(c, ids, o)
  {
    Joint(ids, o.polys, c.h, c.q)
  }

  /** Two parties agree, at the honest ids, on the polynomial the keys lie on. */
  lemma JointsAgree(c: Crypto, ids: seq<int>, a: Outcome, b: Outcome, hs: seq<int>)
    requires Holds(c, ids, a) && Holds(c, ids, b) && Honest(ids, a.gpks, b.gpks, hs, c.q)
    ensures Agree(JointOf(c, ids, a), JointOf(c, ids, b), hs, c.q)
  {
    forall k | 0 <= k < |hs|
      ensures ShareOf(JointOf(c, ids, a), hs[k], c.q) == ShareOf(JointOf(c, ids, b), hs[k], c.q)
    {
      var i :| 0 <= i < |ids| && ids[i] == hs[k];
    }
  }

  /** What they disagree on is a multiple of the product of the (x - honest id). */
  lemma JointsDifferByHonest(c: Crypto, ids: seq<int>, a: Outcome, b: Outcome, hs: seq<int>, x: int)
    requires Holds(c, ids, a) && Holds(c, ids, b) && Honest(ids, a.gpks, b.gpks, hs, c.q)
    ensures OffByNodes(JointOf(c, ids, a), JointOf(c, ids, b), hs, x, c.q)
  {
    JointsAgree(c, ids, a, b, hs);
    DifferByNodes(JointOf(c, ids, a), JointOf(c, ids, b), hs, x, c.q);
  }

  /**
    Two parties come out with keys, whatever commitments the dealers showed each of them. Their master keys
    are equal exactly when the factor beside the product of the (x - honest id) vanishes at zero, and always
    if no commitment vector is longer than the number of honest parties.
  */
  lemma MasterKeysAgreeIff(c: Crypto, ids: seq<int>, a: Outcome, b: Outcome, hs: seq<int>)
    requires Holds(c, ids, a) && Holds(c, ids, b) && Honest(ids, a.gpks, b.gpks, hs, c.q)
    ensures a.mpk == b.mpk <==> Cong(Eval(Quots(Difference(JointOf(c, ids, a), JointOf(c, ids, b)), hs), 0), 0, c.q)
    ensures MaxLen(ids, a.polys) <= |hs| && MaxLen(ids, b.polys) <= |hs| ==> a.mpk == b.mpk
  {
    JointsAgree(c, ids, a, b, hs);
    var f, g := JointOf(c, ids, a), JointOf(c, ids, b);
    AgreeAtZeroIff(f, g, hs, Eval(f, 0), Eval(g, 0), c.q);
    if Longer(f, g) <= |hs| {
      NothingLeft(Difference(f, g), hs);
    }
  }

  // ------------------------------------------------------------------ an instance of both

  const TRIO: seq<int> := [1, 2, 3]

  /**
    A group with seven elements, the identity as cipher, and a challenge that is always 0, so Proof(0, 0) is
    accepted.
  */
  function Seven(): Crypto {
    Crypto(7, 2, (x1, y1, x2, y2, t1, t2) => 0, (key, text) => Some(text), (pk, text, sig) => true)
  }

  /** The two honest parties. */
  type Side = k: int | k == 1 || k == 2 witness 1

  function Seat(k: Side): Party {
    Party(k, 1, map[3 - k := 1, 3 := 1])
  }

  /** What dealer 3 shows: to party 1 the constant 1, to party 2 the sum of it and (x - 1)(x - 2). */
  function Shown(k: Side): seq<int> {
    if k == 1 then [2, 0] else [6, 1, 2]
  }

  function TrioPolys(k: Side): map<int, seq<int>> {
    map[1 := [2, 0], 2 := [2, 0], 3 := Shown(k)]
  }

  /** The values of what the commitments add up to. */
  function TrioValue(k: Side, x: int): int {
    if k == 1 || x == 1 || x == 2 then 3 else 5
  }

  function TrioInbox(k: Side): Inbox {
    var o, none := 3 - k, Proof(0, 0);
    Inbox(map[o := Payload(1, 0, [2, 0]), 3 := Payload(1, 0, Shown(k))],
          map[o := map[k := true, 3 := true], 3 := map[1 := true, 2 := true]], map[],
          map[o := PkPayload(1, none), 3 := PkPayload(if k == 1 then 1 else 3, none)],
          map[o := GpkPayload(3, 6, none), 3 := if k == 1 then GpkPayload(3, 6, none) else GpkPayload(5, 3, none)])
  }

  lemma SevenIsPrime()
    ensures Prime(7) && !Cong(2, 0, 7)
  {
    forall d | 1 < d < 7 ensures !Divides(d, 7) {
      assert d == 2 || d == 3 || d == 4 || d == 5 || d == 6;
    }
  }

  lemma ListsTrio()
    ensures Lists(TRIO, {1, 2, 3})
  {
    assert TRIO[1..] == [2, 3] && TRIO[1..][1..] == [3];
  }

  lemma CommitSumTrio(polys: map<int, seq<int>>, x: int)
    requires PolysOf(TRIO, polys) && 1 in polys && 2 in polys && 3 in polys
    ensures CommitSum(TRIO, polys, x) == Eval(polys[1], x) + Eval(polys[2], x) + Eval(polys[3], x)
  {
    assert TRIO[0] == 1 && TRIO[1] == 2 && TRIO[2] == 3;
    assert TRIO[1..] == [2, 3] && [2, 3][1..] == [3] && [3][1..] == [];
    assert CommitSum([3], polys, x) == Eval(polys[3], x) + CommitSum([], polys, x);
    assert CommitSum([2, 3], polys, x) == Eval(polys[2], x) + CommitSum([3], polys, x);
  }

  lemma MaxLenTrio(polys: map<int, seq<int>>)
    requires PolysOf(TRIO, polys) && 1 in polys && 2 in polys && 3 in polys && |polys[1]| == |polys[2]| <= |polys[3]|
    ensures MaxLen(TRIO, polys) == |polys[3]|
  {
    assert TRIO[0] == 1 && TRIO[1] == 2 && TRIO[2] == 3;
  }

  lemma EvalTwo(a: int, b: int, x: int)
    ensures Eval([a, b], x) == a + x * b
  {
    assert [a, b][1..] == [b] && [b][1..] == [];
    assert Eval([b], x) == b + x * Eval([], x);
  }

  lemma EvalThree(a: int, b: int, c: int, x: int)
    ensures Eval([a, b, c], x) == a + x * (b + x * c)
  {
    assert [a, b, c][1..] == [b, c];
    EvalTwo(b, c, x);
  }

  lemma SumOf(k: Side, x: int)
    ensures PolysOf(TRIO, TrioPolys(k)) &&
      CommitSum(TRIO, TrioPolys(k), x) == if k == 1 then 6 else 10 + x * (1 + x * 2)
  {
    EvalTwo(2, 0, x);
    EvalThree(6, 1, 2, x);
    CommitSumTrio(TrioPolys(k), x);
  }

  lemma JointValue(k: Side, x: int)
    requires 0 <= x <= 3
    ensures Prime(7) && !Cong(2, 0, 7) && PolysOf(TRIO, TrioPolys(k))
    ensures ShareOf(Joint(TRIO, TrioPolys(k), 2, 7), x, 7) == TrioValue(k, x)
  {
    SevenIsPrime();
    SumOf(k, x);
    assert x == 0 || x == 1 || x == 2 || x == 3;
    ValueOfJoint(TRIO, TrioPolys(k), 2, x, TrioValue(k, x), 7);
  }

  lemma NoKeyIsZero(k: Side)
    ensures Prime(7) && !Cong(2, 0, 7) && PolysOf(TRIO, TrioPolys(k)) && !ZeroValue(Seven(), TRIO, TrioPolys(k))
  {
    JointValue(k, 0);
    forall i | 0 <= i < |TRIO| ensures ShareOf(Joint(TRIO, TrioPolys(k), 2, 7), TRIO[i], 7) != 0 {
      JointValue(k, TRIO[i]);
    }
  }

  lemma CommittedTrio(k: Side)
    ensures CommitmentsSeen(Seven(), k, [1, 0], TrioInbox(k)) == TrioPolys(k)
  {
    assert ReduceAll(Scale([1, 0], 2), 7) == [2, 0];
  }

  lemma SharePasses(k: Side, j: int)
    requires j == 3 - k || j == 3
    ensures j in TrioInbox(k).payloads && CheckShare(Seven(), Seat(k), j, TrioInbox(k).payloads[j]) == Value(true)
  {
    EvalTwo(2, 0, k);
    EvalThree(6, 1, 2, k);
  }

  lemma KeyPasses(k: Side, j: int)
    requires j == 3 - k || j == 3
    ensures var b, polys := TrioInbox(k), TrioPolys(k);
      j in b.pks && j in polys && AcceptsPk(Seven(), polys[j], b.pks[j]) && Sound(Seven(), b.pks[j].pk, polys[j][0])
  {
    assert CommonExponent(1, 1, 2, 2, 1, 7) && CommonExponent(1, 3, 2, 6, 3, 7);
  }

  lemma GroupKeyPasses(k: Side, j: int)
    requires j == 3 - k || j == 3
    ensures PolysOf(TRIO, TrioPolys(k)) && j in TrioInbox(k).gpks
    ensures AcceptsGpk(Seven(), TRIO, TrioPolys(k), j, TrioInbox(k).gpks[j])
    ensures Sound(Seven(), TrioInbox(k).gpks[j].gpk, TrioInbox(k).gpks[j].auxGpk)
  {
    SumOf(k, j);
    assert CommonExponent(1, 3, 2, 6, 3, 7) && CommonExponent(1, 5, 2, 3, 5, 7);
  }

  lemma TrioPasses(k: Side, j: int)
    requires j == 3 - k || j == 3
    ensures PolysOf(TRIO, TrioPolys(k)) && MemberPasses(Seven(), Seat(k), TRIO, TrioPolys(k), TrioInbox(k), j)
  {
    SharePasses(k, j);
    KeyPasses(k, j);
    GroupKeyPasses(k, j);
  }

  lemma CanDeal()
    ensures !CannotDeal([1, 0], TRIO, 7) && Parameters(Seven(), TRIO, 1, [1, 0])
  {
    SevenIsPrime();
    EvalTwo(1, 0, 1);
    EvalTwo(1, 0, 2);
    EvalTwo(1, 0, 3);
  }

  lemma NoComplaint(k: Side, j: int, i: int)
    ensures !Complains(TrioInbox(k).results, j, i)
  {
  }

  lemma TrioListed(k: Side)
    ensures var b := TrioInbox(k);
      Lists(TRIO, b.payloads.Keys + {k}) && Lists(TRIO, b.pks.Keys + {k}) && Lists(TRIO, b.gpks.Keys + {k})
  {
    var b := TrioInbox(k);
    ListsTrio();
    assert b.payloads.Keys + {k} == {1, 2, 3} && b.pks.Keys + {k} == {1, 2, 3} && b.gpks.Keys + {k} == {1, 2, 3};
  }

  lemma TrioDelivered(k: Side)
    ensures Delivered(Seven(), k, TRIO, TrioInbox(k)) && forall j, i :: !Complains(TrioInbox(k).results, j, i)
  {
    TrioListed(k);
    forall j, i ensures !Complains(TrioInbox(k).results, j, i) {
      NoComplaint(k, j, i);
    }
  }

  lemma AllPass(k: Side, i: nat)
    requires i < |TRIO| && TRIO[i] != k
    ensures PolysOf(TRIO, TrioPolys(k)) && MemberPasses(Seven(), Seat(k), TRIO, TrioPolys(k), TrioInbox(k), TRIO[i])
  {
    TrioPasses(k, TRIO[i]);
  }

  lemma TrioGenerates(k: Side, r: GenerateResult)
    requires Prime(7) && !Cong(2, 0, 7) && Delivered(Seven(), k, TRIO, TrioInbox(k))
    requires Returns(Seven(), Seat(k), TRIO, [1, 0], TrioInbox(k), r)
    ensures KeysDerived(Seven(), k, TRIO, TrioPolys(k), r)
  {
    CanDeal();
    TrioDelivered(k);
    CommittedTrio(k);
    NoKeyIsZero(k);
    forall i | 0 <= i < |TRIO| && TRIO[i] != k
      ensures MemberPasses(Seven(), Seat(k), TRIO, TrioPolys(k), TrioInbox(k), TRIO[i])
    {
      AllPass(k, i);
    }
    PassingRun(Seven(), Seat(k), TRIO, [1, 0], TrioInbox(k), r);
  }

  lemma TrioKeys(k: Side, r: GenerateResult)
    requires KeysDerived(Seven(), k, TRIO, TrioPolys(k), r)
    ensures r.mpk == TrioValue(k, 0) && forall x :: 1 <= x <= 3 ==> x in r.gpks && r.gpks[x] == TrioValue(k, x)
  {
    JointValue(k, 0);
    forall x | 1 <= x <= 3 ensures x in r.gpks && r.gpks[x] == TrioValue(k, x) {
      assert TRIO[x - 1] == x;
      JointValue(k, x);
    }
  }

  /** The key generation of party 1 or 2, with key 1 and its polynomial constant. */
  method GenerateTrio(k: Side) returns (r: GenerateResult)
    ensures KeysDerived(Seven(), k, TRIO, TrioPolys(k), r)
    ensures r.mpk == TrioValue(k, 0) && forall x :: 1 <= x <= 3 ==> x in r.gpks && r.gpks[x] == TrioValue(k, x)
  {
    CanDeal();
    TrioDelivered(k);
    assert [1, 0][0 := 1] == [1, 0];
    r := Generate(Seven(), Seat(k), TRIO, 1, [1, 0], 0, 0, TrioInbox(k));
    TrioGenerates(k, r);
    TrioKeys(k, r);
  }

  lemma LongestOf(k: Side)
    ensures PolysOf(TRIO, TrioPolys(k)) && MaxLen(TRIO, TrioPolys(k)) == k + 1
  {
    SumOf(k, 0);
    MaxLenTrio(TrioPolys(k));
  }

  lemma PairIsHonest(gpks: map<int, int>, gpks': map<int, int>)
    requires 1 in gpks && 2 in gpks && 1 in gpks' && 2 in gpks' && gpks[1] == gpks'[1] && gpks[2] == gpks'[2]
    ensures Honest(TRIO, gpks, gpks', [1, 2], 7)
  {
    assert TRIO[0] == 1 && TRIO[1] == 2;
  }

  /**
    With one commitment vector longer than the number of honest parties, two parties that both generate keys can
    generate different master keys.
  */
  method MasterKeysCanDiffer() returns (a: GenerateResult, b: GenerateResult)
    ensures KeysDerived(Seven(), 1, TRIO, TrioPolys(1), a) && KeysDerived(Seven(), 2, TRIO, TrioPolys(2), b)
    ensures Honest(TRIO, a.gpks, b.gpks, [1, 2], 7) && MaxLen(TRIO, TrioPolys(1)) == 2 &&
      MaxLen(TRIO, TrioPolys(2)) == 3
    ensures a.mpk != b.mpk
  {
    a := GenerateTrio(1);
    b := GenerateTrio(2);
    PairIsHonest(a.gpks, b.gpks);
    LongestOf(1);
    LongestOf(2);
  }

  lemma PairInterpolates()
    ensures Prime(7) && Distinct([1, 2], 7) && Dot(LagrangeAll([1, 2], 7), [3, 3], 2) % 7 == 3
  {
    var who, sigs := [1, 2], [3, 3];
    SevenIsPrime();
    SmallDistinct(who, 7);
    EvalTwo(3, 0, 1);
    EvalTwo(3, 0, 2);
    EvalTwo(3, 0, 0);
    assert ValuesAt([3, 0], who) == sigs;
    ShortInterpolation([3, 0], who, 7);
  }

  method CombinePair() returns (agg: int)
    ensures agg == 3
  {
    PairInterpolates();
    agg := UnsafeAggregate([3, 3], [1, 2], 7);
  }

  lemma PairSigns(gpks: map<int, int>, agg: int)
    requires 1 in gpks && 2 in gpks && gpks[1] == gpks[2] == 3 && agg == 3
    ensures QuorumSigns(Seven(), TRIO, gpks, [1, 2], [3, 3], agg, 1)
  {
    PairInterpolates();
    forall k | 0 <= k < 2 ensures SignedByMember(Seven(), TRIO, gpks, [1, 2][k], [3, 3][k], 1) {
      assert TRIO[k] == [1, 2][k];
    }
  }

  /**
    With one commitment vector longer than the quorum, party 2 generates keys, and both members of the quorum sign
    with them, but the combined signature does not verify under the master key.
  */
  method QuorumCanFail() returns (r: GenerateResult, agg: int)
    ensures KeysDerived(Seven(), 2, TRIO, TrioPolys(2), r) && |TrioPolys(2)[2]| == 2 < MaxLen(TRIO, TrioPolys(2))
    ensures QuorumSigns(Seven(), TRIO, r.gpks, [1, 2], [3, 3], agg, 1)
    ensures !Verifies(r.mpk, agg, 1, 7)
  {
    r := GenerateTrio(2);
    agg := CombinePair();
    PairSigns(r.gpks, agg);
    LongestOf(2);
  }
}
