/**
  The verified key generation of one party from beginning to end, over whatever messages the other
  parties send: deal, check the received shares, settle complaints, exchange keys, derive the result.
*/
module KeyGeneration {
  import opened Field
  import opened Polynomial
  import opened Shamir
  import opened Dleq
  import opened Disputes
  import opened GroupKeys
  import opened Collections

  /** Everything the other parties send; claims[(j, i)] is what j sends after complaining about i. */
  datatype Inbox = Inbox(payloads: map<int, Payload>, results: map<int, map<int, bool>>, claims: map<(int, int), Claim>,
                         pks: map<int, PkPayload>, gpks: map<int, GpkPayload>)

  datatype GenerateResult =
    | Generated(gsk: int, mpk: int, gpks: map<int, int>)
    | KeyGenError
    | Disputed(verdict: Verdict)
    | ExchangeFailed(why: KeysResult)
    | Crashed

  /** The receives have completed, and the points received are points. */
  ghost predicate Delivered(c: Crypto, party: int, ids: seq<int>, inbox: Inbox) {
    && party !in inbox.payloads && Lists(ids, inbox.payloads.Keys + {party})
    && Lists(ids, inbox.pks.Keys + {party}) && Lists(ids, inbox.gpks.Keys + {party})
    && (forall id :: id in inbox.payloads ==> InField(inbox.payloads[id].commitments, c.q))
    && (forall j, i :: Complains(inbox.results, j, i) ==> (j, i) in inbox.claims)
  }

  /** What the parties are committed to, as this party sees it. */
  function Vectors(party: int, own: seq<int>, payloads: map<int, Payload>): (polys: map<int, seq<int>>) {
    (map id | id in payloads :: payloads[id].commitments)[party := own]
  }

  /** The commitments a party with these coefficients goes on with. */
  ghost function CommitmentsSeen(c: Crypto, party: int, coeffs: seq<int>, inbox: Inbox): map<int, seq<int>>
    requires 0 < c.q
  {
    Vectors(party, ReduceAll(Scale(coeffs, c.h), c.q), inbox.payloads)
  }

  /** The commitments and shares a party goes on with: every share matches its dealer's commitments. */
  datatype Dealing = Dealing(polys: map<int, seq<int>>, shares: map<int, int>)

  ghost predicate Checked(c: Crypto, party: int, ids: seq<int>, d: Dealing)
    requires 0 < c.q
  {
    && Lists(ids, d.polys.Keys) && FieldPolys(ids, d.polys, c.q)
    && Lists(ids, d.shares.Keys) && AllMatch(c, ids, d.polys, d.shares, party)
  }

  // ------------------------------------------------------------------ shares

  /** `reveal_shares`, from the moment all received shares have been checked. */
  method RevealShares(c: Crypto, p: Party, payloads: map<int, Payload>) returns (shares: map<int, int>)
    requires 0 < c.q && forall id :: id in payloads && id != p.id ==> OpenShare(c, p, id, payloads[id]).Value?
    ensures shares.Keys == payloads.Keys - {p.id}
    ensures forall id :: id in shares ==> Value(shares[id]) == OpenShare(c, p, id, payloads[id])
  {
    shares := map[];
    var todo := payloads.Keys;
    while todo != {}
      invariant todo <= payloads.Keys && shares.Keys == payloads.Keys - todo - {p.id}
      invariant forall id :: id in shares ==> Value(shares[id]) == OpenShare(c, p, id, payloads[id])
    {
      Inhabited(todo);
      var id :| id in todo;
      todo := todo - {id};
      if id != p.id {
        shares := shares[id := OpenShare(c, p, id, payloads[id]).value];
      }
    }
  }

  /** The own share passes the check against the own commitments. */
  lemma OwnShareMatches(c: Crypto, coeffs: seq<int>, x: int)
    requires 0 < c.q
    ensures ShareMatches(c, ReduceAll(Scale(coeffs, c.h), c.q), ShareOf(coeffs, x, c.q), x)
  {
    CommittedEvalIsCommitment(coeffs, c.h, x, c.q);
  }

  lemma DealingIsChecked(c: Crypto, p: Party, ids: seq<int>, coeffs: seq<int>, payloads: map<int, Payload>, d: Dealing)
    requires 0 < c.q && coeffs != [] && p.id !in payloads && Lists(ids, payloads.Keys + {p.id})
    requires d.polys == Vectors(p.id, ReduceAll(Scale(coeffs, c.h), c.q), payloads)
    requires d.shares.Keys == payloads.Keys + {p.id} && d.shares[p.id] == ShareOf(coeffs, p.id, c.q)
    requires forall id :: id in payloads ==>
      && InField(payloads[id].commitments, c.q)
      && CheckShare(c, p, id, payloads[id]) == Value(true) && Value(d.shares[id]) == OpenShare(c, p, id, payloads[id])
    ensures Checked(c, p.id, ids, d)
  {
    OwnShareMatches(c, coeffs, p.id);
    ReduceAllCong(Scale(coeffs, c.h), c.q);
    assert d.polys.Keys == payloads.Keys + {p.id};
  }

  /** The curve and the local random choices: sk is the fresh key, the sample holds the random coefficients. */
  ghost predicate Parameters(c: Crypto, ids: seq<int>, sk: int, sample: seq<int>) {
    && Prime(c.q) && c.q <= SCALAR_LIMIT && !Cong(c.h, 0, c.q)
    && InField(ids, c.q) && 0 <= sk < c.q && sample != [] && InField(sample, c.q)
  }

  datatype DealResult = Dealt(d: Dealing) | Stopped(r: GenerateResult)

  ghost predicate Mismatch(c: Crypto, p: Party, payloads: map<int, Payload>)
    requires 0 < c.q
  {
    exists id :: id in payloads && CheckShare(c, p, id, payloads[id]) == Value(false)
  }

  /** A share cannot be opened, or comes with no commitments. */
  ghost predicate Unreadable(c: Crypto, p: Party, payloads: map<int, Payload>)
    requires 0 < c.q
  {
    exists id :: id in payloads && CheckShare(c, p, id, payloads[id]).Panic?
  }

  /** Some id is zero, or some share of the own key is. */
  ghost predicate CannotDeal(coeffs: seq<int>, ids: seq<int>, q: int)
    requires 0 < q
  {
    exists i :: 0 <= i < |ids| && StopsAt(coeffs, ids[i], q)
  }

  /** Every share can be read and matches, and nobody has a valid claim. */
  ghost predicate Undisputed(c: Crypto, p: Party, inbox: Inbox)
    requires 0 < c.q
  {
    && !Unreadable(c, p, inbox.payloads) && !Mismatch(c, p, inbox.payloads)
    && !SomeValid(c, p, inbox.results, inbox.claims) && !SomePanic(c, p, inbox.results, inbox.claims)
  }

  /** `share_generation`: the party's own share and commitments; the first coefficient is the fresh key. */
  method ShareGeneration(c: Crypto, party: int, ids: seq<int>, sk: int, sample: seq<int>)
    returns (r: SplitResult, commitments: seq<int>)
    requires Parameters(c, ids, sk, sample)
    ensures r.InvalidId? ==> 0 in ids
    ensures r.Shares? <==> !CannotDeal(sample[0 := sk], ids, c.q)
    ensures r.Shares? ==> 0 !in ids && commitments == ReduceAll(Scale(sample[0 := sk], c.h), c.q)
    ensures r.Shares? && party in ids ==> party in r.shares && r.shares[party] == ShareOf(sample[0 := sk], party, c.q)
  {
    r := KeySplit(sk, sample, ids, c.q);
    if !r.Shares? {
      return r, [];
    }
    assert forall i :: 0 <= i < |ids| ==> !StopsAt(sample[0 := sk], ids[i], c.q);
    commitments := Commit(r.coeffs, c.h, c.q);
    EvalIsPowerSum(r.coeffs, party);
  }

  /** The errors of the dispute phase: a valid claim, reported with all of them, goes before an own complaint. */
  ghost predicate Aborts(c: Crypto, p: Party, inbox: Inbox, v: Verdict)
    requires 0 < c.q
  {
    if SomeValid(c, p, inbox.results, inbox.claims)
    then v.InvalidDkgShare? && ListsAccepted(c, p, inbox.results, inbox.claims, v.pairs)
    else v.VssShareVerificationFailed? && Mismatch(c, p, inbox.payloads)
  }

  /** The received shares are checked and the complaints settled. */
  method Settle(c: Crypto, p: Party, inbox: Inbox) returns (v: Verdict)
    requires 0 < c.q && p.id !in inbox.payloads
    requires forall id :: id in inbox.payloads ==> InField(inbox.payloads[id].commitments, c.q)
    requires forall j, i :: Complains(inbox.results, j, i) ==> (j, i) in inbox.claims
    ensures v.Continue? <==> Undisputed(c, p, inbox)
    ensures v.Panicked? ==> Unreadable(c, p, inbox.payloads) || SomePanic(c, p, inbox.results, inbox.claims)
    ensures !v.Continue? && !v.Panicked? ==> Aborts(c, p, inbox, v)
  {
    var checks := ShareVerification(c, p, inbox.payloads);
    if checks.Panic? {
      return Panicked;
    }
    v := DisputePhase(c, p, checks.value, inbox.results, inbox.claims);
  }

  lemma AllChecksPass(c: Crypto, p: Party, inbox: Inbox)
    requires 0 < c.q && Undisputed(c, p, inbox)
    ensures forall id :: id in inbox.payloads ==> CheckShare(c, p, id, inbox.payloads[id]) == Value(true)
  {
    forall id | id in inbox.payloads ensures CheckShare(c, p, id, inbox.payloads[id]) == Value(true) {
      var check := CheckShare(c, p, id, inbox.payloads[id]);
      assert check.Value? && check != Value(false);
    }
  }

  /** The commitments and shares of everybody, once there is nothing left to dispute. */
  method Collect(c: Crypto, p: Party, ids: seq<int>, commitments: seq<int>, share: int, inbox: Inbox,
                 ghost coeffs: seq<int>)
    returns (d: Dealing)
    requires 0 < c.q && coeffs != [] && Delivered(c, p.id, ids, inbox) && Undisputed(c, p, inbox)
    requires commitments == ReduceAll(Scale(coeffs, c.h), c.q) && share == ShareOf(coeffs, p.id, c.q)
    ensures Checked(c, p.id, ids, d) && d.polys == CommitmentsSeen(c, p.id, coeffs, inbox)
  {
    AllChecksPass(c, p, inbox);
    var shares := RevealShares(c, p, inbox.payloads);
    d := Dealing(Vectors(p.id, commitments, inbox.payloads), shares[p.id := share]);
    DealingIsChecked(c, p, ids, coeffs, inbox.payloads, d);
  }

  ghost predicate CrashesDealing(c: Crypto, p: Party, coeffs: seq<int>, ids: seq<int>, inbox: Inbox)
    requires 0 < c.q
  {
    || CannotDeal(coeffs, ids, c.q)
    || Unreadable(c, p, inbox.payloads) || SomePanic(c, p, inbox.results, inbox.claims)
  }

  /** The first half of `run`, up to the point where no valid claim is left. */
  method Deal(c: Crypto, p: Party, ids: seq<int>, sk: int, sample: seq<int>, inbox: Inbox) returns (r: DealResult)
    requires Parameters(c, ids, sk, sample) && Delivered(c, p.id, ids, inbox)
    ensures r.Dealt? <==> !CannotDeal(sample[0 := sk], ids, c.q) && Undisputed(c, p, inbox)
    ensures r.Dealt? ==>
      0 !in ids && Checked(c, p.id, ids, r.d) && r.d.polys == CommitmentsSeen(c, p.id, sample[0 := sk], inbox)
    ensures r.Stopped? ==>
      || (r.r == Crashed && CrashesDealing(c, p, sample[0 := sk], ids, inbox))
      || (r.r == KeyGenError && 0 in ids)
      || (r.r.Disputed? && Aborts(c, p, inbox, r.r.verdict))
  {
    var split, commitments := ShareGeneration(c, p.id, ids, sk, sample);
    if split.InvalidId? {
      return Stopped(KeyGenError);
    }
    if split.ZeroShare? {
      return Stopped(Crashed);
    }
    var verdict := Settle(c, p, inbox);
    if verdict.Panicked? {
      return Stopped(Crashed);
    }
    if !verdict.Continue? {
      return Stopped(Disputed(verdict));
    }
    var d := Collect(c, p, ids, commitments, split.shares[p.id], inbox, sample[0 := sk]);
    return Dealt(d);
  }

  // ------------------------------------------------------------------ keys

  /** The one thing taken for granted: an accepted proof has one exponent for both bases. */
  ghost predicate ProofsSound(c: Crypto, party: int, ids: seq<int>, polys: map<int, seq<int>>, inbox: Inbox)
    requires 0 < c.q && PolysOf(ids, polys) && Lists(ids, inbox.pks.Keys + {party}) &&
      Lists(ids, inbox.gpks.Keys + {party})
  {
    && (forall i :: 0 <= i < |ids| && ids[i] != party && AcceptsPk(c, polys[ids[i]], inbox.pks[ids[i]]) ==>
      Sound(c, inbox.pks[ids[i]].pk, polys[ids[i]][0]))
    && (forall i :: 0 <= i < |ids| && ids[i] != party && AcceptsGpk(c, ids, polys, ids[i], inbox.gpks[ids[i]]) ==>
      Sound(c, inbox.gpks[ids[i]].gpk, inbox.gpks[ids[i]].auxGpk))
  }

  /** A zero key cannot be converted: the result of its deserialization is unwrapped. */
  method NoZeroIn(keys: map<int, int>) returns (b: bool)
    ensures b <==> forall id :: id in keys ==> keys[id] != 0
  {
    var todo := keys.Keys;
    while todo != {}
      invariant todo <= keys.Keys
      invariant forall id :: id in keys && id !in todo ==> keys[id] != 0
    {
      Inhabited(todo);
      var id :| id in todo;
      todo := todo - {id};
      if keys[id] == 0 {
        return false;
      }
    }
    return true;
  }

  /** The own key and the own commitment have one exponent. */
  lemma OwnKeyIsSound(c: Crypto, coeffs: seq<int>, w: int)
    requires 0 < c.q && coeffs != [] && 0 <= coeffs[0] < c.q
    ensures var y := ReduceAll(Scale(coeffs, c.h), c.q)[0];
      Sound(c, coeffs[0], y) && DleqProve(1, coeffs[0], c.h, y, coeffs[0], w, c.hash, c.q).Proved?
  {
    var y := ReduceAll(Scale(coeffs, c.h), c.q)[0];
    ModSmall(coeffs[0], c.q);
    assert CommonExponent(1, coeffs[0], c.h, y, coeffs[0], c.q);
  }

  /** The keys a party returns lie on the joint polynomial of everybody's commitments, and its own is among them. */
  ghost predicate KeysDerived(c: Crypto, party: int, ids: seq<int>, polys: map<int, seq<int>>, r: GenerateResult) {
    && r.Generated?
    && Lists(ids, r.gpks.Keys) && OnOnePolynomial(c, ids, polys, r.mpk, r.gpks)
    && party in r.gpks && r.gsk == r.gpks[party]
  }

  ghost predicate PkRejected(c: Crypto, party: int, ids: seq<int>, polys: map<int, seq<int>>,
                             received: map<int, PkPayload>)
    requires 0 < c.q && PolysOf(ids, polys) && Lists(ids, received.Keys + {party})
  {
    exists i :: 0 <= i < |ids| && ids[i] != party && !AcceptsPk(c, polys[ids[i]], received[ids[i]])
  }

  ghost predicate GpkRejected(c: Crypto, party: int, ids: seq<int>, polys: map<int, seq<int>>,
                              received: map<int, GpkPayload>)
    requires 0 < c.q && PolysOf(ids, polys) && Lists(ids, received.Keys + {party})
  {
    exists i :: 0 <= i < |ids| && ids[i] != party && !AcceptsGpk(c, ids, polys, ids[i], received[ids[i]])
  }

  ghost predicate ZeroValue(c: Crypto, ids: seq<int>, polys: map<int, seq<int>>)
    requires Prime(c.q) && !Cong(c.h, 0, c.q) && PolysOf(ids, polys)
  {
    || ShareOf(Joint(ids, polys, c.h, c.q), 0, c.q) == 0
    || exists i :: 0 <= i < |ids| && ShareOf(Joint(ids, polys, c.h, c.q), ids[i], c.q) == 0
  }

  /** Where the second half of `run` starts. */
  ghost predicate Ready(c: Crypto, party: int, ids: seq<int>, coeffs: seq<int>, d: Dealing, inbox: Inbox) {
    && Prime(c.q) && !Cong(c.h, 0, c.q) && (forall i :: 0 <= i < |ids| ==> 0 < ids[i] < c.q)
    && coeffs != [] && 0 <= coeffs[0] < c.q && Checked(c, party, ids, d)
    && party in d.polys && d.polys[party] == ReduceAll(Scale(coeffs, c.h), c.q)
    && Lists(ids, inbox.pks.Keys + {party}) && Lists(ids, inbox.gpks.Keys + {party})
  }

  /** Both exchanges succeeded. */
  ghost predicate Exchanged(c: Crypto, party: int, ids: seq<int>, pk: int, d: Dealing, inbox: Inbox,
                            pks: map<int, int>, gpk: int, gpks: map<int, int>)
    requires 0 < c.q && Checked(c, party, ids, d)
  {
    && gpk == Sum(ids, d.shares) % c.q
    && AcceptedPks(c, party, ids, d.polys, pk, inbox.pks, pks)
    && AcceptedGpks(c, party, ids, d.polys, gpk, inbox.gpks, gpks)
  }

  lemma ExchangedKeys(c: Crypto, party: int, ids: seq<int>, coeffs: seq<int>, d: Dealing, inbox: Inbox,
                      pks: map<int, int>, gpk: int, gpks: map<int, int>)
    requires Ready(c, party, ids, coeffs, d, inbox) && Exchanged(c, party, ids, coeffs[0], d, inbox, pks, gpk, gpks)
    requires ProofsSound(c, party, ids, d.polys, inbox)
    ensures KeysDerived(c, party, ids, d.polys, Generated(gpk, Sum(ids, pks) % c.q, gpks))
    ensures ZeroValue(c, ids, d.polys) <==> Sum(ids, pks) % c.q == 0 || exists id :: id in gpks && gpks[id] == 0
  {
    OwnKeyIsSound(c, coeffs, 0);
    AcceptedKeysOnOnePolynomial(c, ids,
      View(party, d.polys, d.shares, coeffs[0], pks, inbox.pks, gpk, gpks, inbox.gpks));
  }

  /** The public keys are exchanged; their sum is the master key. */
  method DeriveMasterKey(c: Crypto, party: int, ids: seq<int>, coeffs: seq<int>, w: int, d: Dealing, inbox: Inbox)
    returns (pks: KeysResult, mpk: int)
    requires Ready(c, party, ids, coeffs, d, inbox)
    ensures pks.Keys? <==> !PkRejected(c, party, ids, d.polys, inbox.pks)
    ensures pks.Keys? ==>
      AcceptedPks(c, party, ids, d.polys, coeffs[0], inbox.pks, pks.keys) && mpk == Sum(ids, pks.keys) % c.q
    ensures pks.Keys? || pks.InsufficientValidPks?
  {
    OwnKeyIsSound(c, coeffs, w);
    pks := ExchangePublicKeys(c, party, ids, d.polys, coeffs[0], coeffs[0], w, inbox.pks);
    mpk := 0;
    if pks.Keys? {
      mpk := AddAll(pks.keys, c.q, ids);
    }
  }

  /** The group key is the sum of the shares; everybody's is exchanged. */
  method DeriveGroupKeys(c: Crypto, party: int, ids: seq<int>, w: int, d: Dealing, inbox: Inbox)
    returns (gsk: int, gpks: KeysResult)
    requires 0 < c.q && Checked(c, party, ids, d) && Lists(ids, inbox.gpks.Keys + {party})
    ensures gsk == Sum(ids, d.shares) % c.q
    ensures gpks.Keys? <==> !GpkRejected(c, party, ids, d.polys, inbox.gpks)
    ensures gpks.Keys? ==> AcceptedGpks(c, party, ids, d.polys, gsk, inbox.gpks, gpks.keys)
    ensures gpks.Keys? || gpks.InsufficientValidPks?
  {
    var gpk;
    gsk, gpk := ConstructGroupKey(c, party, d.shares, ids, d.polys);
    ModSmall(gsk, c.q);
    gpks := ExchangeGroupPublicKeys(c, party, ids, d.polys, gpk, gsk, w, inbox.gpks);
  }

  ghost predicate Rejected(c: Crypto, party: int, ids: seq<int>, polys: map<int, seq<int>>, inbox: Inbox)
    requires 0 < c.q && PolysOf(ids, polys) && Lists(ids, inbox.pks.Keys + {party}) &&
      Lists(ids, inbox.gpks.Keys + {party})
  {
    PkRejected(c, party, ids, polys, inbox.pks) || GpkRejected(c, party, ids, polys, inbox.gpks)
  }

  /** The second half of `run`: the keys are exchanged and combined. */
  method DeriveKeys(c: Crypto, party: int, ids: seq<int>, coeffs: seq<int>, w: int, w': int, d: Dealing, inbox: Inbox)
    returns (r: GenerateResult)
    requires Ready(c, party, ids, coeffs, d, inbox)
    ensures r == ExchangeFailed(InsufficientValidPks) || r.Crashed? || r.Generated?
    ensures r.ExchangeFailed? <==> Rejected(c, party, ids, d.polys, inbox)
    ensures ProofsSound(c, party, ids, d.polys, inbox) && !r.ExchangeFailed? ==>
      if ZeroValue(c, ids, d.polys) then r.Crashed? else KeysDerived(c, party, ids, d.polys, r)
  {
    var pks, mpk := DeriveMasterKey(c, party, ids, coeffs, w, d, inbox);
    if !pks.Keys? {
      return ExchangeFailed(pks);
    }
    var gsk, gpks := DeriveGroupKeys(c, party, ids, w', d, inbox);
    if !gpks.Keys? {
      return ExchangeFailed(gpks);
    }
    if ProofsSound(c, party, ids, d.polys, inbox) {
      ExchangedKeys(c, party, ids, coeffs, d, inbox, pks.keys, gsk, gpks.keys);
    }
    var convertible := NoZeroIn(gpks.keys);
    if gsk == 0 || mpk == 0 || !convertible {
      return Crashed;
    }
    return Generated(gsk, mpk, gpks.keys);
  }

  /**
    What a party with these coefficients returns for these messages. It goes past the dispute phase exactly when
    every share can be read and matches and no claim is valid; then, if accepted proofs are sound, it returns
    keys exactly when all proofs are accepted and no key is zero, and the keys are the values F(id) and F(0) of
    the polynomial F that the received and the own commitments add up to. Its own proofs are never refused.
  */
  ghost predicate Returns(c: Crypto, p: Party, ids: seq<int>, coeffs: seq<int>, inbox: Inbox, r: GenerateResult)
    requires Prime(c.q) && !Cong(c.h, 0, c.q) && Delivered(c, p.id, ids, inbox)
  {
    && (r.Generated? || r.ExchangeFailed? ==> !CannotDeal(coeffs, ids, c.q) && Undisputed(c, p, inbox))
    && (r.KeyGenError? ==> 0 in ids)
    && (r.Disputed? ==> Aborts(c, p, inbox, r.verdict))
    && (r.ExchangeFailed? ==> r.why.InsufficientValidPks?)
    && (r.Crashed? ==> CrashesDealing(c, p, coeffs, ids, inbox) || Undisputed(c, p, inbox))
    && (!CannotDeal(coeffs, ids, c.q) && Undisputed(c, p, inbox) ==>
      var polys := CommitmentsSeen(c, p.id, coeffs, inbox);
      && PolysOf(ids, polys)
      && (r.ExchangeFailed? <==> Rejected(c, p.id, ids, polys, inbox))
      && (ProofsSound(c, p.id, ids, polys, inbox) && !r.ExchangeFailed? ==>
        if ZeroValue(c, ids, polys) then r.Crashed? else KeysDerived(c, p.id, ids, polys, r)))
  }

  /** `run` of the verified variant, for arbitrary messages from the others. */
  method Generate(c: Crypto, p: Party, ids: seq<int>, sk: int, sample: seq<int>, w: int, w': int, inbox: Inbox)
    returns (r: GenerateResult)
    requires Parameters(c, ids, sk, sample) && Delivered(c, p.id, ids, inbox)
    ensures Returns(c, p, ids, sample[0 := sk], inbox, r)
  {
    var deal := Deal(c, p, ids, sk, sample, inbox);
    if deal.Stopped? {
      return deal.r;
    }
    r := DeriveKeys(c, p.id, ids, sample[0 := sk], w, w', deal.d, inbox);
  }

  // ------------------------------------------------------------------ messages that pass

  /** Everything from member j passes its check, and its proofs are sound. */
  ghost predicate MemberPasses(c: Crypto, p: Party, ids: seq<int>, polys: map<int, seq<int>>, inbox: Inbox, j: int)
    requires 0 < c.q && PolysOf(ids, polys)
  {
    && j in inbox.payloads && CheckShare(c, p, j, inbox.payloads[j]) == Value(true)
    && j in polys && polys[j] != []
    && j in inbox.pks && AcceptsPk(c, polys[j], inbox.pks[j]) && Sound(c, inbox.pks[j].pk, polys[j][0])
    && j in inbox.gpks && AcceptsGpk(c, ids, polys, j, inbox.gpks[j]) &&
      Sound(c, inbox.gpks[j].gpk, inbox.gpks[j].auxGpk)
  }

  /**
    If nobody complains and everything passes, keys are returned unless a share of the own key or one of the keys is
    zero.
  */
  lemma PassingRun(c: Crypto, p: Party, ids: seq<int>, coeffs: seq<int>, inbox: Inbox, r: GenerateResult)
    requires Prime(c.q) && !Cong(c.h, 0, c.q) && Delivered(c, p.id, ids, inbox) && 0 !in ids
    requires Returns(c, p, ids, coeffs, inbox, r) && forall j, i :: !Complains(inbox.results, j, i)
    requires PolysOf(ids, CommitmentsSeen(c, p.id, coeffs, inbox))
    requires forall i :: 0 <= i < |ids| && ids[i] != p.id ==>
      MemberPasses(c, p, ids, CommitmentsSeen(c, p.id, coeffs, inbox), inbox, ids[i])
    ensures if CannotDeal(coeffs, ids, c.q) || ZeroValue(c, ids, CommitmentsSeen(c, p.id, coeffs, inbox))
      then r.Crashed?
      else KeysDerived(c, p.id, ids, CommitmentsSeen(c, p.id, coeffs, inbox), r)
  {
    var polys := CommitmentsSeen(c, p.id, coeffs, inbox);
    assert Undisputed(c, p, inbox) by {
      forall id | id in inbox.payloads ensures CheckShare(c, p, id, inbox.payloads[id]) == Value(true) {
        var i := Find(ids, id);
        assert MemberPasses(c, p, ids, polys, inbox, ids[i]);
      }
    }
    assert !Rejected(c, p.id, ids, polys, inbox) && ProofsSound(c, p.id, ids, polys, inbox);
  }
}
