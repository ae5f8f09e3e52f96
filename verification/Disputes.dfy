/**
  The verifiable part of the key generation: checking received shares against the dealers'
  commitments, and settling complaints.

  The channel keys are Diffie-Hellman keys: a party with secret sk and a partner with public key pk
  share pk * sk. The cipher, the channel signatures and the challenge hash are uninterpreted.
*/
module Disputes {
  import opened Field
  import opened Polynomial
  import opened Dleq
  import opened Collections

  datatype Outcome<T> = Value(value: T) | Panic

  /** `decrypt(key, text)` is none when authentication fails; `goodSig(pk, text, sig)`; h is the second generator. */
  datatype Crypto = Crypto(q: int, h: int, hash: Hash, decrypt: (int, int) -> Option<int>,
                           goodSig: (int, int, int) -> bool)

  datatype Payload = Payload(encShare: int, sig: int, commitments: seq<int>)
  datatype Claim = Claim(issuer: int, accused: int, encShare: int, key: int, sig: int, commitments: seq<int>,
                         proof: Proof)

  /** `SecureNetIOCommittee`: one channel per other party, holding that party's public key. */
  datatype Party = Party(id: int, sk: int, pks: map<int, int>) {
    /** The partner key of `channel(self, other)`; there is no channel to oneself or to a stranger. */
    function Partner(other: int): Option<int> {
      if other == id || other !in pks then None else Some(pks[other])
    }
  }

  // ------------------------------------------------------------------ share verification

  predicate ShareMatches(c: Crypto, commitments: seq<int>, share: int, x: int)
    requires 0 < c.q
  {
    (c.h * share) % c.q == Eval(commitments, x) % c.q
  }

  function DecryptWith(c: Crypto, key: int, text: int): Outcome<int>
    requires 0 < c.q
  {
    match c.decrypt(key, text)
    case None => Panic
    case Some(s) => Value(s % c.q)
  }

  /** Decrypting a share sent by `dealer` over the channel to `p`. */
  function OpenShare(c: Crypto, p: Party, dealer: int, payload: Payload): Outcome<int>
    requires 0 < c.q
  {
    match p.Partner(dealer)
    case None => Panic
    case Some(pk) => DecryptWith(c, (pk * p.sk) % c.q, payload.encShare)
  }

  function CheckShare(c: Crypto, p: Party, dealer: int, payload: Payload): Outcome<bool>
    requires 0 < c.q
  {
    match OpenShare(c, p, dealer, payload)
    case Panic => Panic
    case Value(s) => if payload.commitments == [] then Panic else Value(ShareMatches(c, payload.commitments, s, p.id))
  }

  /** `share_verification`: the received map is walked in an unspecified order. */
  method ShareVerification(c: Crypto, p: Party, shares: map<int, Payload>) returns (r: Outcome<map<int, bool>>)
    requires 0 < c.q
    requires forall id :: id in shares ==> InField(shares[id].commitments, c.q)
    ensures r.Value? <==> forall id :: id in shares && id != p.id ==> CheckShare(c, p, id, shares[id]).Value?
    ensures r.Value? ==>
      && r.value.Keys == shares.Keys - {p.id}
      && forall id :: id in r.value ==> Value(r.value[id]) == CheckShare(c, p, id, shares[id])
  {
    var results: map<int, bool> := map[];
    var todo := shares.Keys;
    while todo != {}
      invariant todo <= shares.Keys && results.Keys == shares.Keys - todo - {p.id}
      invariant forall id :: id in results ==> Value(results[id]) == CheckShare(c, p, id, shares[id])
    {
      Inhabited(todo);
      var id :| id in todo;
      todo := todo - {id};
      if id == p.id {
        continue;
      }
      var share := OpenShare(c, p, id, shares[id]);
      if share.Panic? || shares[id].commitments == [] {
        return Panic;
      }
      var y := (c.h * share.value) % c.q;
      var y' := CommittedEval(shares[id].commitments, p.id, c.q);
      results := results[id := y == y'];
    }
    return Value(results);
  }

  // ------------------------------------------------------------------ dispute claims

  /** `issude_dispute_claim`; the prover's input check is none when the statement is false. */
  function IssueClaim(c: Crypto, p: Party, accused: int, payload: Payload, w: int): Outcome<Option<Claim>>
    requires 0 < c.q
  {
    match p.Partner(accused)
    case None => Panic
    case Some(pk) =>
      var key := (pk * p.sk) % c.q;
      match DleqProve(1, p.sk % c.q, pk, key, p.sk, w, c.hash, c.q)
      case InvalidInput => Value(None)
      case Proved(proof) =>
        Value(Some(Claim(p.id, accused, payload.encShare, key, payload.sig, payload.commitments, proof)))
  }

  /** `verify_dispute_claim` */
  function VerifyClaim(c: Crypto, p: Party, claim: Claim): Outcome<bool>
    requires 0 < c.q
  {
    match (p.Partner(claim.issuer), p.Partner(claim.accused))
    case (None, _) => Panic
    case (_, None) => Panic
    case (Some(pkJ), Some(pkI)) =>
      if !c.goodSig(pkI, claim.encShare, claim.sig) then Value(false)
      else if !DleqVerify(1, pkJ, pkI, claim.key, claim.proof, c.hash, c.q) then Value(false)
      else match DecryptWith(c, claim.key, claim.encShare)
        case Panic => Panic
        case Value(s) =>
          if claim.commitments == [] then Panic
          else Value(!ShareMatches(c, claim.commitments, s, claim.issuer))
  }

  /** Everybody holds everybody else's channel key. */
  ghost predicate Committee(c: Crypto, parties: map<int, Party>) {
    && 0 < c.q
    && forall i :: i in parties ==>
        && parties[i].id == i && 0 <= parties[i].sk < c.q && parties[i].pks.Keys == parties.Keys - {i}
        && forall j :: j in parties && j != i ==> parties[i].pks[j] == parties[j].sk
  }

  function KeyOf(parties: map<int, Party>, i: int): int
    requires i in parties
  {
    parties[i].sk
  }

  /** What a claim of j about dealer i looks like: it names the payload and proves its key. */
  ghost predicate ClaimFor(c: Crypto, parties: map<int, Party>, j: int, i: int, payload: Payload, claim: Claim)
    requires 0 < c.q && j in parties && i in parties
  {
    && claim.issuer == j && claim.accused == i
    && claim.encShare == payload.encShare && claim.sig == payload.sig && claim.commitments == payload.commitments
    && claim.key == (KeyOf(parties, i) * KeyOf(parties, j)) % c.q
    && DleqVerify(1, KeyOf(parties, j), KeyOf(parties, i), claim.key, claim.proof, c.hash, c.q)
  }

  lemma ClaimIsIssued(c: Crypto, parties: map<int, Party>, j: int, i: int, payload: Payload, w: int)
    returns (claim: Claim)
    requires Committee(c, parties) && j in parties && i in parties && i != j
    ensures IssueClaim(c, parties[j], i, payload, w) == Value(Some(claim))
    ensures ClaimFor(c, parties, j, i, payload, claim)
  {
    ModSmall(parties[j].sk, c.q);
    Completeness(1, parties[j].sk, parties[i].sk, (parties[i].sk * parties[j].sk) % c.q, parties[j].sk, w, c.hash, c.q);
    claim := IssueClaim(c, parties[j], i, payload, w).value.value;
  }

  /**
    A claim is accepted by every third party exactly when the dealer's signature is good and the
    issuer's own check of that payload failed. The issuer and the accused cannot judge it at all.
  */
  lemma ClaimJudgedAsByIssuer(c: Crypto, parties: map<int, Party>, j: int, i: int, k: int, payload: Payload, w: int)
    returns (claim: Claim)
    requires Committee(c, parties) && j in parties && i in parties && k in parties && i != j
    requires CheckShare(c, parties[j], i, payload).Value?
    ensures IssueClaim(c, parties[j], i, payload, w) == Value(Some(claim))
    ensures VerifyClaim(c, parties[k], claim) ==
      if k == i || k == j then Panic
      else Value(c.goodSig(KeyOf(parties, i), payload.encShare, payload.sig) &&
        !CheckShare(c, parties[j], i, payload).value)
  {
    claim := ClaimIsIssued(c, parties, j, i, payload, w);
  }

  /** A claim of j about the share in the payload that dealer i signed, with commitments of j's choice. */
  ghost predicate ClaimOfShare(c: Crypto, parties: map<int, Party>, j: int, i: int, payload: Payload, claim: Claim)
    requires i in parties
  {
    && claim.issuer == j && claim.accused == i && claim.encShare == payload.encShare && claim.sig == payload.sig
    && c.goodSig(KeyOf(parties, i), payload.encShare, payload.sig) && claim.commitments != []
  }

  ghost predicate KeyProved(c: Crypto, parties: map<int, Party>, claim: Claim)
    requires 0 < c.q && claim.issuer in parties && claim.accused in parties
  {
    DleqVerify(1, KeyOf(parties, claim.issuer), KeyOf(parties, claim.accused), claim.key, claim.proof, c.hash, c.q)
  }

  ghost predicate KeySound(c: Crypto, parties: map<int, Party>, claim: Claim)
    requires 0 < c.q && claim.issuer in parties && claim.accused in parties
  {
    SameExponent(1, KeyOf(parties, claim.issuer), KeyOf(parties, claim.accused), claim.key, c.q)
  }

  lemma SoundKeyIsChannelKey(c: Crypto, parties: map<int, Party>, claim: Claim)
    requires Committee(c, parties) && claim.issuer in parties && claim.accused in parties && KeySound(c, parties, claim)
    ensures claim.key == (KeyOf(parties, claim.accused) * KeyOf(parties, claim.issuer)) % c.q
  {
    var x1, y1, x2 := 1, KeyOf(parties, claim.issuer), KeyOf(parties, claim.accused);
    var alpha :| CommonExponent(x1, y1, x2, claim.key, alpha, c.q);
    ModSmall(alpha, c.q);
  }

  /**
    The dealer's signature covers the share and not the commitments. So third parties accept a claim about a signed
    share exactly if the share misses the commitments in the claim; never if these are the ones it matches.
  */
  lemma ClaimJudgedByItsCommitments(c: Crypto, parties: map<int, Party>, j: int, i: int, k: int, payload: Payload,
                                    claim: Claim)
    requires Committee(c, parties) && j in parties && i in parties && k in parties && i != j && k != i && k != j
    requires ClaimOfShare(c, parties, j, i, payload, claim) && OpenShare(c, parties[j], i, payload).Value?
    requires KeyProved(c, parties, claim) ==> KeySound(c, parties, claim)
    ensures VerifyClaim(c, parties[k], claim) ==
      Value(KeyProved(c, parties, claim) &&
        !ShareMatches(c, claim.commitments, OpenShare(c, parties[j], i, payload).value, j))
    ensures claim.commitments == payload.commitments && CheckShare(c, parties[j], i, payload) == Value(true) ==>
      VerifyClaim(c, parties[k], claim) == Value(false)
  {
    if KeyProved(c, parties, claim) {
      SoundKeyIsChannelKey(c, parties, claim);
    }
  }

  /** Hence every signed share, a good one too, has a claim that all third parties accept. */
  lemma EverySignedShareCanBeDisputed(c: Crypto, parties: map<int, Party>, j: int, i: int, payload: Payload, w: int)
    returns (claim: Claim)
    requires Committee(c, parties) && j in parties && i in parties && i != j && 1 < c.q
    requires c.goodSig(KeyOf(parties, i), payload.encShare, payload.sig) && OpenShare(c, parties[j], i, payload).Value?
    ensures ClaimOfShare(c, parties, j, i, payload, claim)
    ensures forall k :: k in parties && k != i && k != j ==> VerifyClaim(c, parties[k], claim) == Value(true)
  {
    var y := (c.h * OpenShare(c, parties[j], i, payload).value) % c.q;
    var other := if y == 0 then 1 else 0;
    assert Eval([other], j) == other + j * Eval([], j);
    ModSmall(other, c.q);
    claim := ClaimIsIssued(c, parties, j, i, payload.(commitments := [other]), w);
  }

  // ------------------------------------------------------------------ the dispute phase of a run

  /** The pairs of an invalid share are the complaining party and the party it complains about. */
  datatype Verdict =
    | Continue
    | InvalidDkgShare(pairs: seq<(int, int)>)
    | VssShareVerificationFailed
    | Panicked

  /** What the others report: results[j][i] is false where party j complains about dealer i. */
  ghost predicate Complains(results: map<int, map<int, bool>>, j: int, i: int) {
    j in results && i in results[j] && !results[j][i]
  }

  /** claims[(j, i)] is what is received from j in the place of its complaint about i. */
  ghost predicate Accepts(c: Crypto, p: Party, results: map<int, map<int, bool>>, claims: map<(int, int), Claim>,
                          j: int, i: int)
    requires 0 < c.q
  {
    Complains(results, j, i) && (j, i) in claims && VerifyClaim(c, p, claims[(j, i)]) == Value(true)
  }

  ghost predicate SomePanic(c: Crypto, p: Party, results: map<int, map<int, bool>>, claims: map<(int, int), Claim>)
    requires 0 < c.q
  {
    exists j, i :: Complains(results, j, i) && (j, i) in claims && VerifyClaim(c, p, claims[(j, i)]).Panic?
  }

  ghost predicate SomeValid(c: Crypto, p: Party, results: map<int, map<int, bool>>, claims: map<(int, int), Claim>)
    requires 0 < c.q
  {
    exists j, i :: Accepts(c, p, results, claims, j, i)
  }

  ghost predicate NoRepeats(pairs: seq<(int, int)>) {
    forall a, b :: 0 <= a < b < |pairs| ==> pairs[a] != pairs[b]
  }

  /** The list names exactly the accepted claims, once each, by the place in which they arrived. */
  ghost predicate ListsAccepted(c: Crypto, p: Party, results: map<int, map<int, bool>>, claims: map<(int, int), Claim>,
                                pairs: seq<(int, int)>)
    requires 0 < c.q
  {
    NoRepeats(pairs) && forall j, i :: (j, i) in pairs <==> Accepts(c, p, results, claims, j, i)
  }

  /** The claims of j that are accepted, among those about the dealers outside `todo`. */
  ghost predicate AcceptedOf(c: Crypto, p: Party, j: int, result: map<int, bool>, claims: map<(int, int), Claim>,
                             todo: set<int>, pairs: seq<(int, int)>)
    requires 0 < c.q
  {
    && NoRepeats(pairs)
    && forall a, i :: (a, i) in pairs <==>
        && a == j && i in result && !result[i] && i !in todo && (j, i) in claims
        && VerifyClaim(c, p, claims[(j, i)]) == Value(true)
  }

  method JudgeClaimsOf(c: Crypto, p: Party, j: int, result: map<int, bool>, claims: map<(int, int), Claim>)
    returns (r: Outcome<seq<(int, int)>>)
    requires 0 < c.q
    requires forall i :: i in result && !result[i] ==> (j, i) in claims
    ensures r.Panic? <==>
      exists i :: i in result && !result[i] && (j, i) in claims && VerifyClaim(c, p, claims[(j, i)]).Panic?
    ensures r.Value? ==> AcceptedOf(c, p, j, result, claims, {}, r.value)
  {
    var pairs: seq<(int, int)> := [];
    var todo := result.Keys;
    while todo != {}
      invariant todo <= result.Keys
      invariant forall i :: i in result && !result[i] && i !in todo ==>
        (j, i) in claims && VerifyClaim(c, p, claims[(j, i)]).Value?
      invariant AcceptedOf(c, p, j, result, claims, todo, pairs)
    {
      Inhabited(todo);
      var i :| i in todo;
      if !result[i] {
        var verdict := VerifyClaim(c, p, claims[(j, i)]);
        if verdict.Panic? {
          return Panic;
        }
        assert (j, i) !in pairs;
        pairs := if verdict.value then pairs + [(j, i)] else pairs;
      }
      todo := todo - {i};
    }
    return Value(pairs);
  }

  /** The accepted claims of the parties outside `others`. */
  ghost predicate AcceptedSoFar(c: Crypto, p: Party, results: map<int, map<int, bool>>, claims: map<(int, int), Claim>,
                                others: set<int>, pairs: seq<(int, int)>)
    requires 0 < c.q
  {
    NoRepeats(pairs) && forall j, i :: (j, i) in pairs <==> j !in others && Accepts(c, p, results, claims, j, i)
  }

  lemma AppendAccepted(c: Crypto, p: Party, results: map<int, map<int, bool>>, claims: map<(int, int), Claim>,
                       others: set<int>, pairs: seq<(int, int)>, j: int, more: seq<(int, int)>)
    requires 0 < c.q && AcceptedSoFar(c, p, results, claims, others, pairs) && j in others && j in results
    requires AcceptedOf(c, p, j, results[j], claims, {}, more)
    ensures AcceptedSoFar(c, p, results, claims, others - {j}, pairs + more)
  {
    forall a, b | 0 <= a < |pairs| && 0 <= b < |more| ensures pairs[a] != more[b] {
      var (x, y) := more[b];
      assert (x, y) in more && (x, y) !in pairs;
    }
    forall x, y ensures (x, y) in pairs + more <==> x !in others - {j} && Accepts(c, p, results, claims, x, y) {
      assert (x, y) in pairs + more <==> (x, y) in pairs || (x, y) in more;
    }
  }

  /** Whether the party itself has to complain. */
  method Complaining(own: map<int, bool>) returns (b: bool)
    ensures b <==> exists id :: id in own && !own[id]
  {
    b := false;
    var mine := own.Keys;
    while mine != {}
      invariant mine <= own.Keys
      invariant b <==> exists id :: id in own && id !in mine && !own[id]
    {
      Inhabited(mine);
      var id :| id in mine;
      mine := mine - {id};
      b := b || !own[id];
    }
  }

  /** All claims of the others, judged one after the other. */
  method JudgeClaims(c: Crypto, p: Party, results: map<int, map<int, bool>>, claims: map<(int, int), Claim>)
    returns (r: Outcome<seq<(int, int)>>)
    requires 0 < c.q && forall j, i :: Complains(results, j, i) ==> (j, i) in claims
    ensures r.Panic? <==> SomePanic(c, p, results, claims)
    ensures r.Value? ==> ListsAccepted(c, p, results, claims, r.value)
  {
    var pairs: seq<(int, int)> := [];
    var others := results.Keys;
    while others != {}
      invariant others <= results.Keys
      invariant forall j, i :: Complains(results, j, i) && j !in others ==>
        (j, i) in claims && VerifyClaim(c, p, claims[(j, i)]).Value?
      invariant AcceptedSoFar(c, p, results, claims, others, pairs)
    {
      Inhabited(others);
      var j :| j in others;
      assert forall i :: i in results[j] && !results[j][i] ==> Complains(results, j, i);
      var judged := JudgeClaimsOf(c, p, j, results[j], claims);
      if judged.Panic? {
        var i :| i in results[j] && !results[j][i] && (j, i) in claims && VerifyClaim(c, p, claims[(j, i)]).Panic?;
        assert Complains(results, j, i);
        return Panic;
      }
      AppendAccepted(c, p, results, claims, others, pairs, j, judged.value);
      pairs := pairs + judged.value;
      others := others - {j};
    }
    return Value(pairs);
  }

  /** The part of `run` between the exchange of results and the derivation of keys. */
  method DisputePhase(c: Crypto, p: Party, own: map<int, bool>, results: map<int, map<int, bool>>,
                      claims: map<(int, int), Claim>)
    returns (v: Verdict)
    requires 0 < c.q
    requires forall j, i :: Complains(results, j, i) ==> (j, i) in claims  // the receives have completed
    ensures v.Panicked? <==> SomePanic(c, p, results, claims)
    ensures !v.Panicked? ==> (v.InvalidDkgShare? <==> SomeValid(c, p, results, claims))
    ensures v.InvalidDkgShare? ==> ListsAccepted(c, p, results, claims, v.pairs)
    ensures v.Continue? <==>
      !SomePanic(c, p, results, claims) && !SomeValid(c, p, results, claims) && forall id :: id in own ==> own[id]
    ensures v.VssShareVerificationFailed? ==> exists id :: id in own && !own[id]
  {
    var selfAbort := Complaining(own);
    var judged := JudgeClaims(c, p, results, claims);
    if judged.Panic? {
      return Panicked;
    }
    if |judged.value| > 0 {
      var (j, i) := judged.value[0];
      assert (j, i) in judged.value;
      return InvalidDkgShare(judged.value);
    }
    return if selfAbort then VssShareVerificationFailed else Continue;
  }
}
