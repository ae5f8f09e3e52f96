/**
  The dispute phase among parties that issue a proper claim for each of their complaints, for arbitrary dealers:
  who stops, and whom the error names. A party broadcasts its claims in the order of its own map, and they are
  received, over one channel, in the order of the receiver's map; so the place of the claim about one dealer may
  hold the claim about another one.
*/
module Complaints {
  import opened Polynomial
  import opened Dleq
  import opened Disputes
  import opened Collections

  /**
    The phase as party k sees it. told[(j, i)] is the dealer whose claim arrives in the place (j, i), and w
    gives the random choices.
  */
  datatype Dispute = Dispute(c: Crypto, parties: map<int, Party>, sent: map<(int, int), Payload>, k: int,
                             own: map<int, bool>, results: map<int, map<int, bool>>,
                             claims: map<(int, int), Claim>, told: map<(int, int), int>, w: (int, int) -> int)

  // ------------------------------------------------------------------ what happened

  /** Dealer i's payload for party j does not pass j's check. */
  ghost predicate BadShare(d: Dispute, i: int, j: int)
    requires 0 < d.c.q
  {
    && i in d.parties && j in d.parties && i != j && (i, j) in d.sent
    && CheckShare(d.c, d.parties[j], i, d.sent[(i, j)]) == Value(false)
  }

  ghost predicate Signed(d: Dispute, i: int, j: int)
    requires i in d.parties && (i, j) in d.sent
  {
    d.c.goodSig(KeyOf(d.parties, i), d.sent[(i, j)].encShare, d.sent[(i, j)].sig)
  }

  /** A share that j can prove to be bad. */
  ghost predicate ProvablyBad(d: Dispute, i: int, j: int)
    requires 0 < d.c.q
  {
    BadShare(d, i, j) && Signed(d, i, j)
  }

  ghost predicate Complained(d: Dispute, j: int, i: int) {
    Complains(d.results, j, i)
  }

  /** Every payload was received and could be read, and everybody reported about everybody else. */
  ghost predicate Shaped(d: Dispute) {
    && Committee(d.c, d.parties) && d.k in d.parties
    && (forall i, j :: i in d.parties && j in d.parties && i != j ==>
        (i, j) in d.sent && CheckShare(d.c, d.parties[j], i, d.sent[(i, j)]).Value?)
    && d.own.Keys == d.parties.Keys - {d.k} && d.results.Keys == d.parties.Keys - {d.k}
    && forall j :: j in d.results ==> d.results[j].Keys == d.parties.Keys - {j}
  }

  /** The place (j, i) holds j's claim about dealer x. */
  ghost predicate InPlace(d: Dispute, j: int, i: int, x: int) {
    Complained(d, j, i) && (j, i) in d.told && d.told[(j, i)] == x
  }

  ghost predicate HasPlace(d: Dispute, x: int, j: int) {
    exists i :: InPlace(d, j, i, x)
  }

  ghost function ClaimAbout(d: Dispute, j: int, x: int): Outcome<Option<Claim>>
    requires 0 < d.c.q && j in d.parties && (x, j) in d.sent
  {
    IssueClaim(d.c, d.parties[j], x, d.sent[(x, j)], d.w(j, x))
  }

  /** The place (j, i) holds a proper claim of j about a dealer that j complains about. */
  ghost predicate Holds(d: Dispute, j: int, i: int)
    requires Shaped(d)
  {
    && (j, i) in d.told && (j, i) in d.claims && Complained(d, j, d.told[(j, i)])
    && Value(Some(d.claims[(j, i)])) == ClaimAbout(d, j, d.told[(j, i)])
  }

  /** Each place of j holds one of j's claims, and each of j's claims is in a place. */
  ghost predicate Claimed(d: Dispute) {
    && Shaped(d)
    && (forall j, i {:trigger Holds(d, j, i)} :: Complained(d, j, i) ==> Holds(d, j, i))
    && forall x, j {:trigger HasPlace(d, x, j)} :: Complained(d, j, x) ==> HasPlace(d, x, j)
  }

  /** Moreover, everybody reports what its own checks gave. */
  ghost predicate Truthful(d: Dispute) {
    && Claimed(d)
    && (forall i :: i in d.own ==> (!d.own[i] <==> BadShare(d, i, d.k)))
    && forall j, i :: j in d.parties && j != d.k ==> (Complained(d, j, i) <==> BadShare(d, i, j))
  }

  // ------------------------------------------------------------------ who stops

  ghost predicate Panics(d: Dispute)
    requires 0 < d.c.q && d.k in d.parties
  {
    SomePanic(d.c, d.parties[d.k], d.results, d.claims)
  }

  ghost predicate AcceptsAt(d: Dispute, j: int, i: int)
    requires 0 < d.c.q && d.k in d.parties
  {
    Accepts(d.c, d.parties[d.k], d.results, d.claims, j, i)
  }

  ghost predicate AcceptsSome(d: Dispute)
    requires 0 < d.c.q && d.k in d.parties
  {
    SomeValid(d.c, d.parties[d.k], d.results, d.claims)
  }

  lemma PlaceJudged(d: Dispute, j: int, i: int)
    requires Claimed(d) && Complained(d, j, i)
    ensures (j, i) in d.told && (j, i) in d.claims && j != d.k && Complained(d, j, d.told[(j, i)])
    ensures VerifyClaim(d.c, d.parties[d.k], d.claims[(j, i)]) ==
      if d.told[(j, i)] == d.k then Panic else Value(ProvablyBad(d, d.told[(j, i)], j))
  {
    assert Holds(d, j, i);
    var x := d.told[(j, i)];
    var claim := ClaimJudgedAsByIssuer(d.c, d.parties, j, x, d.k, d.sent[(x, j)], d.w(j, x));
  }

  lemma ComplaintHasPlace(d: Dispute, j: int, x: int) returns (i: int)
    requires Claimed(d) && Complained(d, j, x)
    ensures InPlace(d, j, i, x)
  {
    assert HasPlace(d, x, j);
    i :| InPlace(d, j, i, x);
  }

  /** A party fails to judge exactly when somebody complains about it. */
  lemma PanicsIffComplained(d: Dispute)
    requires Claimed(d)
    ensures Panics(d) <==> exists j :: Complained(d, j, d.k)
  {
    if Panics(d) {
      var j, i :| Complains(d.results, j, i) && (j, i) in d.claims
        && VerifyClaim(d.c, d.parties[d.k], d.claims[(j, i)]).Panic?;
      assert Complained(d, j, i);
      PlaceJudged(d, j, i);
      assert Complained(d, j, d.k);
    }
    if j :| Complained(d, j, d.k) {
      var i := ComplaintHasPlace(d, j, d.k);
      PlaceJudged(d, j, i);
    }
  }

  /** The verdict of party k, exactly: it panics when it dealt a bad share. */
  lemma PanicsIffAccused(d: Dispute)
    requires Truthful(d)
    ensures Panics(d) <==> exists j :: BadShare(d, d.k, j)
  {
    PanicsIffComplained(d);
    if j :| Complained(d, j, d.k) {
      assert BadShare(d, d.k, j);
    }
    if j :| BadShare(d, d.k, j) {
      assert Complained(d, j, d.k);
    }
  }

  /**
    The error names the place of an accepted claim, and a claim is accepted if the dealer that it is about, who need
    not be the one named by its place, signed a bad share.
  */
  lemma ReportedIff(d: Dispute, j: int, i: int)
    requires Claimed(d)
    ensures AcceptsAt(d, j, i) <==>
      Complained(d, j, i) && (j, i) in d.told && d.told[(j, i)] != d.k && ProvablyBad(d, d.told[(j, i)], j)
  {
    if Complained(d, j, i) {
      PlaceJudged(d, j, i);
    }
  }

  lemma ProvenIsAccepted(d: Dispute, x: int, j: int) returns (i: int)
    requires Claimed(d) && Complained(d, j, x) && ProvablyBad(d, x, j) && x != d.k
    ensures AcceptsAt(d, j, i)
  {
    i := ComplaintHasPlace(d, j, x);
    ReportedIff(d, j, i);
  }

  /** It accepts a claim exactly when some other dealer's properly signed share to a third party is bad. */
  lemma AcceptsIffSignedBadShare(d: Dispute)
    requires Truthful(d)
    ensures AcceptsSome(d) <==> exists i, j :: ProvablyBad(d, i, j) && i != d.k && j != d.k
  {
    if AcceptsSome(d) {
      var j, i :| Accepts(d.c, d.parties[d.k], d.results, d.claims, j, i);
      ReportedIff(d, j, i);
      assert ProvablyBad(d, d.told[(j, i)], j) && j != d.k;
    }
    if x, j :| ProvablyBad(d, x, j) && x != d.k && j != d.k {
      assert Complained(d, j, x);
      var i := ProvenIsAccepted(d, x, j);
    }
  }

  /** Its own complaints are the bad shares it received. */
  lemma ComplainsIffBadShare(d: Dispute)
    requires Shaped(d) && forall i :: i in d.own ==> (!d.own[i] <==> BadShare(d, i, d.k))
    ensures (exists i :: i in d.own && !d.own[i]) <==> exists i :: BadShare(d, i, d.k)
  {
    if i :| BadShare(d, i, d.k) {
      assert i in d.own;
    }
    if i :| i in d.own && !d.own[i] {
      assert BadShare(d, i, d.k);
    }
  }

  /** With good dealer signatures a bad share anywhere stops everybody, and without one nobody stops. */
  lemma AllStopOrNoneStops(d: Dispute)
    requires Truthful(d) && forall i, j :: BadShare(d, i, j) ==> Signed(d, i, j)
    ensures (Panics(d) || AcceptsSome(d) || exists i :: i in d.own && !d.own[i]) <==> exists i, j :: BadShare(d, i, j)
  {
    PanicsIffAccused(d);
    AcceptsIffSignedBadShare(d);
    ComplainsIffBadShare(d);
    if i, j :| BadShare(d, i, j) {
      if j == d.k {
        assert BadShare(d, i, d.k);
      } else if i == d.k {
        assert BadShare(d, d.k, j);
      } else {
        assert ProvablyBad(d, i, j);
      }
    }
  }

  // ------------------------------------------------------------------ claims in other places

  /** The same phase, with the claims in other places. */
  ghost predicate Reordered(d: Dispute, e: Dispute) {
    Claimed(e) && e == d.(claims := e.claims, told := e.told)
  }

  /** The claim of j about x, and anything where there is none. */
  ghost function Filed(d: Dispute, j: int, x: int): Claim
    requires 0 < d.c.q
  {
    var none := Claim(0, 0, 0, 0, 0, [], Proof(0, 0));
    if j in d.parties && (x, j) in d.sent then
      match ClaimAbout(d, j, x)
      case Panic => none
      case Value(claim) => if claim.Some? then claim.value else none
    else none
  }

  lemma FiledIsClaim(d: Dispute, j: int, x: int)
    requires Shaped(d) && Complained(d, j, x)
    ensures Value(Some(Filed(d, j, x))) == ClaimAbout(d, j, x)
  {
    var claim := ClaimIsIssued(d.c, d.parties, j, x, d.sent[(x, j)], d.w(j, x));
  }

  /** The claims of j about x and y exchange their places, every other claim is in its own. */
  ghost function Exchanged(j: int, x: int, y: int, p: (int, int)): int {
    if p == (j, y) then x else if p == (j, x) then y else p.1
  }

  ghost function Places(d: Dispute): (s: set<(int, int)>)
    ensures forall j, i :: (j, i) in s <==> Complained(d, j, i)
  {
    set j, i | j in d.results && i in d.results[j] && !d.results[j][i] :: (j, i)
  }

  ghost function Exchange(d: Dispute, j: int, x: int, y: int): Dispute
    requires 0 < d.c.q
  {
    d.(claims := map p | p in Places(d) :: Filed(d, p.0, Exchanged(j, x, y, p)),
       told := map p | p in Places(d) :: Exchanged(j, x, y, p))
  }

  lemma ExchangedClaim(d: Dispute, j: int, x: int, y: int, a: int, b: int)
    requires Shaped(d) && Shaped(Exchange(d, j, x, y)) && Complained(d, j, x) && Complained(d, j, y) &&
      Complained(d, a, b)
    ensures Holds(Exchange(d, j, x, y), a, b)
  {
    var e, z := Exchange(d, j, x, y), Exchanged(j, x, y, (a, b));
    assert (a, b) in Places(d) && Complained(d, a, z);
    FiledIsClaim(d, a, z);
    assert ClaimAbout(e, a, z) == ClaimAbout(d, a, z);
  }

  lemma ExchangedPlace(d: Dispute, j: int, x: int, y: int, z: int, a: int)
    requires Shaped(d) && Complained(d, j, x) && Complained(d, j, y) && Complained(d, a, z)
    ensures HasPlace(Exchange(d, j, x, y), z, a)
  {
    var e, b := Exchange(d, j, x, y), Exchanged(j, x, y, (a, z));
    assert (a, b) in Places(d);
    assert InPlace(e, a, b, z);
  }

  lemma ExchangeIsReordered(d: Dispute, j: int, x: int, y: int)
    requires Shaped(d) && Complained(d, j, x) && Complained(d, j, y)
    ensures Reordered(d, Exchange(d, j, x, y))
  {
    var e := Exchange(d, j, x, y);
    assert Shaped(e);
    forall a, b | Complained(e, a, b) ensures Holds(e, a, b) {
      assert Complained(d, a, b);
      ExchangedClaim(d, j, x, y, a, b);
    }
    forall z, a | Complained(e, a, z) ensures HasPlace(e, z, a) {
      assert Complained(d, a, z);
      ExchangedPlace(d, j, x, y, z, a);
    }
  }

  // ------------------------------------------------------------------ whom the error names

  /** If j's claim about x is valid, the order of the claims can put it into any place of j. */
  lemma AnyPlaceCanBeNamed(d: Dispute, j: int, x: int, y: int) returns (e: Dispute)
    requires Shaped(d) && Complained(d, j, x) && Complained(d, j, y) && ProvablyBad(d, x, j) && x != d.k
    ensures Reordered(d, e) && AcceptsAt(e, j, y)
  {
    e := Exchange(d, j, x, y);
    ExchangeIsReordered(d, j, x, y);
    assert (j, y) in Places(d) && e.told[(j, y)] == x && ProvablyBad(e, x, j);
    ReportedIff(e, j, y);
  }

  ghost predicate NamesOnlyBad(d: Dispute)
    requires 0 < d.c.q && d.k in d.parties
  {
    forall j, i :: AcceptsAt(d, j, i) ==> BadShare(d, i, j)
  }

  /** A party with a valid claim complains about bad shares only. */
  ghost predicate NoFalseCompany(d: Dispute)
    requires 0 < d.c.q
  {
    forall j, x, y :: Complained(d, j, x) && Complained(d, j, y) && ProvablyBad(d, x, j) && x != d.k ==>
      BadShare(d, y, j)
  }

  lemma ReorderedFacts(d: Dispute, e: Dispute, i: int, j: int)
    requires 0 < d.c.q && e == d.(claims := e.claims, told := e.told)
    ensures BadShare(e, i, j) <==> BadShare(d, i, j)
    ensures ProvablyBad(e, i, j) <==> ProvablyBad(d, i, j)
  {
  }

  lemma NamedIsBad(d: Dispute, e: Dispute, j: int, i: int)
    requires Shaped(d) && NoFalseCompany(d) && Reordered(d, e) && AcceptsAt(e, j, i)
    ensures BadShare(e, i, j)
  {
    ReportedIff(e, j, i);
    PlaceJudged(e, j, i);
    var x := e.told[(j, i)];
    assert Complained(d, j, x) && Complained(d, j, i);
    ReorderedFacts(d, e, x, j);
    ReorderedFacts(d, e, i, j);
  }

  /**
    Whatever the order of the claims, the error names only pairs (j, i) such that i dealt j a bad share, if and only
    if a party with a valid claim makes no false complaint beside it.
  */
  lemma NamesOnlyBadIff(d: Dispute)
    requires Shaped(d)
    ensures (forall e :: Reordered(d, e) ==> NamesOnlyBad(e)) <==> NoFalseCompany(d)
  {
    if NoFalseCompany(d) {
      forall e, j, i | Reordered(d, e) && AcceptsAt(e, j, i) ensures BadShare(e, i, j) {
        NamedIsBad(d, e, j, i);
      }
    } else {
      var j, x, y :| Complained(d, j, x) && Complained(d, j, y) && ProvablyBad(d, x, j) && x != d.k &&
        !BadShare(d, y, j);
      var e := AnyPlaceCanBeNamed(d, j, x, y);
      ReorderedFacts(d, e, y, j);
    }
  }

  /** The error names exactly the complaints that are proved. */
  ghost predicate NamesTheProven(d: Dispute)
    requires 0 < d.c.q && d.k in d.parties
  {
    forall j, i :: AcceptsAt(d, j, i) <==> Complained(d, j, i) && ProvablyBad(d, i, j)
  }

  /** A party with a valid claim has only valid claims. */
  ghost predicate AllOrNone(d: Dispute)
    requires 0 < d.c.q
  {
    forall j, x, y :: Complained(d, j, x) && Complained(d, j, y) && ProvablyBad(d, x, j) ==> ProvablyBad(d, y, j)
  }

  lemma NamedIsProven(d: Dispute, e: Dispute, j: int, i: int)
    requires Claimed(d) && !Panics(d) && AllOrNone(d) && Reordered(d, e)
    ensures AcceptsAt(e, j, i) <==> Complained(e, j, i) && ProvablyBad(e, i, j)
  {
    ReportedIff(e, j, i);
    if Complained(e, j, i) {
      PanicsIffComplained(d);
      PlaceJudged(e, j, i);
      var x := e.told[(j, i)];
      assert Complained(d, j, x) && Complained(d, j, i);
      ReorderedFacts(d, e, x, j);
      ReorderedFacts(d, e, i, j);
    }
  }

  /**
    Whatever the order of the claims, a party that is not accused itself names exactly the complaints that are
    proved, if and only if every other party has only valid claims or none.
  */
  lemma NamesTheProvenIff(d: Dispute)
    requires Claimed(d) && !Panics(d)
    ensures (forall e :: Reordered(d, e) ==> NamesTheProven(e)) <==> AllOrNone(d)
  {
    if AllOrNone(d) {
      forall e, j, i | Reordered(d, e) ensures AcceptsAt(e, j, i) <==> Complained(e, j, i) && ProvablyBad(e, i, j) {
        NamedIsProven(d, e, j, i);
      }
    } else {
      var j, x, y :| Complained(d, j, x) && Complained(d, j, y) && ProvablyBad(d, x, j) && !ProvablyBad(d, y, j);
      PanicsIffComplained(d);
      var e := AnyPlaceCanBeNamed(d, j, x, y);
      ReorderedFacts(d, e, y, j);
    }
  }

  // ------------------------------------------------------------------ two complaints of one party

  ghost const FOUR: set<int> := {1, 2, 3, 4}

  /** Everybody has the channel key 1, the cipher is the identity, and the good signature is 1. */
  ghost function PlainCrypto(): Crypto {
    Crypto(7, 2, (x1, y1, x2, y2, t1, t2) => 0, (key, text) => Some(text), (pk, text, sig) => sig == 1)
  }

  ghost function Member(i: int): Party {
    Party(i, 1, map k | k in FOUR && k != i :: 1)
  }

  /**
    All dealers commit to the constant 1. Dealer 2 signs the wrong share 0 for party 1; dealer 3 either sends party 1
    the right share, or the wrong one without signing it.
  */
  ghost function Dealt(right: bool, i: int, j: int): Payload {
    if j == 1 && i == 2 then Payload(0, 1, [2])
    else if j == 1 && i == 3 && !right then Payload(0, 0, [2])
    else Payload(1, 1, [2])
  }

  ghost function Pairs(): (s: set<(int, int)>)
    ensures forall i, j :: (i, j) in s <==> i in FOUR && j in FOUR && i != j
  {
    set i, j | i in FOUR && j in FOUR && i != j :: (i, j)
  }

  /** Party 1 complains about dealers 2 and 3, as party 4 sees it, before the claims arrive. */
  ghost function Quarrel(right: bool): Dispute {
    Dispute(PlainCrypto(), map i | i in FOUR :: Member(i), map p | p in Pairs() :: Dealt(right, p.0, p.1), 4,
            map i | i in FOUR && i != 4 :: true,
            map j | j in FOUR && j != 4 :: map i | i in FOUR && i != j :: !(j == 1 && (i == 2 || i == 3)),
            map[], map[], (j, x) => 0)
  }

  lemma DealtIsChecked(right: bool, i: int, j: int)
    requires i in FOUR && j in FOUR && i != j
    ensures CheckShare(PlainCrypto(), Member(j), i, Dealt(right, i, j)) ==
      Value(!(j == 1 && (i == 2 || (i == 3 && !right))))
  {
    assert Eval([2], j) == 2 + j * Eval([], j);
  }

  lemma QuarrelShare(right: bool, i: int, j: int)
    requires i in FOUR && j in FOUR && i != j
    ensures var d := Quarrel(right);
      && (i, j) in d.sent && j in d.parties && d.sent[(i, j)] == Dealt(right, i, j)
      && CheckShare(d.c, d.parties[j], i, d.sent[(i, j)]) == Value(!(j == 1 && (i == 2 || (i == 3 && !right))))
  {
    DealtIsChecked(right, i, j);
    assert (i, j) in Pairs();
  }

  lemma QuarrelCommittee(right: bool)
    ensures Committee(Quarrel(right).c, Quarrel(right).parties)
  {
  }

  lemma QuarrelIsShaped(right: bool)
    ensures Shaped(Quarrel(right))
  {
    var d := Quarrel(right);
    QuarrelCommittee(right);
    forall i, j | i in d.parties && j in d.parties && i != j
      ensures (i, j) in d.sent && CheckShare(d.c, d.parties[j], i, d.sent[(i, j)]).Value?
    {
      QuarrelShare(right, i, j);
    }
  }

  lemma QuarrelBad(right: bool, i: int, j: int)
    ensures BadShare(Quarrel(right), i, j) <==> j == 1 && (i == 2 || (i == 3 && !right))
    ensures ProvablyBad(Quarrel(right), i, j) <==> j == 1 && i == 2
  {
    if i in FOUR && j in FOUR && i != j {
      QuarrelShare(right, i, j);
    }
  }

  /** Party 1 complains about a bad and a good share, and the error names the dealer of the good one. */
  lemma ErrorCanNameGoodDealer() returns (d: Dispute)
    ensures Claimed(d) && !Panics(d)
    ensures AcceptsAt(d, 1, 3) && !BadShare(d, 3, 1)
  {
    var q := Quarrel(true);
    QuarrelIsShaped(true);
    QuarrelBad(true, 2, 1);
    QuarrelBad(true, 3, 1);
    d := AnyPlaceCanBeNamed(q, 1, 2, 3);
    ReorderedFacts(q, d, 3, 1);
    PanicsIffComplained(d);
  }

  lemma QuarrelReport(e: Dispute, j: int, i: int)
    requires e == Quarrel(false).(claims := e.claims, told := e.told) && j in FOUR && j != 4
    ensures Complained(e, j, i) <==> BadShare(e, i, j)
  {
    ReorderedFacts(Quarrel(false), e, i, j);
    QuarrelBad(false, i, j);
  }

  lemma QuarrelOwn(e: Dispute, i: int)
    requires e == Quarrel(false).(claims := e.claims, told := e.told) && i in FOUR && i != 4
    ensures i in e.own && e.own[i] && !BadShare(e, i, 4)
  {
    ReorderedFacts(Quarrel(false), e, i, 4);
    QuarrelBad(false, i, 4);
  }

  lemma QuarrelIsTruthful(e: Dispute)
    requires Reordered(Quarrel(false), e)
    ensures Truthful(e)
  {
    forall i | i in e.own ensures !e.own[i] <==> BadShare(e, i, e.k) {
      QuarrelOwn(e, i);
    }
    forall j, i | j in e.parties && j != e.k ensures Complained(e, j, i) <==> BadShare(e, i, j) {
      QuarrelReport(e, j, i);
    }
  }

  /** Even if everybody tells the truth, the error can name a dealer against whom nothing was proved. */
  lemma ErrorCanNameUnproven() returns (d: Dispute)
    ensures Truthful(d) && !Panics(d)
    ensures AcceptsAt(d, 1, 3) && BadShare(d, 3, 1) && !ProvablyBad(d, 3, 1)
  {
    var q := Quarrel(false);
    QuarrelIsShaped(false);
    QuarrelBad(false, 2, 1);
    QuarrelBad(false, 3, 1);
    d := AnyPlaceCanBeNamed(q, 1, 2, 3);
    ReorderedFacts(q, d, 3, 1);
    PanicsIffComplained(d);
    QuarrelIsTruthful(d);
  }
}
