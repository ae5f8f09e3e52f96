/**
  What the program of a party in a run of the verified key generation does with messages of any kind: it checks all
  of them, so that a result is right whatever it was sent.
*/
module AnyMessages {
  import opened Collections
  import opened Field
  import opened Polynomial
  import opened Shamir
  import opened Dleq
  import opened Disputes
  import opened GroupKeys
  import opened DkgParty
  import opened DkgHonest

  /** A party reports, of every dealer, what its own check gave. */
  lemma ReportsHonestly(su: Setup, i: int, heard: Heard, j: int, k: int, payload: Payload)
    requires Committed(su) && su.v.Malicious? && i in su.all && j in su.all && i != j && k in su.all && k != i
    requires HasMsg(heard, k, 0) && heard[k][0] == VssShare(payload) && Produce(su, i, heard, j, 1).Some?
    ensures var report := Produce(su, i, heard, j, 1).value;
      && report.Results? && k in report.results
      && (report.results[k] <==> CheckShare(su.c, PartyOf(su, i), k, payload) == Value(true))
  {
  }

  // ------------------------------------------------------------------ what is accepted from one peer

  /** The messages of k have the right shape. */
  ghost predicate Shaped(heard: Heard, k: int) {
    && HasMsg(heard, k, 3) && heard[k][0].VssShare? && heard[k][0].payload.commitments != []
    && heard[k][1].Results? && heard[k][2].ProvedKey? && heard[k][3].ProvedGroupKey?
  }

  /** All messages of k pass their checks. */
  ghost predicate Passes(su: Setup, i: int, heard: Heard, polys: map<int, seq<int>>, k: int)
    requires Committed(su) && i in su.all && PolysOf(su.ids, polys)
  {
    && Shaped(heard, k)
    && CheckShare(su.c, PartyOf(su, i), k, heard[k][0].payload) == Value(true)
    && (forall x :: x in heard[k][1].results ==> heard[k][1].results[x])
    && AcceptsPk(su.c, heard[k][0].payload.commitments, heard[k][2].key)
    && AcceptsGpk(su.c, su.ids, polys, k, heard[k][3].group)
  }

  lemma ShareAccepted(su: Setup, i: int, heard: Heard, k: int)
    requires Committed(su) && su.v.Malicious? && i in su.all && k in su.all && k != i && NoComplaints(su, i, heard)
    ensures HasMsg(heard, k, 1) && heard[k][0].VssShare? && heard[k][1].Results?
    ensures heard[k][0].payload.commitments != []
    ensures CheckShare(su.c, PartyOf(su, i), k, heard[k][0].payload) == Value(true)
    ensures forall x :: x in heard[k][1].results ==> heard[k][1].results[x]
  {
    assert CheckFrom(su, i, heard, k) == Value(true);
  }

  lemma CommitmentsKnown(su: Setup, i: int, heard: Heard)
    requires Committed(su) && su.v.Malicious? && i in su.all && NoComplaints(su, i, heard)
    ensures PolysOf(su.ids, KnownPolys(su, i, heard))
  {
    CommitmentHead(su, i);
    forall k | k in su.all && k != i ensures heard[k][0].VssShare? && heard[k][0].payload.commitments != [] {
      ShareAccepted(su, i, heard, k);
    }
  }

  lemma KeyAccepted(su: Setup, i: int, heard: Heard, k: int)
    requires Committed(su) && su.v.Malicious? && i in su.all && k in su.all && k != i && MasterKey(su, i, heard).Some?
    ensures HasMsg(heard, k, 2) && heard[k][0].VssShare? && heard[k][2].ProvedKey?
    ensures heard[k][0].payload.commitments != []
    ensures AcceptsPk(su.c, heard[k][0].payload.commitments, heard[k][2].key)
    ensures KeyFrom(su, i, heard, k) == Some(heard[k][2].key.pk)
  {
    assert KeyFrom(su, i, heard, k).Some?;
  }

  lemma GroupKeyAccepted(su: Setup, i: int, heard: Heard, k: int, own: int)
    requires Committed(su) && su.v.Malicious? && i in su.all && k in su.all && k != i
    requires GroupKeysWith(su, i, heard, own).Some?
    ensures HasMsg(heard, k, 3) && heard[k][3].ProvedGroupKey? && PolysOf(su.ids, KnownPolys(su, i, heard))
    ensures AcceptsGpk(su.c, su.ids, KnownPolys(su, i, heard), k, heard[k][3].group)
    ensures var pks := GroupKeysWith(su, i, heard, own).value; k in pks && pks[k] == heard[k][3].group.gpk
  {
    assert GroupKeyFrom(su, i, heard, k).Some?;
  }

  /** A party ends with a result only if everything it was sent passes. */
  lemma FinishedMeansPassed(su: Setup, i: int, heard: Heard, o: Output, k: int)
    requires Committed(su) && su.v.Malicious? && i in su.all && k in su.all && k != i
    requires NoComplaints(su, i, heard) && Finish(su, i, heard) == Some(o)
    ensures PolysOf(su.ids, KnownPolys(su, i, heard)) && Passes(su, i, heard, KnownPolys(su, i, heard), k)
    ensures k in o.pks && o.pks[k] == heard[k][3].group.gpk
  {
    ShareAccepted(su, i, heard, k);
    KeyAccepted(su, i, heard, k);
    GroupKeyAccepted(su, i, heard, k, GroupSecret(su, i, heard).value);
  }

  // ------------------------------------------------------------------ what a party ends with

  ghost predicate AllPass(su: Setup, i: int, heard: Heard)
    requires Committed(su) && i in su.all
  {
    && PolysOf(su.ids, KnownPolys(su, i, heard))
    && forall k :: k in su.all && k != i ==> Passes(su, i, heard, KnownPolys(su, i, heard), k)
  }

  /** The proofs of k, which are accepted, have one exponent for both bases. */
  ghost predicate SoundFrom(su: Setup, heard: Heard, k: int)
    requires 0 < su.c.q && Shaped(heard, k)
  {
    && Sound(su.c, heard[k][2].key.pk, heard[k][0].payload.commitments[0])
    && Sound(su.c, heard[k][3].group.gpk, heard[k][3].group.auxGpk)
  }

  ghost predicate AllSound(su: Setup, i: int, heard: Heard)
    requires Committed(su) && i in su.all && AllPass(su, i, heard)
  {
    forall k :: k in su.all && k != i ==> Passes(su, i, heard, KnownPolys(su, i, heard), k) && SoundFrom(su, heard, k)
  }

  /** The value at x of the polynomial that the commitments party i was shown add up to. */
  ghost function JointAt(su: Setup, i: int, heard: Heard, x: int): int
    requires Committed(su) && i in su.all && !Cong(su.c.h, 0, su.c.q) && PolysOf(su.ids, KnownPolys(su, i, heard))
  {
    ShareOf(Joint(su.ids, KnownPolys(su, i, heard), su.c.h, su.c.q), x, su.c.q)
  }

  lemma KnownFrom(su: Setup, i: int, heard: Heard, k: int)
    requires Committed(su) && i in su.all && k in su.all
    ensures k == i ==> KnownPolys(su, i, heard)[k] == CommitmentsOf(su, i)
    ensures k != i && Shaped(heard, k) ==> KnownPolys(su, i, heard)[k] == heard[k][0].payload.commitments
  {
  }

  lemma PeerShare(su: Setup, i: int, heard: Heard, polys: map<int, seq<int>>, k: int)
    requires Committed(su) && su.v.Malicious? && i in su.all && k in su.all && k != i && PolysOf(su.ids, polys)
    requires Passes(su, i, heard, polys, k)
    ensures ShareFrom(su, i, heard, k).Some?
    ensures ShareMatches(su.c, heard[k][0].payload.commitments, ShareFrom(su, i, heard, k).value, i)
  {
  }

  lemma ShareOnPolynomial(su: Setup, i: int, heard: Heard, k: int)
    requires Committed(su) && su.v.Malicious? && i in su.all && k in su.all && AllPass(su, i, heard)
    ensures ShareFrom(su, i, heard, k).Some?
    ensures ShareMatches(su.c, KnownPolys(su, i, heard)[k], ShareFrom(su, i, heard, k).value, i)
  {
    KnownFrom(su, i, heard, k);
    if k == i {
      CommittedEvalIsCommitment(su.polys[i], su.c.h, i, su.c.q);
    } else {
      PeerShare(su, i, heard, KnownPolys(su, i, heard), k);
    }
  }

  lemma SecretOnPolynomial(su: Setup, i: int, heard: Heard)
    requires Committed(su) && su.v.Malicious? && i in su.all && AllPass(su, i, heard) && !Cong(su.c.h, 0, su.c.q)
    ensures GroupSecret(su, i, heard) == Some(JointAt(su, i, heard, i))
  {
    var polys := KnownPolys(su, i, heard);
    forall k | k in su.all
      ensures ShareFrom(su, i, heard, k).Some? && ShareMatches(su.c, polys[k], ShareFrom(su, i, heard, k).value, i)
    {
      ShareOnPolynomial(su, i, heard, k);
    }
    var shares := map k | k in su.all :: ShareFrom(su, i, heard, k).value;
    assert AllMatch(su.c, su.ids, polys, shares, i);
    SharesAddUp(su.c, su.ids, polys, shares, i);
    ValueOfJoint(su.ids, polys, su.c.h, i, Sum(su.ids, shares), su.c.q);
  }

  lemma PeerKey(su: Setup, i: int, heard: Heard, polys: map<int, seq<int>>, k: int)
    requires Committed(su) && su.v.Malicious? && i in su.all && k in su.all && k != i && PolysOf(su.ids, polys)
    requires Passes(su, i, heard, polys, k)
    ensures KeyFrom(su, i, heard, k) == Some(heard[k][2].key.pk)
  {
  }

  lemma OwnKey(su: Setup, i: int)
    requires Committed(su) && i in su.all
    ensures CommitmentsOf(su, i) != [] && Sound(su.c, ShareOf(su.polys[i], 0, su.c.q), CommitmentsOf(su, i)[0])
  {
    CommitmentHead(su, i);
    ModSmall(su.polys[i][0], su.c.q);
    assert CommonExponent(1, su.polys[i][0], su.c.h, CommitmentsOf(su, i)[0], su.polys[i][0], su.c.q);
  }

  lemma KeyOnPolynomial(su: Setup, i: int, heard: Heard, k: int)
    requires Committed(su) && su.v.Malicious? && i in su.all && k in su.all && AllPass(su, i, heard)
    requires AllSound(su, i, heard)
    ensures KeyFrom(su, i, heard, k).Some? && KnownPolys(su, i, heard)[k] != []
    ensures Sound(su.c, KeyFrom(su, i, heard, k).value, KnownPolys(su, i, heard)[k][0])
  {
    KnownFrom(su, i, heard, k);
    if k == i {
      OwnKey(su, i);
    } else {
      PeerKey(su, i, heard, KnownPolys(su, i, heard), k);
      assert SoundFrom(su, heard, k);
    }
  }

  lemma MasterOnPolynomial(su: Setup, i: int, heard: Heard)
    requires Committed(su) && su.v.Malicious? && i in su.all && AllPass(su, i, heard) && !Cong(su.c.h, 0, su.c.q)
    requires AllSound(su, i, heard)
    ensures MasterKey(su, i, heard) == Some(JointAt(su, i, heard, 0))
  {
    var polys := KnownPolys(su, i, heard);
    forall k | k in su.all
      ensures KeyFrom(su, i, heard, k).Some? && polys[k] != []
      ensures Sound(su.c, KeyFrom(su, i, heard, k).value, polys[k][0])
    {
      KeyOnPolynomial(su, i, heard, k);
    }
    var keys := map k | k in su.all :: KeyFrom(su, i, heard, k).value;
    PublicKeysAddUp(su.c, su.ids, polys, keys);
    ValueOfJoint(su.ids, polys, su.c.h, 0, Sum(su.ids, keys), su.c.q);
  }

  lemma GroupKeyOnPolynomial(su: Setup, i: int, heard: Heard, k: int)
    requires Committed(su) && su.v.Malicious? && i in su.all && AllPass(su, i, heard) && !Cong(su.c.h, 0, su.c.q)
    requires AllSound(su, i, heard) && k in su.all && k != i
    ensures GroupKeyFrom(su, i, heard, k) == Some(JointAt(su, i, heard, k))
  {
    var polys := KnownPolys(su, i, heard);
    assert Passes(su, i, heard, polys, k) && SoundFrom(su, heard, k);
    AcceptedGroupKey(su.c, su.ids, polys, k, heard[k][3].group);
  }

  lemma GroupKeysCollected(su: Setup, i: int, heard: Heard, keys: map<int, int>)
    requires Committed(su) && i in su.all && keys.Keys == su.all
    requires forall k :: k in su.all && k != i ==> GroupKeyFrom(su, i, heard, k) == Some(keys[k])
    ensures GroupKeysWith(su, i, heard, keys[i]) == Some(keys)
  {
    var pks := map k | k in su.all :: if k == i then keys[i] else GroupKeyFrom(su, i, heard, k).value;
    assert pks == keys;
  }

  lemma GroupKeysOnPolynomial(su: Setup, i: int, heard: Heard)
    requires Committed(su) && su.v.Malicious? && i in su.all && AllPass(su, i, heard) && !Cong(su.c.h, 0, su.c.q)
    requires AllSound(su, i, heard)
    ensures var keys := map k | k in su.all :: JointAt(su, i, heard, k);
      GroupKeysWith(su, i, heard, JointAt(su, i, heard, i)) == Some(keys)
  {
    var keys := map k | k in su.all :: JointAt(su, i, heard, k);
    forall k | k in su.all && k != i ensures GroupKeyFrom(su, i, heard, k) == Some(keys[k]) {
      GroupKeyOnPolynomial(su, i, heard, k);
    }
    GroupKeysCollected(su, i, heard, keys);
  }

  /**
    For messages of any kind: a party that has sent its key ends with a result only if everything it was sent passes
    its check. If everything does, and the proofs are sound, it ends with the values of the polynomial that the
    commitments it was shown add up to, unless one of them is zero.
  */
  lemma FinishOnAnyMessages(su: Setup, i: int, heard: Heard)
    requires Committed(su) && su.v.Malicious? && i in su.all && !Cong(su.c.h, 0, su.c.q)
    ensures NoComplaints(su, i, heard) && Finish(su, i, heard).Some? ==> AllPass(su, i, heard)
    ensures AllPass(su, i, heard) ==> NoComplaints(su, i, heard)
    ensures AllPass(su, i, heard) && AllSound(su, i, heard) ==>
      var pks := map k | k in su.all :: JointAt(su, i, heard, k);
      Finish(su, i, heard) == if JointAt(su, i, heard, 0) == 0 || AnyZero(pks) then None
                              else Some(Output(JointAt(su, i, heard, i), JointAt(su, i, heard, 0), pks))
  {
    if NoComplaints(su, i, heard) && Finish(su, i, heard).Some? {
      CommitmentsKnown(su, i, heard);
      forall k | k in su.all && k != i ensures Passes(su, i, heard, KnownPolys(su, i, heard), k) {
        FinishedMeansPassed(su, i, heard, Finish(su, i, heard).value, k);
      }
    }
    if AllPass(su, i, heard) {
      forall k | k in su.all && k != i ensures Passes(su, i, heard, KnownPolys(su, i, heard), k) {
      }
      if AllSound(su, i, heard) {
        SecretOnPolynomial(su, i, heard);
        MasterOnPolynomial(su, i, heard);
        GroupKeysOnPolynomial(su, i, heard);
      }
    }
  }

  /** It sends its key exactly if nobody complains, itself included. */
  lemma KeySentIff(su: Setup, i: int, heard: Heard, j: int)
    requires Committed(su) && su.v.Malicious? && i in su.all && j in su.all && i != j
    ensures Produce(su, i, heard, j, 2).Some? <==> NoComplaints(su, i, heard)
  {
    CommitmentHead(su, i);
    ProofOfKey(su, i);
  }
}
