/**
  The two descriptions of the verified key generation agree: what one party computes from an inbox, as one method,
  and what it sends and ends with as a party of a run.
*/
module HonestGeneration {
  import opened Collections
  import opened Field
  import opened Polynomial
  import opened Shamir
  import opened Dleq
  import opened Disputes
  import opened GroupKeys
  import opened DkgParty
  import opened DkgHonest
  import K = KeyGeneration

  /** What a party that has heard all the intended messages finds in its inbox. */
  ghost function InboxOf(su: Setup, i: int): K.Inbox
    requires Committed(su) && su.v.Malicious? && i in su.all
  {
    K.Inbox(map k | k in su.all && k != i :: Intended(su, k, i, 0).payload,
            map k | k in su.all && k != i :: Intended(su, k, i, 1).results,
            map[],
            map k | k in su.all && k != i :: Intended(su, k, i, 2).key,
            map k | k in su.all && k != i :: Intended(su, k, i, 3).group)
  }

  lemma PayloadOf(su: Setup, i: int, k: int)
    requires Committed(su) && su.v.Malicious? && i in su.all && k in su.all && k != i
    ensures k in InboxOf(su, i).payloads && InboxOf(su, i).payloads[k].commitments == CommitmentsOf(su, k)
  {
  }

  lemma CommitmentsNonempty(su: Setup)
    requires Committed(su)
    ensures PolysOf(su.ids, AllCommitments(su))
  {
    forall k | k in su.all ensures CommitmentsOf(su, k) != [] {
      CommitmentHead(su, k);
    }
  }

  lemma SeesAllCommitments(su: Setup, i: int)
    requires Committed(su) && su.v.Malicious? && i in su.all
    ensures K.CommitmentsSeen(su.c, i, su.polys[i], InboxOf(su, i)) == AllCommitments(su)
  {
    var b := InboxOf(su, i);
    var seen := K.CommitmentsSeen(su.c, i, su.polys[i], b);
    assert seen.Keys == b.payloads.Keys + {i} == su.all;
    forall k | k in su.all ensures seen[k] == CommitmentsOf(su, k) {
      if k != i {
        PayloadOf(su, i, k);
      }
    }
  }

  lemma InboxIsDelivered(su: Setup, i: int)
    requires Committed(su) && su.v.Malicious? && i in su.all
    ensures !Cong(su.c.h, 0, su.c.q)
    ensures K.Delivered(su.c, i, su.ids, InboxOf(su, i)) && forall j, k :: !Complains(InboxOf(su, i).results, j, k)
  {
    SecondGenerator(su);
    var b := InboxOf(su, i);
    assert b.payloads.Keys + {i} == su.all && b.pks.Keys + {i} == su.all && b.gpks.Keys + {i} == su.all;
    forall k | k in b.payloads ensures InField(b.payloads[k].commitments, su.c.q) {
      ReduceAllCong(Scale(su.polys[k], su.c.h), su.c.q);
    }
  }

  /** The joint polynomial of the commitments is the sum of the chosen polynomials. */
  lemma JointIsF(su: Setup, x: int)
    requires Committed(su) && PolysOf(su.ids, AllCommitments(su)) && !Cong(su.c.h, 0, su.c.q)
    ensures ShareOf(Joint(su.ids, AllCommitments(su), su.c.h, su.c.q), x, su.c.q) == F(su, x)
  {
    var q, h, v := su.c.q, su.c.h, CommitSum(su.ids, su.polys, x);
    CommittedSum(su.ids, su.polys, AllCommitments(su), h, x, q);
    ValueOfJoint(su.ids, AllCommitments(su), h, x, v, q);
  }

  lemma KeyPasses(su: Setup, i: int, k: int)
    requires Committed(su) && su.v.Malicious? && i in su.all && k in su.all && k != i
    ensures CommitmentsOf(su, k) != [] && AcceptsPk(su.c, CommitmentsOf(su, k), Intended(su, k, i, 2).key)
    ensures Sound(su.c, Intended(su, k, i, 2).key.pk, CommitmentsOf(su, k)[0])
  {
    CommitmentHead(su, k);
    ProofOfKey(su, k);
    ModSmall(su.polys[k][0], su.c.q);
    assert CommonExponent(1, su.polys[k][0], su.c.h, CommitmentsOf(su, k)[0], su.polys[k][0], su.c.q);
  }

  lemma GroupKeyPasses(su: Setup, i: int, k: int)
    requires Committed(su) && su.v.Malicious? && i in su.all && k in su.all && k != i &&
      PolysOf(su.ids, AllCommitments(su))
    ensures AcceptsGpk(su.c, su.ids, AllCommitments(su), k, Intended(su, k, i, 3).group)
    ensures Sound(su.c, Intended(su, k, i, 3).group.gpk, Intended(su, k, i, 3).group.auxGpk)
  {
    var g := F(su, k);
    ProofOfGroupKey(su, g, su.w(k, 3));
    CommitmentsAddUp(su, k);
    ModSmall(g, su.c.q);
    assert CommonExponent(1, g, su.c.h, (su.c.h * g) % su.c.q, g, su.c.q);
  }

  lemma IntendedPasses(su: Setup, i: int, k: int)
    requires Committed(su) && su.v.Malicious? && i in su.all && k in su.all && k != i &&
      PolysOf(su.ids, AllCommitments(su))
    ensures K.MemberPasses(su.c, PartyOf(su, i), su.ids, AllCommitments(su), InboxOf(su, i), k)
  {
    CheckIntended(su, i, k);
    KeyPasses(su, i, k);
    GroupKeyPasses(su, i, k);
  }

  lemma ZeroIsZero(su: Setup, i: int)
    requires Committed(su) && i in su.all && PolysOf(su.ids, AllCommitments(su)) && !Cong(su.c.h, 0, su.c.q)
    ensures K.ZeroValue(su.c, su.ids, AllCommitments(su)) <==> ZeroKey(su)
    ensures K.CannotDeal(su.polys[i], su.ids, su.c.q) <==> HasZeroShare(su, i)
  {
    JointIsF(su, 0);
    forall k | k in su.all ensures Find(su.ids, k) < |su.ids| && su.ids[Find(su.ids, k)] == k {
    }
    forall a | 0 <= a < |su.ids|
      ensures ShareOf(Joint(su.ids, AllCommitments(su), su.c.h, su.c.q), su.ids[a], su.c.q) == F(su, su.ids[a])
    {
      JointIsF(su, su.ids[a]);
    }
  }

  /** What the method returns where the party of a run ends with o. */
  ghost function ResultOf(o: Option<Output>): K.GenerateResult {
    if o.None? then K.Crashed else K.Generated(o.value.gsk, o.value.mpk, o.value.pks)
  }

  lemma DerivedKey(su: Setup, mpk: int, gpks: map<int, int>, k: int)
    requires Committed(su) && k in su.all && OnOnePolynomial(su.c, su.ids, AllCommitments(su), mpk, gpks)
    ensures k in gpks && gpks[k] == F(su, k) && mpk == F(su, 0)
  {
    JointIsF(su, 0);
    JointIsF(su, k);
    var a := Find(su.ids, k);
    assert su.ids[a] == k;
  }

  lemma DerivedMap(su: Setup, mpk: int, gpks: map<int, int>)
    requires Committed(su) && gpks.Keys == su.all && OnOnePolynomial(su.c, su.ids, AllCommitments(su), mpk, gpks)
    ensures gpks == map k | k in su.all :: F(su, k)
  {
    forall k | k in su.all ensures gpks[k] == F(su, k) {
      DerivedKey(su, mpk, gpks, k);
    }
  }

  lemma DerivedIsAgreed(su: Setup, i: int, r: K.GenerateResult)
    requires Committed(su) && i in su.all && K.KeysDerived(su.c, i, su.ids, AllCommitments(su), r)
    ensures r == ResultOf(Some(Agreed(su, i)))
  {
    ListsOneSet(su.ids, su.all, r.gpks.Keys);
    DerivedKey(su, r.mpk, r.gpks, i);
    DerivedMap(su, r.mpk, r.gpks);
  }

  /**
    A party that has heard the intended messages returns, as a method, what it ends with in the run; and it crashes if
    a share of its own key is zero, when it would not have sent anything in the run.
  */
  lemma GenerateAgrees(su: Setup, i: int, heard: Heard, r: K.GenerateResult)
    requires Committed(su) && su.v.Malicious? && i in su.all && HeardIntended(su, i, heard, Rounds(su.v))
    requires !Cong(su.c.h, 0, su.c.q) && K.Delivered(su.c, i, su.ids, InboxOf(su, i))
    requires K.Returns(su.c, PartyOf(su, i), su.ids, su.polys[i], InboxOf(su, i), r)
    ensures r == if HasZeroShare(su, i) then K.Crashed else ResultOf(Finish(su, i, heard))
  {
    FinishIntended(su, i, heard);
    InboxIsDelivered(su, i);
    SeesAllCommitments(su, i);
    CommitmentsNonempty(su);
    ZeroIsZero(su, i);
    forall a | 0 <= a < |su.ids| && su.ids[a] != i
      ensures K.MemberPasses(su.c, PartyOf(su, i), su.ids, AllCommitments(su), InboxOf(su, i), su.ids[a])
    {
      IntendedPasses(su, i, su.ids[a]);
    }
    K.PassingRun(su.c, PartyOf(su, i), su.ids, su.polys[i], InboxOf(su, i), r);
    if r != K.Crashed {
      DerivedIsAgreed(su, i, r);
    }
  }
}
