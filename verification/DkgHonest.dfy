/**
  An honest party that has heard the intended messages of honest peers sends the intended messages
  and ends with the values of the joint polynomial.
*/
module DkgHonest {
  import opened Collections
  import opened Field
  import opened Polynomial
  import opened Shamir
  import opened Dleq
  import opened Disputes
  import opened GroupKeys
  import opened DkgParty

  // ------------------------------------------------------------------ shares

  lemma OpenIntended(su: Setup, i: int, k: int)
    requires Committed(su) && su.v.Malicious? && i in su.all && k in su.all && k != i
    ensures OpenShare(su.c, PartyOf(su, i), k, Intended(su, k, i, 0).payload) == Value(ShareOf(su.polys[k], i, su.c.q))
  {
    var s := ShareOf(su.polys[k], i, su.c.q);
    var key := (su.keys[k] * su.keys[i]) % su.c.q;
    assert su.keys[i] * su.keys[k] == su.keys[k] * su.keys[i];
    assert PartyOf(su, i).Partner(k) == Some(su.keys[k]);
    assert su.c.decrypt(key, su.encrypt(key, s)) == Some(s);
    ModSmall(s, su.c.q);
  }

  lemma ShareFromIntended(su: Setup, i: int, heard: Heard, k: int)
    requires Committed(su) && i in su.all && k in su.all && HeardIntended(su, i, heard, 1)
    ensures ShareFrom(su, i, heard, k) == Some(ShareOf(su.polys[k], i, su.c.q))
  {
    if k != i {
      assert HeardFrom(su, i, heard, k, 1);
      if su.v.Malicious? { OpenIntended(su, i, k); }
    }
  }

  lemma SumOfValues(su: Setup, m: map<int, int>, x: int)
    requires Committed(su) && m.Keys == su.all
    requires forall k :: k in su.all ==> m[k] == ShareOf(su.polys[k], x, su.c.q)
    ensures Sum(su.ids, m) % su.c.q == F(su, x)
  {
    forall i | 0 <= i < |su.ids| ensures su.ids[i] in m && m[su.ids[i]] == Eval(su.polys[su.ids[i]], x) % su.c.q {
      var k := su.ids[i];
      assert k in su.all && m[k] == ShareOf(su.polys[k], x, su.c.q);
    }
    EvalSums(su.ids, su.polys, m, x, su.c.q);
  }

  lemma GroupSecretIntended(su: Setup, i: int, heard: Heard)
    requires Committed(su) && i in su.all && HeardIntended(su, i, heard, 1)
    ensures GroupSecret(su, i, heard) == Some(F(su, i))
  {
    forall k | k in su.all ensures ShareFrom(su, i, heard, k) == Some(ShareOf(su.polys[k], i, su.c.q)) {
      ShareFromIntended(su, i, heard, k);
    }
    SumOfValues(su, map k | k in su.all :: ShareFrom(su, i, heard, k).value, i);
  }

  lemma AloneHasNoZeroShare(su: Setup, i: int)
    requires Committed(su) && i in su.all && !ZeroKey(su) && su.all == {i}
    ensures !HasZeroShare(su, i)
  {
    var m := map k | k in su.all :: ShareOf(su.polys[k], i, su.c.q);
    SumOfValues(su, m, i);
    assert |su.ids| == 1 && su.ids[0] == i by {
      assert su.ids[0] in su.all;
    }
    assert Sum(su.ids, m) == m[i] + Sum(su.ids[1..], m);
    ModSmall(m[i], su.c.q);
  }

  // ------------------------------------------------------------------ checks of the second variant

  lemma CommitmentHead(su: Setup, k: int)
    requires Committed(su) && k in su.all
    ensures CommitmentsOf(su, k) != [] && CommitmentsOf(su, k)[0] == (su.c.h * su.polys[k][0]) % su.c.q
    ensures ShareOf(su.polys[k], 0, su.c.q) == su.polys[k][0]
  {
    ConstantTerm(su.polys[k]);
    ModSmall(su.polys[k][0], su.c.q);
  }

  lemma CheckIntended(su: Setup, i: int, k: int)
    requires Committed(su) && su.v.Malicious? && i in su.all && k in su.all && k != i
    ensures CheckShare(su.c, PartyOf(su, i), k, Intended(su, k, i, 0).payload) == Value(true)
  {
    OpenIntended(su, i, k);
    CommitmentHead(su, k);
    CommittedEvalIsCommitment(su.polys[k], su.c.h, i, su.c.q);
  }

  lemma CheckFromIntended(su: Setup, i: int, heard: Heard, k: int)
    requires Committed(su) && su.v.Malicious? && i in su.all && k in su.all && k != i && HeardIntended(su, i, heard, 1)
    ensures CheckFrom(su, i, heard, k) == Value(true)
  {
    assert HeardFrom(su, i, heard, k, 1) && heard[k][0] == Intended(su, k, i, 0);
    CheckIntended(su, i, k);
  }

  lemma ProofOfKey(su: Setup, k: int)
    requires Committed(su) && k in su.all
    ensures var p := DleqProve(1, su.polys[k][0], su.c.h, CommitmentsOf(su, k)[0], su.polys[k][0], su.w(k, 2),
      su.c.hash, su.c.q);
      p.Proved? && AcceptsPk(su.c, CommitmentsOf(su, k), PkPayload(su.polys[k][0], p.proof))
  {
    CommitmentHead(su, k);
    ModSmall(su.polys[k][0], su.c.q);
    Completeness(1, su.polys[k][0], su.c.h, CommitmentsOf(su, k)[0], su.polys[k][0], su.w(k, 2), su.c.hash, su.c.q);
  }

  lemma ProofOfGroupKey(su: Setup, g: int, w: int)
    requires Committed(su) && 0 <= g < su.c.q
    ensures var aux := (su.c.h * g) % su.c.q;
      var p := DleqProve(1, g, su.c.h, aux, g, w, su.c.hash, su.c.q);
      p.Proved? && DleqVerify(1, g, su.c.h, aux, p.proof, su.c.hash, su.c.q)
  {
    ModSmall(g, su.c.q);
    Completeness(1, g, su.c.h, (su.c.h * g) % su.c.q, g, w, su.c.hash, su.c.q);
  }

  lemma KeyFromIntended(su: Setup, i: int, heard: Heard, k: int)
    requires Committed(su) && i in su.all && k in su.all
    requires HeardIntended(su, i, heard, if su.v.SemiHonest? then 2 else 3)
    ensures KeyFrom(su, i, heard, k) == Some(ShareOf(su.polys[k], 0, su.c.q))
  {
    if k != i {
      var r := if su.v.SemiHonest? then 2 else 3;
      assert HeardFrom(su, i, heard, k, r);
      assert heard[k][0] == Intended(su, k, i, 0) && heard[k][r - 1] == Intended(su, k, i, r - 1);
      CommitmentHead(su, k);
      ProofOfKey(su, k);
    }
  }

  lemma MasterKeyIntended(su: Setup, i: int, heard: Heard)
    requires Committed(su) && i in su.all
    requires HeardIntended(su, i, heard, if su.v.SemiHonest? then 2 else 3)
    ensures MasterKey(su, i, heard) == Some(F(su, 0))
  {
    forall k | k in su.all ensures KeyFrom(su, i, heard, k) == Some(ShareOf(su.polys[k], 0, su.c.q)) {
      KeyFromIntended(su, i, heard, k);
    }
    SumOfValues(su, map k | k in su.all :: KeyFrom(su, i, heard, k).value, 0);
  }

  lemma {:induction false} CommittedSum(ids: seq<int>, polys: map<int, seq<int>>, comms: map<int, seq<int>>, h: int,
                                        x: int, q: int)
    requires 0 < q && PolysOf(ids, polys) && PolysOf(ids, comms)
    requires forall i :: 0 <= i < |ids| ==> comms[ids[i]] == ReduceAll(Scale(polys[ids[i]], h), q)
    ensures Cong(CommitSum(ids, comms, x), h * CommitSum(ids, polys, x), q)
  {
    if ids != [] {
      CommittedSum(ids[1..], polys, comms, h, x, q);
      var v := Eval(polys[ids[0]], x);
      CommittedEvalIsCommitment(polys[ids[0]], h, x, q);
      CongMod(v, q);
      CongMul(h, h, v % q, v, q);
      AddScaled(h, v, Eval(comms[ids[0]], x), CommitSum(ids[1..], polys, x), CommitSum(ids[1..], comms, x), q);
    }
  }

  lemma KnownPolysIntended(su: Setup, i: int, heard: Heard)
    requires Committed(su) && su.v.Malicious? && i in su.all && HeardIntended(su, i, heard, 1)
    ensures KnownPolys(su, i, heard) == AllCommitments(su)
    ensures PolysOf(su.ids, AllCommitments(su))
    ensures forall x :: CommitSum(su.ids, AllCommitments(su), x) % su.c.q == (su.c.h * F(su, x)) % su.c.q
  {
    forall k | k in su.all ensures KnownPolys(su, i, heard)[k] == CommitmentsOf(su, k) && CommitmentsOf(su, k) != [] {
      CommitmentHead(su, k);
      if k != i {
        assert HeardFrom(su, i, heard, k, 1) && heard[k][0] == Intended(su, k, i, 0);
      }
    }
    forall x ensures CommitSum(su.ids, AllCommitments(su), x) % su.c.q == (su.c.h * F(su, x)) % su.c.q {
      CommitmentsAddUp(su, x);
    }
  }

  lemma CommitmentsAddUp(su: Setup, x: int)
    requires Committed(su) && PolysOf(su.ids, AllCommitments(su))
    ensures CommitSum(su.ids, AllCommitments(su), x) % su.c.q == (su.c.h * F(su, x)) % su.c.q
  {
    CommittedSum(su.ids, su.polys, AllCommitments(su), su.c.h, x, su.c.q);
    CongMod(CommitSum(su.ids, su.polys, x), su.c.q);
    CongMul(su.c.h, su.c.h, F(su, x), CommitSum(su.ids, su.polys, x), su.c.q);
  }

  lemma GroupKeyFromIntended(su: Setup, i: int, heard: Heard, k: int)
    requires Committed(su) && i in su.all && k in su.all && k != i && HeardIntended(su, i, heard, Rounds(su.v))
    ensures GroupKeyFrom(su, i, heard, k) == Some(F(su, k))
  {
    assert HeardFrom(su, i, heard, k, Rounds(su.v));
    if su.v.Malicious? {
      HeardLess(su, i, heard, 4, 1);
      KnownPolysIntended(su, i, heard);
      ProofOfGroupKey(su, F(su, k), su.w(k, 3));
      assert heard[k][3] == Intended(su, k, i, 3);
    } else {
      assert heard[k][2] == Intended(su, k, i, 2);
    }
  }

  lemma HeardLess(su: Setup, i: int, heard: Heard, r: nat, x: nat)
    requires Committed(su) && i in su.all && x <= r <= Rounds(su.v) && HeardIntended(su, i, heard, r)
    ensures HeardIntended(su, i, heard, x)
  {
    forall k | k in su.all && k != i ensures HeardFrom(su, i, heard, k, x) {
      assert HeardFrom(su, i, heard, k, r);
    }
  }

  // ------------------------------------------------------------------ the program

  /** How many messages from everybody the message of round r depends on. */
  function Needs(v: Variant, r: nat): nat
    requires r < Rounds(v)
  {
    if v.Malicious? then r else if r == 2 then 2 else 0
  }

  lemma NoComplaintsIntended(su: Setup, i: int, heard: Heard)
    requires Committed(su) && su.v.Malicious? && i in su.all && HeardIntended(su, i, heard, 2)
    ensures NoComplaints(su, i, heard)
  {
    forall k | k in su.all && k != i
      ensures HasMsg(heard, k, 1) && heard[k][1] == Intended(su, k, i, 1) && CheckFrom(su, i, heard, k) == Value(true)
    {
      assert HeardFrom(su, i, heard, k, 2);
      HeardLess(su, i, heard, 2, 1);
      CheckFromIntended(su, i, heard, k);
    }
  }

  lemma ResultsIntended(su: Setup, i: int, heard: Heard, j: int)
    requires Committed(su) && su.v.Malicious? && i in su.all && j in su.all && i != j && HeardIntended(su, i, heard, 1)
    ensures Produce(su, i, heard, j, 1) == Some(Intended(su, i, j, 1))
  {
    forall k | k in su.all && k != i ensures CheckFrom(su, i, heard, k) == Value(true) {
      CheckFromIntended(su, i, heard, k);
    }
    assert (map k | k in su.all && k != i :: CheckFrom(su, i, heard, k).value) == map k | k in su.all && k != i :: true;
  }

  /** Party i stops instead of sending its messages of round r. */
  ghost predicate Blocked(su: Setup, i: int, r: nat)
    requires Committed(su) && i in su.all
  {
    (r == 0 && HasZeroShare(su, i)) || (su.v.SemiHonest? && r == 2 && (F(su, i) == 0 || F(su, 0) == 0))
  }

  /** Having heard the intended messages, the party sends the intended message or stops because of a zero. */
  lemma ProduceIntended(su: Setup, i: int, heard: Heard, j: int, r: nat)
    requires Committed(su) && i in su.all && j in su.all && i != j && r < Rounds(su.v)
    requires HeardIntended(su, i, heard, Needs(su.v, r))
    ensures Produce(su, i, heard, j, r) == if Blocked(su, i, r) then None else Some(Intended(su, i, j, r))
  {
    if r == 0 {
    } else if su.v.SemiHonest? {
      if r == 2 {
        HeardLess(su, i, heard, 2, 1);
        GroupSecretIntended(su, i, heard);
        MasterKeyIntended(su, i, heard);
      }
    } else if r == 1 {
      ResultsIntended(su, i, heard, j);
    } else if r == 2 {
      NoComplaintsIntended(su, i, heard);
      CommitmentHead(su, i);
      ProofOfKey(su, i);
    } else {
      HeardLess(su, i, heard, 3, 1);
      GroupSecretIntended(su, i, heard);
      MasterKeyIntended(su, i, heard);
      ProofOfGroupKey(su, F(su, i), su.w(i, 3));
    }
  }

  /** The values everybody is to end with. */
  ghost function Agreed(su: Setup, i: int): Output
    requires Committed(su) && i in su.all
  {
    Output(F(su, i), F(su, 0), map k | k in su.all :: F(su, k))
  }

  lemma FinishIntended(su: Setup, i: int, heard: Heard)
    requires Committed(su) && i in su.all && HeardIntended(su, i, heard, Rounds(su.v))
    ensures Finish(su, i, heard) == if ZeroKey(su) then None else Some(Agreed(su, i))
  {
    HeardLess(su, i, heard, Rounds(su.v), 1);
    HeardLess(su, i, heard, Rounds(su.v), if su.v.SemiHonest? then 2 else 3);
    GroupSecretIntended(su, i, heard);
    MasterKeyIntended(su, i, heard);
    GroupKeysIntended(su, i, heard);
    ZeroAgreed(su, i);
  }

  lemma ZeroAgreed(su: Setup, i: int)
    requires Committed(su) && i in su.all
    ensures ZeroKey(su) <==> F(su, 0) == 0 || AnyZero(Agreed(su, i).pks)
  {
    var pks := Agreed(su, i).pks;
    assert forall k :: k in su.all ==> pks[k] == F(su, k);
  }

  lemma GroupKeysIntended(su: Setup, i: int, heard: Heard)
    requires Committed(su) && i in su.all && HeardIntended(su, i, heard, Rounds(su.v))
    ensures GroupKeysWith(su, i, heard, F(su, i)) == Some(Agreed(su, i).pks)
  {
    forall k | k in su.all && k != i ensures GroupKeyFrom(su, i, heard, k) == Some(F(su, k)) {
      GroupKeyFromIntended(su, i, heard, k);
    }
    var pks := map k | k in su.all :: if k == i then F(su, i) else GroupKeyFrom(su, i, heard, k).value;
    assert pks == Agreed(su, i).pks;
  }

  lemma SecondGenerator(su: Setup)
    requires Committed(su)
    ensures !Cong(su.c.h, 0, su.c.q)
  {
    if Cong(su.c.h, 0, su.c.q) {
      CongSmall(su.c.h, 0, su.c.q);
    }
  }
}
