/**
  The program of one honest party of the distributed key generation, for both variants: what it
  sends in each round as a function of what it has received, and what it ends with.
*/
module DkgParty {
  import opened Collections
  import opened Field
  import opened Polynomial
  import opened Shamir
  import opened Dleq
  import opened Disputes
  import opened GroupKeys

  datatype Variant = SemiHonest | Malicious

  datatype Msg =
    | Share(s: int) | PublicKey(pk: int) | GroupKey(gpk: int)
    | VssShare(payload: Payload) | Results(results: map<int, bool>)
    | ProvedKey(key: PkPayload) | ProvedGroupKey(group: GpkPayload)

  /**
    Everything that is fixed before a run: the parties, the order in which each of them lists all, and all random
    choices.
  */
  datatype Setup = Setup(v: Variant, c: Crypto, ids: seq<int>, all: set<int>, orders: map<int, seq<int>>,
                         polys: map<int, seq<int>>,
                         keys: map<int, int>, encrypt: (int, int) -> int, sign: (int, int) -> int, w: (int, int) -> int)

  datatype Output = Output(gsk: int, mpk: int, pks: map<int, int>)

  function Rounds(v: Variant): nat {
    if v.SemiHonest? then 3 else 4
  }

  /** The joint polynomial at x. */
  ghost function F(su: Setup, x: int): int
    requires 0 < su.c.q && PolysOf(su.ids, su.polys)
  {
    CommitSum(su.ids, su.polys, x) % su.c.q
  }

  ghost predicate Committed(su: Setup) {
    && Prime(su.c.q) && 0 < su.c.h < su.c.q
    && Lists(su.ids, su.all) && su.polys.Keys == su.all && su.keys.Keys == su.all
    && su.orders.Keys == su.all
    && PolysOf(su.ids, su.polys)
    && (forall i :: i in su.all ==>
      0 < i < su.c.q && 0 <= su.keys[i] < su.c.q && su.polys[i] != [] && InField(su.polys[i], su.c.q))
    && (forall k, s :: su.c.decrypt(k, su.encrypt(k, s)) == Some(s))
  }

  /** A zero scalar is not a secret key, and the point at infinity not a public key: a party that meets one stops. */
  ghost predicate HasZeroShare(su: Setup, i: int)
    requires Committed(su) && i in su.all
  {
    exists j :: j in su.all && ShareOf(su.polys[i], j, su.c.q) == 0
  }

  ghost predicate ZeroKey(su: Setup)
    requires Committed(su)
  {
    F(su, 0) == 0 || exists k :: k in su.all && F(su, k) == 0
  }

  ghost predicate NoZeroKey(su: Setup)
    requires Committed(su)
  {
    !ZeroKey(su) && forall i :: i in su.all ==> !HasZeroShare(su, i)
  }

  // ------------------------------------------------------------------ local data

  ghost function PartyOf(su: Setup, i: int): Party
    requires i in su.keys
  {
    Party(i, su.keys[i], map k | k in su.keys && k != i :: su.keys[k])
  }

  ghost function CommitmentsOf(su: Setup, i: int): seq<int>
    requires 0 < su.c.q && i in su.polys
  {
    ReduceAll(Scale(su.polys[i], su.c.h), su.c.q)
  }

  ghost function AllCommitments(su: Setup): (m: map<int, seq<int>>)
    requires 0 < su.c.q
  {
    map k | k in su.polys :: CommitmentsOf(su, k)
  }

  type Heard = map<int, seq<Msg>>

  ghost predicate HasMsg(heard: Heard, k: int, r: nat) {
    k in heard && r < |heard[k]|
  }

  /** The share received from k; none when it did not arrive or cannot be opened. */
  ghost function ShareFrom(su: Setup, i: int, heard: Heard, k: int): Option<int>
    requires Committed(su) && i in su.all && k in su.all
  {
    if k == i then Some(ShareOf(su.polys[i], i, su.c.q))
    else if !HasMsg(heard, k, 0) then None
    else match heard[k][0]
      case Share(s) => if su.v.SemiHonest? then Some(s) else None
      case VssShare(p) =>
        var o := OpenShare(su.c, PartyOf(su, i), k, p);
        if su.v.Malicious? && o.Value? then Some(o.value) else None
      case _ => None
  }

  /** The group secret key: the sum of all shares; none when a share is missing. */
  ghost function GroupSecret(su: Setup, i: int, heard: Heard): Option<int>
    requires Committed(su) && i in su.all
  {
    if forall k :: k in su.all ==> ShareFrom(su, i, heard, k).Some? then
      Some(Sum(su.ids, map k | k in su.all :: ShareFrom(su, i, heard, k).value) % su.c.q)
    else None
  }

  /** The public key of k's own secret, checked against k's commitments in the second variant. */
  ghost function KeyFrom(su: Setup, i: int, heard: Heard, k: int): Option<int>
    requires Committed(su) && i in su.all && k in su.all
  {
    if k == i then Some(ShareOf(su.polys[i], 0, su.c.q))
    else if su.v.SemiHonest? then
      if HasMsg(heard, k, 1) && heard[k][1].PublicKey? then Some(heard[k][1].pk) else None
    else if HasMsg(heard, k, 2) && heard[k][0].VssShare? && heard[k][0].payload.commitments != []
            && heard[k][2].ProvedKey?
            && AcceptsPk(su.c, heard[k][0].payload.commitments, heard[k][2].key)
      then Some(heard[k][2].key.pk)
    else None
  }

  ghost function MasterKey(su: Setup, i: int, heard: Heard): Option<int>
    requires Committed(su) && i in su.all
  {
    if forall k :: k in su.all ==> KeyFrom(su, i, heard, k).Some? then
      Some(Sum(su.ids, map k | k in su.all :: KeyFrom(su, i, heard, k).value) % su.c.q)
    else None
  }

  /** The committed polynomials as this party knows them. */
  ghost function KnownPolys(su: Setup, i: int, heard: Heard): (m: map<int, seq<int>>)
    requires Committed(su) && i in su.all
  {
    map k | k in su.all ::
      if k == i then CommitmentsOf(su, i)
      else if HasMsg(heard, k, 0) && heard[k][0].VssShare? then heard[k][0].payload.commitments
      else []
  }

  ghost function GroupKeyFrom(su: Setup, i: int, heard: Heard, k: int): Option<int>
    requires Committed(su) && i in su.all && k in su.all && k != i
  {
    if su.v.SemiHonest? then
      if HasMsg(heard, k, 2) && heard[k][2].GroupKey? then Some(heard[k][2].gpk) else None
    else
      var polys := KnownPolys(su, i, heard);
      if HasMsg(heard, k, 3) && heard[k][3].ProvedGroupKey? && PolysOf(su.ids, polys)
         && AcceptsGpk(su.c, su.ids, polys, k, heard[k][3].group)
      then Some(heard[k][3].group.gpk) else None
  }

  /** Everybody's group key, together with the own one. */
  ghost function GroupKeysWith(su: Setup, i: int, heard: Heard, own: int): Option<map<int, int>>
    requires Committed(su) && i in su.all
  {
    if forall k :: k in su.all && k != i ==> GroupKeyFrom(su, i, heard, k).Some? then
      Some(map k | k in su.all :: if k == i then own else GroupKeyFrom(su, i, heard, k).value)
    else None
  }

  /** The check of the share received from k. */
  ghost function CheckFrom(su: Setup, i: int, heard: Heard, k: int): Outcome<bool>
    requires Committed(su) && i in su.all
  {
    if HasMsg(heard, k, 0) && heard[k][0].VssShare?
    then CheckShare(su.c, PartyOf(su, i), k, heard[k][0].payload)
    else Panic
  }

  /** Own checks passed and everybody reports that theirs passed: no claim is issued or expected. */
  ghost predicate NoComplaints(su: Setup, i: int, heard: Heard)
    requires Committed(su) && i in su.all
  {
    forall k :: k in su.all && k != i ==>
      && CheckFrom(su, i, heard, k) == Value(true)
      && HasMsg(heard, k, 1) && heard[k][1].Results? && forall x :: x in heard[k][1].results ==> heard[k][1].results[x]
  }

  // ------------------------------------------------------------------ the program

  /** The message for j in round r; none when the party stops with an error. */
  ghost function Produce(su: Setup, i: int, heard: Heard, j: int, r: nat): Option<Msg>
    requires Committed(su) && i in su.all && j in su.all && i != j && r < Rounds(su.v)
  {
    var q := su.c.q;
    if r == 0 then
      var share := ShareOf(su.polys[i], j, q);
      if HasZeroShare(su, i) then None
      else if su.v.SemiHonest? then Some(Share(share))
      else
        var text := su.encrypt((su.keys[j] * su.keys[i]) % q, share);
        Some(VssShare(Payload(text, su.sign(su.keys[i], text), CommitmentsOf(su, i))))
    else if su.v.SemiHonest? then
      if r == 1 then Some(PublicKey(ShareOf(su.polys[i], 0, q)))
      else
        var g, m := GroupSecret(su, i, heard), MasterKey(su, i, heard);
        if g.None? || g.value == 0 || m.None? || m.value == 0 then None else Some(GroupKey(g.value))
    else if r == 1 then
      if forall k :: k in su.all && k != i ==> CheckFrom(su, i, heard, k).Value?
      then Some(Results(map k | k in su.all && k != i :: CheckFrom(su, i, heard, k).value))
      else None
    else if r == 2 then
      if !NoComplaints(su, i, heard) then None
      else
        var pk := ShareOf(su.polys[i], 0, q);
        var p := DleqProve(1, pk, su.c.h, CommitmentsOf(su, i)[0], su.polys[i][0], su.w(i, 2), su.c.hash, q);
        if p.InvalidInput? then None else Some(ProvedKey(PkPayload(pk, p.proof)))
    else
      var g := GroupSecret(su, i, heard);
      if MasterKey(su, i, heard).None? || g.None? then None
      else
        var aux := (su.c.h * g.value) % q;
        var p := DleqProve(1, g.value, su.c.h, aux, g.value, su.w(i, 3), su.c.hash, q);
        if p.InvalidInput? then None else Some(ProvedGroupKey(GpkPayload(g.value, aux, p.proof)))
  }

  ghost predicate AnyZero(m: map<int, int>) {
    exists k :: k in m && m[k] == 0
  }

  /** What `run` returns once everything has been received; none for an error. */
  ghost function Finish(su: Setup, i: int, heard: Heard): Option<Output>
    requires Committed(su) && i in su.all
  {
    var g := GroupSecret(su, i, heard);
    var m := MasterKey(su, i, heard);
    if g.None? || m.None? || m.value == 0 then None
    else
      var pks := GroupKeysWith(su, i, heard, g.value);
      if pks.None? || AnyZero(pks.value) then None
      else Some(Output(g.value, m.value, pks.value))
  }

  // ------------------------------------------------------------------ the intended messages

  ghost function ProofOf(r: ProveResult): Proof {
    if r.Proved? then r.proof else Proof(0, 0)
  }

  /** What an honest i sends to j in round r, in terms of the joint polynomial. */
  ghost function Intended(su: Setup, i: int, j: int, r: nat): Msg
    requires Committed(su) && i in su.all && j in su.all && i != j && r < Rounds(su.v)
  {
    var q, h := su.c.q, su.c.h;
    if su.v.SemiHonest? then
      if r == 0 then Share(ShareOf(su.polys[i], j, q))
      else if r == 1 then PublicKey(ShareOf(su.polys[i], 0, q))
      else GroupKey(F(su, i))
    else if r == 0 then
      var text := su.encrypt((su.keys[j] * su.keys[i]) % q, ShareOf(su.polys[i], j, q));
      VssShare(Payload(text, su.sign(su.keys[i], text), CommitmentsOf(su, i)))
    else if r == 1 then Results(map k | k in su.all && k != i :: true)
    else if r == 2 then
      var pk := ShareOf(su.polys[i], 0, q);
      ProvedKey(PkPayload(pk,
        ProofOf(DleqProve(1, pk, h, CommitmentsOf(su, i)[0], su.polys[i][0], su.w(i, 2), su.c.hash, q))))
    else
      var aux := (h * F(su, i)) % q;
      ProvedGroupKey(GpkPayload(F(su, i), aux,
        ProofOf(DleqProve(1, F(su, i), h, aux, F(su, i), su.w(i, 3), su.c.hash, q))))
  }

  /** The first r messages from everybody are the intended ones. */
  ghost predicate HeardIntended(su: Setup, i: int, heard: Heard, r: nat)
    requires Committed(su) && i in su.all && r <= Rounds(su.v)
  {
    forall k :: k in su.all && k != i ==> HeardFrom(su, i, heard, k, r)
  }

  ghost predicate HeardFrom(su: Setup, i: int, heard: Heard, k: int, r: nat)
    requires Committed(su) && i in su.all && k in su.all && k != i && r <= Rounds(su.v)
  {
    k in heard && r <= |heard[k]| && forall x :: 0 <= x < r ==> heard[k][x] == Intended(su, k, i, x)
  }
}
