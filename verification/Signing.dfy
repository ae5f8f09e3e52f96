/**
  Signing duties with a distributed key, from one operator's checks to the committee's aggregates.

  The rule protected is the one of "How to avoid slashing" in the Ethereum consensus specifications
  (phase0/validator.md): no two signed blocks for one slot, and no two attestations one of which is a
  double vote or surrounds the other.
*/
module Signing {
  import opened Aggregation
  import opened Collections
  import Doppelganger

  /** A duty of validator `va`; `root` stands for everything else the signing root depends on. */
  datatype Message =
    | Block(va: int, slot: nat, root: int)
    | Attestation(va: int, source: nat, target: nat, root: int)

  predicate Slashable(m: Message, n: Message) {
    && m.va == n.va && m != n
    && match (m, n)
       case (Block(_, s, _), Block(_, s', _)) => s == s'
       case (Attestation(_, s, t, _), Attestation(_, s', t', _)) => t == t' || (s < s' && t' < t) || (s' < s && t < t')
       case _ => false
  }

  ghost predicate ConflictFree(db: set<Message>) {
    forall m, n :: m in db && n in db ==> !Slashable(m, n)
  }

  /** m goes on from n: a later slot, or a later target without an earlier source. */
  predicate GoesOn(n: Message, m: Message) {
    match (n, m)
    case (Block(_, s, _), Block(_, s', _)) => s < s'
    case (Attestation(_, s, t, _), Attestation(_, s', t', _)) => s <= s' && t < t'
    case _ => true
  }

  // ------------------------------------------------------------------ one operator

  /**
    What an operator holds: its slashing protection records, the duties it has been cleared to sign but has
    not signed yet, and its stored partial signatures.
  */
  datatype Node = Node(db: set<Message>, cleared: set<Message>, store: set<Message>) {
    ghost predicate Valid() {
      cleared <= db && store <= db && ConflictFree(db)
    }
  }

  /** The atomic check-and-insert of the slashing protection database answers that m is safe. */
  ghost predicate Cleared(a: Node, b: Node, m: Message) {
    && m !in a.db && (forall n :: n in a.db ==> !Slashable(n, m))
    && b == Node(a.db + {m}, a.cleared + {m}, a.store)
  }

  /** `local_sign_and_store`. */
  ghost predicate Signed(a: Node, b: Node, m: Message) {
    m in a.cleared && b == Node(a.db, a.cleared - {m}, a.store + {m})
  }

  /** The doppelganger check or the lookup of the signing method refuses after the record was made. */
  ghost predicate Dropped(a: Node, b: Node, m: Message) {
    m in a.cleared && b == Node(a.db, a.cleared - {m}, a.store)
  }

  ghost predicate NodeStep(a: Node, b: Node, m: Message) {
    Cleared(a, b, m) || Signed(a, b, m) || Dropped(a, b, m)
  }

  /** One whole call: nothing happens, or the record is made and then the duty is signed or dropped. */
  ghost predicate Call(a: Node, b: Node, m: Message) {
    a == b || exists mid :: Cleared(a, mid, m) && (Signed(mid, b, m) || Dropped(mid, b, m))
  }

  datatype SlashingStatus = Safe | SameData | UnregisteredValidator | NotSafe

  datatype SignResult =
    | LocallySigned
    | GreaterThanCurrent
    | SkippedSameData
    | RefusedSlashable(unregistered: bool)
    | DoppelgangerProtected
    | UnknownPubkey

  /** `ValidatorStore` of one operator, with the stores it writes to. */
  class Operator {
    const service: Doppelganger.Service? // null if doppelganger protection is switched off
    var registered: set<int>
    var known: set<int>
    var db: set<Message>
    var store: set<Message>

    ghost function Holds(): (n: Node)
      reads this
    {
      Node(db, {}, store)
    }

    /** The doppelganger service has nothing against signing for va. */
    predicate Allows(va: int)
      reads service
    {
      service == null || (va in service.states && service.states[va].remaining == 0)
    }

    constructor (service: Doppelganger.Service?, registered: set<int>, known: set<int>)
      ensures this.service == service && this.registered == registered && this.known == known
      ensures Holds() == Node({}, {}, {})
    {
      this.service := service;
      this.registered := registered;
      this.known := known;
      db := {};
      store := {};
    }

    method CheckAndInsert(m: Message) returns (r: SlashingStatus)
      modifies `db
      ensures r == Safe ==> Cleared(Node(old(db), {}, store), Node(db, {m}, store), m)
      ensures r != Safe ==> db == old(db)
      ensures r == UnregisteredValidator <==> m.va !in registered
      ensures r == SameData <==> m.va in registered && m in old(db)
      ensures r == NotSafe <==> m.va in registered && m !in old(db) && exists n :: n in old(db) && Slashable(n, m)
    {
      if m.va !in registered {
        return UnregisteredValidator;
      }
      if m in db {
        return SameData;
      }
      if exists n :: n in db && Slashable(n, m) {
        return NotSafe;
      }
      db := db + {m};
      return Safe;
    }

    /**
      `sign_block` and `sign_attestation` for the distributed key; `current` is the slot or the target epoch of now.
    */
    method Sign(m: Message, current: nat) returns (r: SignResult)
      modifies `db, `store
      ensures Call(old(Holds()), Holds(), m)
      ensures m.Block? ==> (r == GreaterThanCurrent <==> m.slot > current)
      ensures m.Attestation? ==> (r == GreaterThanCurrent <==> m.target > current)
      ensures r == GreaterThanCurrent ==> db == old(db) && store == old(store)
      ensures r == RefusedSlashable(true) <==> r != GreaterThanCurrent && m.va !in registered
      ensures r == SkippedSameData <==> r != GreaterThanCurrent && m.va in registered && m in old(db)
      ensures r == RefusedSlashable(false) <==>
        r != GreaterThanCurrent && m.va in registered && m !in old(db) && exists n :: n in old(db) && Slashable(n, m)
      ensures (forall n :: n in old(db) && n.va == m.va ==> GoesOn(n, m)) ==> r != RefusedSlashable(false)
      ensures db == if r in {LocallySigned, DoppelgangerProtected, UnknownPubkey} then old(db) + {m} else old(db)
      ensures service != null && r in {LocallySigned, UnknownPubkey} ==>
        m.va in service.states && service.states[m.va].remaining == 0
      ensures r == DoppelgangerProtected ==>
        service != null && (m.va in service.states ==> service.states[m.va].remaining > 0)
      ensures r == LocallySigned ==> Allows(m.va) && m.va in known && store == old(store) + {m}
      ensures r != LocallySigned ==> store == old(store)
      ensures r == DoppelgangerProtected ==> !Allows(m.va) && m in db
      ensures r == UnknownPubkey ==> Allows(m.va) && m.va !in known && m in db
    {
      if When(m) > current {
        return GreaterThanCurrent;
      }
      ghost var before := Holds();
      var status := CheckAndInsert(m);
      if status == SameData {
        return SkippedSameData;
      }
      if status == UnregisteredValidator || status == NotSafe {
        return RefusedSlashable(status == UnregisteredValidator);
      }
      ghost var mid := Node(db, {m}, store);
      var enabled := true;
      if service != null {
        var status := service.ValidatorStatus(m.va);
        enabled := status == Doppelganger.SigningEnabled;
      }
      if !enabled {
        assert Dropped(mid, Holds(), m);
        return DoppelgangerProtected;
      }
      if m.va !in known {
        assert Dropped(mid, Holds(), m);
        return UnknownPubkey;
      }
      store := store + {m};
      assert Signed(mid, Holds(), m);
      return LocallySigned;
    }
  }

  /** The slot of a block, the target epoch of an attestation. */
  function When(m: Message): nat {
    match m
    case Block(_, slot, _) => slot
    case Attestation(_, _, target, _) => target
  }

  lemma StepKeepsNodeValid(a: Node, b: Node, m: Message)
    requires a.Valid() && NodeStep(a, b, m)
    ensures b.Valid()
  {
    if Cleared(a, b, m) {
      forall x, y | x in b.db && y in b.db ensures !Slashable(x, y) {
        assert x == m || x in a.db;
        assert Slashable(x, y) == Slashable(y, x);
      }
    }
  }

  /** A whole call keeps what a node promises, and adds at most m to its records and its signatures. */
  lemma CallKeepsNodeValid(a: Node, b: Node, m: Message)
    requires a.Valid() && Call(a, b, m)
    ensures b.Valid() && a.db <= b.db <= a.db + {m} && a.store <= b.store <= a.store + {m}
    ensures m in b.store ==> m in a.store || m !in a.db
  {
    if a != b {
      var mid :| Cleared(a, mid, m) && (Signed(mid, b, m) || Dropped(mid, b, m));
      StepKeepsNodeValid(a, mid, m);
      StepKeepsNodeValid(mid, b, m);
    }
  }

  // ------------------------------------------------------------------ the committee

  /** `byz` are the operators that may sign anything; the others follow `Operator.Sign`. */
  datatype Committee = Committee(ops: set<int>, byz: set<int>, t: nat) {
    ghost predicate Valid() {
      byz <= ops && 0 !in ops && 1 <= t
    }
  }

  datatype State = State(nodes: map<int, Node>, aggregates: set<Message>)

  ghost predicate Init(c: Committee, s: State) {
    s.aggregates == {} && s.nodes.Keys == c.ops && forall o :: o in c.ops ==> s.nodes[o] == Node({}, {}, {})
  }

  ghost predicate HonestStep(c: Committee, s: State, s': State, o: int, m: Message) {
    && o in c.ops - c.byz && o in s.nodes && o in s'.nodes
    && NodeStep(s.nodes[o], s'.nodes[o], m)
    && s' == s.(nodes := s.nodes[o := s'.nodes[o]])
  }

  /**
    Entries a collector of partial signatures on m may hold: `ok[i]` says that entry i verifies under the key
    of operator `ids[i]`, which for an honest operator needs a signature it has stored.
  */
  ghost predicate Collected(c: Committee, s: State, m: Message, ids: seq<int>, ok: seq<bool>) {
    && |ids| == |ok|
    && forall i :: 0 <= i < |ids| ==> ids[i] in c.ops && (ok[i] ==> Vouches(c, s, m, ids[i]))
  }

  ghost predicate Vouches(c: Committee, s: State, m: Message, o: int) {
    o in c.byz || (o in s.nodes && m in s.nodes[o].store)
  }

  ghost predicate AggregateStep(c: Committee, s: State, s': State, m: Message, ids: seq<int>, ok: seq<bool>) {
    && Collected(c, s, m, ids, ok)
    && (exists k :: Reached(ids, ok, c.t, k))
    && s' == s.(aggregates := s.aggregates + {m})
  }

  ghost predicate Step(c: Committee, s: State, s': State) {
    || (exists o, m :: HonestStep(c, s, s', o, m))
    || (exists m, ids, ok :: AggregateStep(c, s, s', m, ids, ok))
  }

  ghost predicate Run(c: Committee, states: seq<State>) {
    && |states| > 0 && Init(c, states[0])
    && forall i :: 0 < i < |states| ==> Step(c, states[i - 1], states[i])
  }

  ghost predicate Reachable(c: Committee, s: State) {
    exists states :: Run(c, states) && states[|states| - 1] == s
  }

  // ------------------------------------------------------------------ safety

  /** Q is a set of t operators that vouch for m. */
  ghost predicate Quorum(c: Committee, s: State, m: Message, qs: set<int>) {
    qs <= c.ops && |qs| >= c.t && forall o :: o in qs ==> Vouches(c, s, m, o)
  }

  ghost predicate Inv(c: Committee, s: State) {
    && s.nodes.Keys == c.ops
    && (forall o :: o in c.ops ==> s.nodes[o].Valid())
    && forall m :: m in s.aggregates ==> exists qs :: Quorum(c, s, m, qs)
  }

  lemma AggregateHasQuorum(c: Committee, s: State, m: Message, ids: seq<int>, ok: seq<bool>, k: int)
    requires Collected(c, s, m, ids, ok) && Reached(ids, ok, c.t, k)
    ensures Quorum(c, s, m, VerifiedIds(ids, ok, k))
  {
    FirstsCountOperators(ids, ok, k);
  }

  lemma HonestKeepsInv(c: Committee, s: State, s': State, o: int, m: Message)
    requires Inv(c, s) && HonestStep(c, s, s', o, m)
    ensures Inv(c, s')
  {
    StepKeepsNodeValid(s.nodes[o], s'.nodes[o], m);
    forall x | x in s'.aggregates ensures exists qs :: Quorum(c, s', x, qs) {
      var qs :| Quorum(c, s, x, qs);
      forall p | p in qs ensures Vouches(c, s', x, p) {
        assert Vouches(c, s, x, p);
      }
      assert Quorum(c, s', x, qs);
    }
  }

  lemma AggregateKeepsInv(c: Committee, s: State, s': State, m: Message, ids: seq<int>, ok: seq<bool>)
    requires Inv(c, s) && AggregateStep(c, s, s', m, ids, ok)
    ensures Inv(c, s')
  {
    forall x | x in s'.aggregates ensures exists qs :: Quorum(c, s', x, qs) {
      if x in s.aggregates {
        var qs :| Quorum(c, s, x, qs);
        assert Quorum(c, s', x, qs) by {
          assert forall p :: p in qs ==> Vouches(c, s, x, p);
        }
      } else {
        var k :| Reached(ids, ok, c.t, k);
        AggregateHasQuorum(c, s', m, ids, ok, k);
      }
    }
  }

  lemma {:induction false} RunKeepsInv(c: Committee, states: seq<State>)
    requires Run(c, states)
    ensures Inv(c, states[|states| - 1])
  {
    var n := |states| - 1;
    if n > 0 {
      RunKeepsInv(c, states[..n]);
      var s, s' := states[n - 1], states[n];
      assert Step(c, s, s');
      if o, m :| HonestStep(c, s, s', o, m) {
        HonestKeepsInv(c, s, s', o, m);
      } else {
        var m, ids, ok :| AggregateStep(c, s, s', m, ids, ok);
        AggregateKeepsInv(c, s, s', m, ids, ok);
      }
    }
  }

  /** Two quorums share an operator that is not misbehaving. */
  lemma QuorumsMeet(ops: set<int>, byz: set<int>, a: set<int>, b: set<int>) returns (o: int)
    requires a <= ops && b <= ops && |a| + |b| > |ops| + |byz|
    ensures o in a && o in b && o !in byz
  {
    SubsetSize(a + b, ops);
    assert |a + b| + |a * b| == |a| + |b|;
    o := Outside(a * b, byz);
  }

  /** No validator has two aggregated blocks for one slot, two attestations for one target, or one around another. */
  ghost predicate NoSlashablePair(s: State) {
    forall m, n :: m in s.aggregates && n in s.aggregates && m != n && m.va == n.va ==>
      && (m.Block? && n.Block? ==> m.slot != n.slot)
      && (m.Attestation? && n.Attestation? ==> m.target != n.target)
      && (m.Attestation? && n.Attestation? ==> !(m.source < n.source && n.target < m.target))
  }

  lemma QuorumsAgree(c: Committee, s: State)
    requires c.Valid() && 2 * c.t > |c.ops| + |c.byz| && Inv(c, s)
    ensures NoSlashablePair(s)
  {
    forall m, n | m in s.aggregates && n in s.aggregates ensures !Slashable(m, n) && !Slashable(n, m) {
      var a :| Quorum(c, s, m, a);
      var b :| Quorum(c, s, n, b);
      var o := QuorumsMeet(c.ops, c.byz, a, b);
      assert Vouches(c, s, m, o) && Vouches(c, s, n, o);
      assert s.nodes[o].Valid();
    }
  }

  // ------------------------------------------------------------------ the bound is exact

  lemma Extend(c: Committee, s: State, s': State)
    requires Reachable(c, s) && Step(c, s, s')
    ensures Reachable(c, s')
  {
    var states :| Run(c, states) && states[|states| - 1] == s;
    var more := states + [s'];
    assert Run(c, more) && more[|more| - 1] == s';
  }

  /** An operator that has not recorded anything can be brought to sign m. */
  lemma CanSign(c: Committee, s: State, o: int, m: Message) returns (s': State)
    requires Reachable(c, s) && o in c.ops - c.byz && o in s.nodes && s.nodes[o] == Node({}, {}, {})
    ensures Reachable(c, s') && s' == s.(nodes := s.nodes[o := Node({m}, {}, {m})])
  {
    var mid := s.(nodes := s.nodes[o := Node({m}, {m}, {})]);
    assert Cleared(s.nodes[o], mid.nodes[o], m);
    assert HonestStep(c, s, mid, o, m);
    Extend(c, s, mid);
    s' := s.(nodes := s.nodes[o := Node({m}, {}, {m})]);
    assert mid.nodes[o := s'.nodes[o]] == s'.nodes;
    assert Signed(mid.nodes[o], s'.nodes[o], m);
    assert HonestStep(c, mid, s', o, m);
    Extend(c, mid, s');
  }

  /** The operators in `who` have signed m, and nobody else changed. */
  ghost predicate SignedBy(s: State, s': State, who: set<int>, m: Message) {
    && s'.aggregates == s.aggregates && s'.nodes.Keys == s.nodes.Keys
    && forall o :: o in s.nodes ==> s'.nodes[o] == if o in who then Node({m}, {}, {m}) else s.nodes[o]
  }

  ghost predicate Untouched(s: State, who: set<int>) {
    forall o :: o in who ==> o in s.nodes && s.nodes[o] == Node({}, {}, {})
  }

  lemma {:induction false} CanAllSign(c: Committee, s: State, who: set<int>, m: Message) returns (s': State)
    requires Reachable(c, s) && who <= c.ops - c.byz && Untouched(s, who)
    ensures Reachable(c, s') && SignedBy(s, s', who, m)
    decreases who
  {
    if who == {} {
      return s;
    }
    Inhabited(who);
    var o :| o in who;
    var mid := CanAllSign(c, s, who - {o}, m);
    s' := CanSign(c, mid, o, m);
  }

  /** The entries of a collector that holds one verifying signature of everybody in `who`. */
  lemma {:induction false} Listing(who: set<int>) returns (ids: seq<int>, ok: seq<bool>)
    ensures |ids| == |ok| && forall i :: 0 <= i < |ids| ==> ids[i] in who && ok[i]
    ensures VerifiedIds(ids, ok, |ids|) == who
    decreases who
  {
    if who == {} {
      return [], [];
    }
    Inhabited(who);
    var o :| o in who;
    var rest, fine := Listing(who - {o});
    ids, ok := rest + [o], fine + [true];
    VerifiedStep(ids, ok, |rest|);
    assert forall i :: 0 <= i < |rest| ==> ids[i] == rest[i] && ok[i] == fine[i];
    assert VerifiedIds(ids, ok, |rest|) == VerifiedIds(rest, fine, |rest|);
  }

  lemma CanAggregate(c: Committee, s: State, m: Message, qs: set<int>) returns (s': State)
    requires c.Valid() && Reachable(c, s) && Quorum(c, s, m, qs)
    ensures Reachable(c, s') && s' == s.(aggregates := s.aggregates + {m})
  {
    var ids, ok := Listing(qs);
    s' := s.(aggregates := s.aggregates + {m});
    ReachedIffEnough(ids, ok, c.t);
    assert AggregateStep(c, s, s', m, ids, ok);
    Extend(c, s, s');
  }

  lemma {:induction false} SubsetOfSize(s: set<int>, k: nat) returns (r: set<int>)
    requires k <= |s|
    ensures r <= s && |r| == k
    decreases k
  {
    if k == 0 {
      return {};
    }
    var rest := SubsetOfSize(s, k - 1);
    var o := Outside(s, rest);
    r := rest + {o};
  }

  /** With 2t <= n + f the honest operators split in two: each half and the misbehaving ones make a quorum. */
  lemma Split(ops: set<int>, f: nat, t: nat) returns (byz: set<int>, a: set<int>, b: set<int>)
    requires f <= |ops| && 2 * t <= |ops| + f
    ensures byz <= ops && |byz| == f
    ensures a <= ops - byz && b <= ops - byz && a !! b
    ensures |byz + a| >= t && |byz + b| >= t
  {
    byz := SubsetOfSize(ops, f);
    var k := if t > f then t - f else 0;
    assert |ops - byz| == |ops| - f;
    a := SubsetOfSize(ops - byz, k);
    assert |ops - byz - a| == |ops| - f - k;
    b := SubsetOfSize(ops - byz - a, k);
    assert |byz + a| == f + k && |byz + b| == f + k;
  }

  lemma Initial(c: Committee) returns (s: State)
    ensures Init(c, s) && Reachable(c, s)
  {
    s := State(map o | o in c.ops :: Node({}, {}, {}), {});
    assert Run(c, [s]) && [s][|[s]| - 1] == s;
  }

  lemma PairIsSlashable(s: State, m: Message, n: Message)
    requires Slashable(m, n) && m in s.aggregates && n in s.aggregates
    ensures !NoSlashablePair(s)
  {
  }

  lemma CanDoubleSign(c: Committee, a: set<int>, b: set<int>, m: Message, n: Message) returns (s: State)
    requires c.Valid() && Slashable(m, n)
    requires a <= c.ops - c.byz && b <= c.ops - c.byz && a !! b
    requires |c.byz + a| >= c.t && |c.byz + b| >= c.t
    ensures Reachable(c, s) && !NoSlashablePair(s)
  {
    var s0 := Initial(c);
    var s1 := CanAllSign(c, s0, a, m);
    var s2 := CanAllSign(c, s1, b, n);
    forall o | o in c.byz + a ensures Vouches(c, s2, m, o) {
      assert o in a ==> s1.nodes[o] == Node({m}, {}, {m});
    }
    assert Quorum(c, s2, m, c.byz + a);
    var s3 := CanAggregate(c, s2, m, c.byz + a);
    forall o | o in c.byz + b ensures Vouches(c, s3, n, o) {
      assert o in b ==> s2.nodes[o] == Node({n}, {}, {n});
    }
    assert Quorum(c, s3, n, c.byz + b);
    s := CanAggregate(c, s3, n, c.byz + b);
    PairIsSlashable(s, m, n);
  }

  /** No run of a committee with these operators and threshold, at most f of them misbehaving, is slashable. */
  ghost predicate NeverSlashable(ops: set<int>, t: nat, f: nat) {
    forall byz, s :: byz <= ops && |byz| <= f && Reachable(Committee(ops, byz, t), s) ==> NoSlashablePair(s)
  }

  /**
    Aggregates never conflict, in any run, exactly when 2t > n + f. As deployed (3 of 4, one misbehaving),
    they do not.
  */
  lemma NeverSlashableIff(ops: set<int>, t: nat, f: nat)
    requires 0 !in ops && 1 <= t && f <= |ops|
    ensures NeverSlashable(ops, t, f) <==> 2 * t > |ops| + f
    ensures |ops| == 4 && t == 3 && f == 1 ==> NeverSlashable(ops, t, f)
  {
    if 2 * t > |ops| + f {
      forall byz, s | byz <= ops && |byz| <= f && Reachable(Committee(ops, byz, t), s) ensures NoSlashablePair(s) {
        var c := Committee(ops, byz, t);
        var states :| Run(c, states) && states[|states| - 1] == s;
        RunKeepsInv(c, states);
        QuorumsAgree(c, s);
      }
    } else {
      var byz, a, b := Split(ops, f, t);
      var s := CanDoubleSign(Committee(ops, byz, t), a, b, Block(0, 0, 0), Block(0, 0, 1));
      assert !NeverSlashable(ops, t, f);
    }
  }
}
