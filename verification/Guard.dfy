/**
  One operator, with its slashing protection, and its doppelganger service together: what the service has seen
  before the operator signs.

  The record is made, the service asked and the signature stored in three steps; anything may happen in between,
  also between two answers that the service works through.
*/
module Guard {
  import Field
  import opened Signing
  import D = Doppelganger

  datatype Act =
    | Tick
    | Watch(e: D.Event)
    | Record(m: Message)
    | Approve(m: Message)
    | Store(m: Message)
    | Drop(m: Message)

  /** `slot` is the current one, `spe` the number of slots in an epoch. */
  datatype Desk = Desk(slot: nat, spe: nat, service: D.World, node: Node, approved: set<Message>)

  /** The block is for a slot, or the attestation for a target epoch, that has not come yet. */
  predicate Ahead(m: Message, slot: nat, spe: nat)
    requires spe > 0
  {
    match m
    case Block(_, s, _) => s > slot
    case Attestation(_, _, t, _) => t > slot / spe
  }

  ghost predicate Does(s: Desk, a: Act, s': Desk) {
    match a
    case Tick => s' == s.(slot := s.slot + 1)
    case Watch(e) => D.Happens(s.service, e, s'.service) && s' == s.(service := s'.service)
    case Record(m) =>
      && s.spe > 0 && !Ahead(m, s.slot, s.spe)
      && Cleared(s.node, s'.node, m) && s' == s.(node := s'.node)
    case Approve(m) =>
      && m in s.node.cleared && m.va in s.service.progress && s.service.progress[m.va].remaining == 0
      && s' == s.(approved := s.approved + {m})
    case Store(m) => m in s.approved && Signed(s.node, s'.node, m) &&
      s' == s.(node := s'.node, approved := s.approved - {m})
    case Drop(m) => Dropped(s.node, s'.node, m) && s' == s.(node := s'.node, approved := s.approved - {m})
  }

  ghost predicate Acts(states: seq<Desk>, acts: seq<Act>) {
    && |states| == |acts| + 1
    && states[0] == Desk(states[0].slot, states[0].spe, D.World(map[], D.Idle), Node({}, {}, {}), {})
    && forall i :: 0 <= i < |acts| ==> Does(states[i], acts[i], states[i + 1])
  }

  // ------------------------------------------------------------------ the two parts of a run

  lemma {:induction false} NodeStaysValid(states: seq<Desk>, acts: seq<Act>, n: nat)
    requires Acts(states, acts) && n <= |acts|
    ensures states[n].node.Valid()
  {
    if n > 0 {
      NodeStaysValid(states, acts, n - 1);
      var s, a, s' := states[n - 1], acts[n - 1], states[n];
      assert Does(s, a, s');
      if a.Record? || a.Store? || a.Drop? {
        StepKeepsNodeValid(s.node, s'.node, a.m);
      }
    }
  }

  ghost function EventOf(a: Act): D.Event {
    if a.Watch? then a.e else D.Other
  }

  /** What the service experiences. */
  ghost function Events(acts: seq<Act>): seq<D.Event> {
    seq(|acts|, i requires 0 <= i < |acts| => EventOf(acts[i]))
  }

  ghost function Worlds(states: seq<Desk>): seq<D.World> {
    seq(|states|, i requires 0 <= i < |states| => states[i].service)
  }

  lemma ServiceRuns(states: seq<Desk>, acts: seq<Act>)
    requires Acts(states, acts)
    ensures D.Run(Worlds(states), Events(acts))
  {
    forall i | 0 <= i < |acts| ensures D.Happens(Worlds(states)[i], Events(acts)[i], Worlds(states)[i + 1]) {
      assert Does(states[i], acts[i], states[i + 1]);
    }
  }

  // ------------------------------------------------------------------ nothing is signed too early

  /** Message m was approved by act p. */
  ghost predicate ApprovedAt(acts: seq<Act>, p: int, n: nat, m: Message) {
    0 <= p < n <= |acts| && acts[p] == Approve(m)
  }

  lemma {:induction false} StoredWasApproved(states: seq<Desk>, acts: seq<Act>, n: nat, m: Message)
    requires Acts(states, acts) && n <= |acts| && (m in states[n].node.store || m in states[n].approved)
    ensures exists p :: ApprovedAt(acts, p, n, m)
  {
    if n > 0 {
      assert Does(states[n - 1], acts[n - 1], states[n]);
      if m in states[n - 1].node.store || m in states[n - 1].approved {
        StoredWasApproved(states, acts, n - 1, m);
        var p :| ApprovedAt(acts, p, n - 1, m);
        assert ApprovedAt(acts, p, n, m);
      } else {
        assert ApprovedAt(acts, n - 1, n, m);
      }
    }
  }

  lemma {:induction false} ClearedWasRecorded(states: seq<Desk>, acts: seq<Act>, n: nat, m: Message) returns (r: nat)
    requires Acts(states, acts) && n <= |acts| && m in states[n].node.cleared
    ensures r < n && acts[r] == Record(m)
  {
    r := n - 1;
    assert Does(states[r], acts[r], states[n]);
    if acts[r] != Record(m) {
      r := ClearedWasRecorded(states, acts, n - 1, m);
    }
  }

  /** Act i registers va, in an epoch after genesis, and va is not registered again before position n. */
  ghost predicate RegisteredAt(acts: seq<Act>, i: nat, n: nat, va: int) {
    && n <= |acts| && D.LastRegistered(Events(acts), i, n, va)
    && Events(acts)[i].epoch > Events(acts)[i].genesis
  }

  /**
    In every run the records never conflict, and a signature is stored only after a record and then an approval;
    if the validator was last registered before that in an epoch e after genesis, the service had by then seen it
    idle in an epoch after e, in or after the last slot of epoch e + 2.
  */
  lemma NobodySignsEarly(states: seq<Desk>, acts: seq<Act>, n: nat, m: Message, spe: nat) returns (p: nat)
    requires Acts(states, acts) && n <= |acts| && m in states[n].node.store && D.OneClock(Events(acts), spe)
    ensures states[n].node.Valid() && m in states[n].node.db
    ensures ApprovedAt(acts, p, n, m) && exists r: nat :: r < p && acts[r] == Record(m)
    ensures forall i: nat :: RegisteredAt(acts, i, p, m.va) ==>
      D.Waited(Worlds(states), Events(acts), i + 1, p, Events(acts)[i].epoch, m.va, spe)
  {
    NodeStaysValid(states, acts, n);
    StoredWasApproved(states, acts, n, m);
    p :| ApprovedAt(acts, p, n, m);
    assert Does(states[p], acts[p], states[p + 1]);
    var r := ClearedWasRecorded(states, acts, p, m);
    ServiceRuns(states, acts);
    forall i: nat | RegisteredAt(acts, i, p, m.va)
      ensures D.Waited(Worlds(states), Events(acts), i + 1, p, Events(acts)[i].epoch, m.va, spe)
    {
      D.NeverEnabledEarly(Worlds(states), Events(acts), i, p, m.va, spe);
    }
  }

  lemma {:induction false} RecordsStay(states: seq<Desk>, acts: seq<Act>, i: nat, n: nat, m: Message)
    requires Acts(states, acts) && i <= n <= |acts| && m in states[i].node.db
    ensures m in states[n].node.db
  {
    if i < n {
      RecordsStay(states, acts, i, n - 1, m);
      assert Does(states[n - 1], acts[n - 1], states[n]);
    }
  }

  /** In every run each duty is recorded, and so signed, at most once. */
  lemma RecordedOnce(states: seq<Desk>, acts: seq<Act>, i: nat, j: nat, m: Message)
    requires Acts(states, acts) && i < j < |acts| && acts[i] == Record(m)
    ensures acts[j] != Record(m)
  {
    assert Does(states[i], acts[i], states[i + 1]);
    RecordsStay(states, acts, i + 1, j, m);
    assert Does(states[j], acts[j], states[j + 1]);
  }

  // ------------------------------------------------------------------ nothing is signed ahead of time

  lemma NextSlot(slot: nat, spe: nat)
    requires spe > 0
    ensures slot / spe <= (slot + 1) / spe
  {
    var d, r := slot / spe, slot % spe;
    if r + 1 < spe {
      Field.QuotientUnique(slot + 1, spe, d, r + 1);
    } else {
      Field.QuotientUnique(slot + 1, spe, d + 1, 0);
    }
  }

  /**
    In every run an operator has records and signatures only for blocks of slots up to the current one and for
    attestations with target epochs up to the current one.
  */
  lemma {:induction false} NothingSignedAhead(states: seq<Desk>, acts: seq<Act>, n: nat, m: Message)
    requires Acts(states, acts) && n <= |acts| && states[n].spe > 0
    requires m in states[n].node.db || m in states[n].node.store
    ensures m.Block? ==> m.slot <= states[n].slot
    ensures m.Attestation? ==> m.target <= states[n].slot / states[n].spe
  {
    NodeStaysValid(states, acts, n);
    if n > 0 {
      var s := states[n - 1];
      assert Does(s, acts[n - 1], states[n]);
      if m in s.node.db {
        NothingSignedAhead(states, acts, n - 1, m);
        NextSlot(s.slot, s.spe);
      }
    }
  }

  // ------------------------------------------------------------------ a duty that is due can be signed

  lemma Continue(states: seq<Desk>, acts: seq<Act>, a: Act, s: Desk) returns (states': seq<Desk>, acts': seq<Act>)
    requires Acts(states, acts) && Does(states[|acts|], a, s)
    ensures Acts(states', acts') && states' == states + [s] && acts' == acts + [a]
  {
    states', acts' := states + [s], acts + [a];
    forall i | 0 <= i < |acts'| ensures Does(states'[i], acts'[i], states'[i + 1]) {
      assert i < |acts| ==> states'[i] == states[i] && states'[i + 1] == states[i + 1] && acts'[i] == acts[i];
    }
  }

  /** The duty is for the current slot or epoch, or an earlier one. */
  predicate Due(m: Message, slot: nat, spe: nat)
    requires spe > 0
  {
    (m.Block? ==> m.slot <= slot) && (m.Attestation? ==> m.target <= slot / spe)
  }

  /** Nothing but the slot of a desk differs. */
  ghost predicate OnlyLater(s: Desk, s': Desk) {
    s'.slot >= s.slot && s' == s.(slot := s'.slot)
  }

  /** Time passes until any given slot. */
  lemma {:induction false} Wait(states: seq<Desk>, acts: seq<Act>, slot: nat)
    returns (states': seq<Desk>, acts': seq<Act>)
    requires Acts(states, acts)
    ensures Acts(states', acts') && OnlyLater(states[|acts|], states'[|acts'|]) && states'[|acts'|].slot >= slot
    decreases slot - states[|acts|].slot
  {
    states', acts' := states, acts;
    var s := states[|acts|];
    if s.slot < slot {
      states', acts' := Continue(states, acts, Tick, s.(slot := s.slot + 1));
      states', acts' := Wait(states', acts', slot);
    }
  }

  lemma EpochReached(epoch: nat, slot: nat, spe: nat)
    requires spe > 0 && slot >= epoch * spe
    ensures epoch <= slot / spe
  {
    var more := slot - epoch * spe;
    assert slot == more % spe + (epoch + more / spe) * spe;
    Field.QuotientUnique(slot, spe, epoch + more / spe, more % spe);
  }

  lemma DueInTime(m: Message, spe: nat) returns (slot: nat)
    requires spe > 0
    ensures forall later: nat :: later >= slot ==> Due(m, later, spe)
  {
    if m.Block? {
      slot := m.slot;
    } else {
      slot := m.target * spe;
      forall later: nat | later >= slot ensures m.target <= later / spe {
        EpochReached(m.target, later, spe);
      }
    }
  }

  /**
    Every run can be continued so that the operator signs m, if m goes on from what it has recorded for the validator
    and the validator is enabled: it only has to wait for the slot or epoch of m.
  */
  lemma DutyCanBeSigned(states: seq<Desk>, acts: seq<Act>, m: Message) returns (states': seq<Desk>, acts': seq<Act>)
    requires Acts(states, acts) && states[|acts|].spe > 0
    requires m !in states[|acts|].node.db && forall n :: n in states[|acts|].node.db && n.va == m.va ==> GoesOn(n, m)
    requires m.va in states[|acts|].service.progress && states[|acts|].service.progress[m.va].remaining == 0
    ensures Acts(states', acts') && m in states'[|acts'|].node.store
  {
    var slot := DueInTime(m, states[|acts|].spe);
    states', acts' := Wait(states, acts, slot);
    var s := states'[|acts'|];
    assert Due(m, s.slot, s.spe);
    var recorded := s.(node := Node(s.node.db + {m}, s.node.cleared + {m}, s.node.store));
    states', acts' := Continue(states', acts', Record(m), recorded);
    var approved := recorded.(approved := recorded.approved + {m});
    states', acts' := Continue(states', acts', Approve(m), approved);
    var node := Node(approved.node.db, approved.node.cleared - {m}, approved.node.store + {m});
    states', acts' := Continue(states', acts', Store(m), approved.(node := node, approved := approved.approved - {m}));
  }
}
