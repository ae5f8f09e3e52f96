/** The acknowledgements that end the connection protocol. */
module ConnectionAcks {
  import opened Collections
  import opened Connection
  import opened ConnectionSafety
  import opened ConnectionRun

  // ------------------------------------------------------------------ what the two ends of a link hold

  /** The one socket between a and b, opened by the higher of them. */
  ghost predicate Joins(s: State, k: nat, a: int, b: int) {
    OneSocket(s.sockets, if a > b then a else b, if a > b then b else a, k, true)
  }

  /** A party that is through with a peer holds the one socket between them, and so does the peer. */
  lemma ChannelJoins(c: Net, s: State, a: int, b: int)
    requires Inv(c, s) && a in c.ids && b in c.ids && a != b && Passed(c.order[a], s.parties[a].phase, b)
    ensures b in s.parties[a].channels && Joins(s, s.parties[a].channels[b], a, b)
    ensures Passed(c.order[b], s.parties[b].phase, a) ==>
      a in s.parties[b].channels && s.parties[b].channels[a] == s.parties[a].channels[b]
  {
    var x, p := if a > b then a else b, if a > b then b else a;
    assert LinkAt(c, s, x, p);
    var e := EndsAt(c, s, x, p);
    var k :| Link(e, k);
  }

  lemma LatePassed(l: seq<int>, ids: set<int>, f: Phase, x: int)
    requires Lists(l, ids) && x in ids && AllPassed(f, l)
    ensures Passed(l, f, x)
  {
  }

  // ------------------------------------------------------------------ one acknowledgement

  predicate Acking(f: Phase) {
    f.SendingAck? || f.AwaitingAck? || f.Done?
  }

  predicate SentTo(l: seq<int>, f: Phase, x: int) {
    (f.SendingAck? && Find(l, x) < f.i) || f.AwaitingAck? || f.Done?
  }

  predicate TakenFrom(l: seq<int>, f: Phase, x: int) {
    (f.AwaitingAck? && Find(l, x) < f.i) || f.Done?
  }

  /**
    An acknowledgement from a (list la, phase f, channels ch) to b (list lb, phase g) that was sent and not
    received is under way, on the channel of a to b.
  */
  predicate AckOk(a: int, la: seq<int>, f: Phase, ch: map<int, nat>, b: int, lb: seq<int>, g: Phase,
                  acks: set<(nat, int)>)
  {
    SentTo(la, f, b) && !TakenFrom(lb, g, a) ==> b in ch && (ch[b], a) in acks
  }

  predicate NextPhase(f: Phase, g: Phase, n: nat) {
    (f == AtPeer(n) && g == SendingAck(0)) || (f == SendingAck(n) && g == AwaitingAck(0)) ||
      (f == AwaitingAck(n) && g == Done)
  }

  /** A party neither sends nor receives an acknowledgement. */
  predicate Quiet(l: seq<int>, a: Party, b: Party) {
    || (a.phase == b.phase && a.channels == b.channels)
    || (!Acking(a.phase) && !Acking(b.phase))
    || (a.channels == b.channels && NextPhase(a.phase, b.phase, |l|))
  }

  lemma QuietSender(l: seq<int>, ids: set<int>, a: Party, b: Party, x: int)
    requires Lists(l, ids) && x in ids && Quiet(l, a, b)
    ensures SentTo(l, a.phase, x) == SentTo(l, b.phase, x) && TakenFrom(l, a.phase, x) == TakenFrom(l, b.phase, x)
    ensures SentTo(l, a.phase, x) ==> a.channels == b.channels
  {
  }

  // ------------------------------------------------------------------ all acknowledgements

  ghost predicate AckAt(c: Net, s: State, a: int, b: int)
    requires Known(c, s) && a in c.ids && b in c.ids
  {
    AckOk(a, c.order[a], s.parties[a].phase, s.parties[a].channels, b, c.order[b], s.parties[b].phase, s.acks)
  }

  ghost predicate Acks(c: Net, s: State) {
    Known(c, s) && forall a, b :: a in c.ids && b in c.ids && a != b ==> AckAt(c, s, a, b)
  }

  ghost predicate QuietAt(c: Net, s: State, s': State, q: int)
    requires Known(c, s) && Known(c, s') && q in c.ids
  {
    Quiet(c.order[q], s.parties[q], s'.parties[q])
  }

  lemma QuietKeepsAck(c: Net, s: State, s': State, a: int, b: int)
    requires Known(c, s) && Known(c, s') && a in c.ids && b in c.ids && AckAt(c, s, a, b) && s'.acks == s.acks
    requires QuietAt(c, s, s', a) && QuietAt(c, s, s', b)
    ensures AckAt(c, s', a, b)
  {
    QuietSender(c.order[a], c.ids, s.parties[a], s'.parties[a], b);
    QuietSender(c.order[b], c.ids, s.parties[b], s'.parties[b], a);
  }

  lemma QuietKeepsAcks(c: Net, s: State, s': State)
    requires Acks(c, s) && Known(c, s') && s'.acks == s.acks && forall q :: q in c.ids ==> QuietAt(c, s, s', q)
    ensures Acks(c, s')
  {
    forall a, b | a in c.ids && b in c.ids && a != b ensures AckAt(c, s', a, b) {
      QuietKeepsAck(c, s, s', a, b);
    }
  }

  lemma SendAckKeepsAck(c: Net, s: State, s': State, p: int, i: nat, a: int, b: int)
    requires Known(c, s) && p in c.ids && SendAck(s, s', p, c.order[p], i) && Known(c, s')
    requires a in c.ids && b in c.ids && a != b && AckAt(c, s, a, b)
    ensures AckAt(c, s', a, b)
  {
    FindAt(c.order[p], c.ids, i, b);
  }

  lemma SendAckKeepsAcks(c: Net, s: State, s': State, p: int, i: nat)
    requires Acks(c, s) && p in c.ids && SendAck(s, s', p, c.order[p], i)
    ensures Acks(c, s')
  {
    forall a, b | a in c.ids && b in c.ids && a != b ensures AckAt(c, s', a, b) {
      SendAckKeepsAck(c, s, s', p, i, a, b);
    }
  }

  /** Receiving from y takes away only the acknowledgement of y to p. */
  lemma TakeAckKeepsAck(c: Net, s: State, s': State, p: int, i: nat, a: int, b: int)
    requires Known(c, s) && p in c.ids && TakeAck(s, s', p, c.order[p], i) && Known(c, s')
    requires a in c.ids && b in c.ids && a != b && AckAt(c, s, a, b)
    requires var y := c.order[p][i]; y != p ==> y in s.parties[p].channels && Joins(s, s.parties[p].channels[y], p, y)
    requires SentTo(c.order[a], s.parties[a].phase, b) ==>
      b in s.parties[a].channels && Joins(s, s.parties[a].channels[b], a, b)
    ensures AckAt(c, s', a, b)
  {
    FindAt(c.order[p], c.ids, i, a);
  }

  lemma SentJoins(c: Net, s: State, a: int, b: int)
    requires Inv(c, s) && a in c.ids && b in c.ids && a != b && Acking(s.parties[a].phase)
    ensures b in s.parties[a].channels && Joins(s, s.parties[a].channels[b], a, b)
  {
    assert PartyAt(c, s, a);
    LatePassed(c.order[a], c.ids, s.parties[a].phase, b);
    ChannelJoins(c, s, a, b);
  }

  lemma TakeAckKeepsAcks(c: Net, s: State, s': State, p: int, i: nat)
    requires Inv(c, s) && Acks(c, s) && p in c.ids && TakeAck(s, s', p, c.order[p], i)
    ensures Acks(c, s')
  {
    if c.order[p][i] != p {
      SentJoins(c, s, p, c.order[p][i]);
    }
    forall a, b | a in c.ids && b in c.ids && a != b ensures AckAt(c, s', a, b) {
      if SentTo(c.order[a], s.parties[a].phase, b) {
        SentJoins(c, s, a, b);
      }
      TakeAckKeepsAck(c, s, s', p, i, a, b);
    }
  }

  lemma MainIsQuiet(s: State, s': State, p: int, l: seq<int>, i: nat)
    requires p in s.parties && MainStep(s, s', p, l, i) && !SendAck(s, s', p, l, i) && !TakeAck(s, s', p, l, i)
    ensures s'.acks == s.acks && p in s'.parties && Quiet(l, s.parties[p], s'.parties[p])
  {
    if Skip(s, s', p, l, i) {
    } else if Dial(s, s', p, l, i) {
    } else if SendId(s, s', p, l, i) {
    } else if GetNotify(s, s', p, l, i) {
    } else if Wake(s, s', p, l, i) {
    } else if Forget(s, s', p, l, i) {
    } else if Take(s, s', p, l, i) {
    } else {
    }
  }

  lemma OthersAreQuiet(s: State, s': State, p: int, l: seq<int>, i: nat, q: int)
    requires p in s.parties && MainStep(s, s', p, l, i) && q in s.parties && q != p
    ensures q in s'.parties && s'.parties[q].phase == s.parties[q].phase &&
      s'.parties[q].channels == s.parties[q].channels
  {
    if Dial(s, s', p, l, i) {
    } else if SendId(s, s', p, l, i) {
    } else if Take(s, s', p, l, i) {
    } else if TakeAck(s, s', p, l, i) {
    } else {
    }
  }

  lemma StepIsQuiet(c: Net, s: State, s': State, p: int, i: nat, q: int)
    requires Known(c, s) && PartyStep(c, s, s', p, i) && Known(c, s') && q in c.ids
    requires !SendAck(s, s', p, c.order[p], i) && !TakeAck(s, s', p, c.order[p], i)
    ensures QuietAt(c, s, s', q) && s'.acks == s.acks
  {
    if MainStep(s, s', p, c.order[p], i) {
      MainIsQuiet(s, s', p, c.order[p], i);
      if q != p {
        OthersAreQuiet(s, s', p, c.order[p], i, q);
      }
    }
  }

  lemma StepKeepsAcks(c: Net, s: State, s': State, p: int, i: nat)
    requires Inv(c, s) && Acks(c, s) && Known(c, s') && PartyStep(c, s, s', p, i)
    ensures Acks(c, s')
  {
    var l := c.order[p];
    if SendAck(s, s', p, l, i) {
      SendAckKeepsAcks(c, s, s', p, i);
    } else if TakeAck(s, s', p, l, i) {
      TakeAckKeepsAcks(c, s, s', p, i);
    } else {
      StepIsQuiet(c, s, s', p, i, p);
      forall q | q in c.ids ensures QuietAt(c, s, s', q) {
        StepIsQuiet(c, s, s', p, i, q);
      }
      QuietKeepsAcks(c, s, s');
    }
  }

  // ------------------------------------------------------------------ what is received was sent

  /** The acknowledgement of a on socket k was sent to b, and b has not received it. */
  ghost predicate UnderWay(c: Net, s: State, k: nat, a: int, b: int)
    requires Known(c, s)
  {
    && a in c.ids && b in c.ids && a != b && b in s.parties[a].channels && s.parties[a].channels[b] == k
    && SentTo(c.order[a], s.parties[a].phase, b) && !TakenFrom(c.order[b], s.parties[b].phase, a)
  }

  ghost predicate HasReceiver(c: Net, s: State, k: nat, a: int)
    requires Known(c, s)
  {
    exists b :: UnderWay(c, s, k, a, b)
  }

  /** If b has received an acknowledgement of a, then a has sent one to b. */
  ghost predicate WasSent(c: Net, s: State, a: int, b: int)
    requires Known(c, s) && a in c.ids && b in c.ids
  {
    TakenFrom(c.order[b], s.parties[b].phase, a) ==> SentTo(c.order[a], s.parties[a].phase, b)
  }

  ghost predicate OnlySent(c: Net, s: State) {
    && Known(c, s)
    && (forall k, a :: (k, a) in s.acks ==> HasReceiver(c, s, k, a))
    && forall a, b :: a in c.ids && b in c.ids && a != b ==> WasSent(c, s, a, b)
  }

  lemma QuietKeepsUnderWay(c: Net, s: State, s': State, k: nat, a: int, b: int)
    requires Known(c, s) && Known(c, s') && UnderWay(c, s, k, a, b)
    requires QuietAt(c, s, s', a) && QuietAt(c, s, s', b)
    ensures UnderWay(c, s', k, a, b)
  {
    QuietSender(c.order[a], c.ids, s.parties[a], s'.parties[a], b);
    QuietSender(c.order[b], c.ids, s.parties[b], s'.parties[b], a);
  }

  lemma QuietKeepsOnlySent(c: Net, s: State, s': State)
    requires OnlySent(c, s) && Known(c, s') && s'.acks == s.acks && forall q :: q in c.ids ==> QuietAt(c, s, s', q)
    ensures OnlySent(c, s')
  {
    forall k, a | (k, a) in s'.acks ensures HasReceiver(c, s', k, a) {
      assert HasReceiver(c, s, k, a);
      var b :| UnderWay(c, s, k, a, b);
      QuietKeepsUnderWay(c, s, s', k, a, b);
    }
    forall a, b | a in c.ids && b in c.ids && a != b ensures WasSent(c, s', a, b) {
      assert WasSent(c, s, a, b);
      QuietSender(c.order[a], c.ids, s.parties[a], s'.parties[a], b);
      QuietSender(c.order[b], c.ids, s.parties[b], s'.parties[b], a);
    }
  }

  lemma SendAckIsUnderWay(c: Net, s: State, s': State, p: int, i: nat)
    requires OnlySent(c, s) && p in c.ids && SendAck(s, s', p, c.order[p], i) && Known(c, s')
    ensures var y := c.order[p][i];
      y != p ==> y in s.parties[p].channels && UnderWay(c, s', s.parties[p].channels[y], p, y)
  {
    var y := c.order[p][i];
    if y != p {
      assert WasSent(c, s, p, y);
      FindAt(c.order[p], c.ids, i, y);
    }
  }

  lemma SendAckKeepsUnderWay(c: Net, s: State, s': State, p: int, i: nat, k: nat, a: int, b: int)
    requires Known(c, s) && p in c.ids && SendAck(s, s', p, c.order[p], i) && Known(c, s') && UnderWay(c, s, k, a, b)
    ensures UnderWay(c, s', k, a, b)
  {
  }

  lemma SendAckKeepsSent(c: Net, s: State, s': State, p: int, i: nat, a: int, b: int)
    requires Known(c, s) && p in c.ids && SendAck(s, s', p, c.order[p], i) && Known(c, s')
    requires a in c.ids && b in c.ids && a != b && WasSent(c, s, a, b)
    ensures WasSent(c, s', a, b)
  {
  }

  lemma SendAckKeepsOnlySent(c: Net, s: State, s': State, p: int, i: nat)
    requires OnlySent(c, s) && p in c.ids && SendAck(s, s', p, c.order[p], i) && Known(c, s')
    ensures OnlySent(c, s')
  {
    SendAckIsUnderWay(c, s, s', p, i);
    forall k, a | (k, a) in s'.acks ensures HasReceiver(c, s', k, a) {
      if (k, a) in s.acks {
        assert HasReceiver(c, s, k, a);
        var b :| UnderWay(c, s, k, a, b);
        SendAckKeepsUnderWay(c, s, s', p, i, k, a, b);
      }
    }
    forall a, b | a in c.ids && b in c.ids && a != b ensures WasSent(c, s', a, b) {
      SendAckKeepsSent(c, s, s', p, i, a, b);
    }
  }

  /** What p receives from y on the socket between them is the acknowledgement that y sent to p. */
  lemma TakenIsUnderWay(c: Net, s: State, s': State, p: int, i: nat)
    requires Inv(c, s) && OnlySent(c, s) && p in c.ids && TakeAck(s, s', p, c.order[p], i)
    ensures var y := c.order[p][i];
      && (y != p ==> y in s.parties[p].channels && UnderWay(c, s, s.parties[p].channels[y], y, p))
      && (y != p ==> s'.acks == s.acks - {(s.parties[p].channels[y], y)})
  {
    var y := c.order[p][i];
    if y != p {
      SentJoins(c, s, p, y);
      var k := s.parties[p].channels[y];
      assert HasReceiver(c, s, k, y);
      var b :| UnderWay(c, s, k, y, b);
      SentJoins(c, s, y, b);
    }
  }

  /** Receiving from y leaves every other acknowledgement under way. */
  lemma TakeAckKeepsUnderWay(c: Net, s: State, s': State, p: int, i: nat, k: nat, a: int, b: int)
    requires Known(c, s) && p in c.ids && TakeAck(s, s', p, c.order[p], i) && Known(c, s')
    requires UnderWay(c, s, k, a, b) && (a != c.order[p][i] || b != p)
    ensures UnderWay(c, s', k, a, b)
  {
    FindAt(c.order[p], c.ids, i, a);
  }

  lemma TakeAckKeepsSent(c: Net, s: State, s': State, p: int, i: nat, a: int, b: int)
    requires Known(c, s) && p in c.ids && TakeAck(s, s', p, c.order[p], i) && Known(c, s')
    requires var y := c.order[p][i]; y != p ==> y in c.ids && SentTo(c.order[y], s.parties[y].phase, p)
    requires a in c.ids && b in c.ids && a != b && WasSent(c, s, a, b)
    ensures WasSent(c, s', a, b)
  {
    FindAt(c.order[p], c.ids, i, a);
  }

  lemma TakeAckKeepsOnlySent(c: Net, s: State, s': State, p: int, i: nat)
    requires Inv(c, s) && OnlySent(c, s) && p in c.ids && TakeAck(s, s', p, c.order[p], i) && Known(c, s')
    ensures OnlySent(c, s')
  {
    TakenIsUnderWay(c, s, s', p, i);
    forall k, a | (k, a) in s'.acks ensures HasReceiver(c, s', k, a) {
      assert HasReceiver(c, s, k, a);
      var b :| UnderWay(c, s, k, a, b);
      TakeAckKeepsUnderWay(c, s, s', p, i, k, a, b);
    }
    forall a, b | a in c.ids && b in c.ids && a != b ensures WasSent(c, s', a, b) {
      assert WasSent(c, s, a, b);
      TakeAckKeepsSent(c, s, s', p, i, a, b);
    }
  }

  lemma StepKeepsOnlySent(c: Net, s: State, s': State, p: int, i: nat)
    requires Inv(c, s) && OnlySent(c, s) && Known(c, s') && PartyStep(c, s, s', p, i)
    ensures OnlySent(c, s')
  {
    var l := c.order[p];
    if SendAck(s, s', p, l, i) {
      SendAckKeepsOnlySent(c, s, s', p, i);
    } else if TakeAck(s, s', p, l, i) {
      TakeAckKeepsOnlySent(c, s, s', p, i);
    } else {
      StepIsQuiet(c, s, s', p, i, p);
      forall q | q in c.ids ensures QuietAt(c, s, s', q) {
        StepIsQuiet(c, s, s', p, i, q);
      }
      QuietKeepsOnlySent(c, s, s');
    }
  }
}
