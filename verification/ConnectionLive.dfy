/** The connection protocol never gets stuck, always ends, and ends with every pair of parties connected once. */
module ConnectionLive {
  import opened Collections
  import opened Connection
  import opened ConnectionSafety
  import opened ConnectionRun
  import opened ConnectionAcks

  // ------------------------------------------------------------------ runs

  ghost predicate Run(c: Net, states: seq<State>) {
    && c.Valid() && |states| > 0 && Init(c, states[0])
    && forall i :: 0 < i < |states| ==> Step(c, states[i - 1], states[i])
  }

  lemma InitInv(c: Net, s: State)
    requires c.Valid() && Init(c, s)
    ensures Inv(c, s) && Acks(c, s) && OnlySent(c, s)
  {
    forall p | p in c.ids ensures PartyAt(c, s, p) {
      assert s.parties[p].phase == AtPeer(0);
    }
    forall x, p | x in c.ids && p in c.ids && p < x ensures LinkAt(c, s, x, p) {
      assert s.parties[p].phase == AtPeer(0) && s.parties[x].phase == AtPeer(0);
    }
  }

  lemma StepKeepsInv(c: Net, s: State, s': State)
    requires Inv(c, s) && Acks(c, s) && OnlySent(c, s) && Step(c, s, s')
    ensures Inv(c, s') && Acks(c, s') && OnlySent(c, s')
  {
    var p, i :| PartyStep(c, s, s', p, i);
    if MainStep(s, s', p, c.order[p], i) {
      MainKeepsInv(c, s, s', p, i);
    } else {
      ListenerKeepsInv(c, s, s', p, i);
    }
    StepKeepsAcks(c, s, s', p, i);
    StepKeepsOnlySent(c, s, s', p, i);
  }

  lemma {:induction false} RunKeepsInv(c: Net, states: seq<State>)
    requires Run(c, states)
    ensures Inv(c, states[|states| - 1]) && Acks(c, states[|states| - 1]) && OnlySent(c, states[|states| - 1])
  {
    var n := |states| - 1;
    if n == 0 {
      InitInv(c, states[0]);
    } else {
      RunKeepsInv(c, states[..n]);
      StepKeepsInv(c, states[n - 1], states[n]);
    }
  }

  // ------------------------------------------------------------------ never stuck

  /** The main task is not through with all peers. */
  predicate Connecting(f: Phase, l: seq<int>) {
    (f.AtPeer? && f.i < |l|) || f.Dialled? || f.Waiting? || f.Woken? || f.Forgotten?
  }

  ghost predicate Stuck(c: Net, s: State) {
    forall s' :: !Step(c, s, s')
  }

  lemma Moves(c: Net, s: State, s': State, p: int, i: nat)
    requires PartyStep(c, s, s', p, i)
    ensures !Stuck(c, s)
  {
    assert Step(c, s, s');
  }

  /** The listener of a party with a queued socket, or in the middle of filing one, is not stuck for long. */
  lemma ListenerMoves(c: Net, s: State, p: int, k: nat)
    requires Inv(c, s) && p in c.ids && (k in s.parties[p].backlog || !s.parties[p].hand.Idle?)
    ensures !Stuck(c, s)
  {
    var a := s.parties[p];
    assert PartyAt(c, s, p);
    if a.hand.Filed? {
      Moves(c, s, s.With(p, a.(hand := Idle, notifications := a.notifications[a.hand.peer := true])), p, 0);
    } else if a.hand.Idle? {
      if a.bound {
        Moves(c, s, s.With(p, a.(hand := Reading(k), backlog := a.backlog - {k})), p, k);
      } else {
        Moves(c, s, s.With(p, a.(bound := true)), p, 0);
      }
    } else {
      ReaderMoves(c, s, p, a.hand.socket);
    }
  }

  /** The listener gets the id it is reading, because the dialling party sends it. */
  lemma ReaderMoves(c: Net, s: State, p: int, k: nat)
    requires Inv(c, s) && p in c.ids && s.parties[p].hand == Reading(k)
    ensures !Stuck(c, s)
  {
    var a := s.parties[p];
    assert PartyAt(c, s, p);
    var x := s.sockets[k].from;
    if s.sockets[k].named {
      Moves(c, s, s.With(p, a.(hand := Filed(x), connections := a.connections[x := k])), p, 0);
    } else {
      assert LinkAt(c, s, x, p) && PartyAt(c, s, x);
      var j :| Link(EndsAt(c, s, x, p), j);
      assert j == k && Dialling(c.order[x], s.parties[x].phase, p);
      DiallerMoves(c, s, x);
    }
  }

  lemma DiallerMoves(c: Net, s: State, x: int)
    requires Inv(c, s) && x in c.ids && s.parties[x].phase.Dialled?
    ensures !Stuck(c, s)
  {
    assert PartyAt(c, s, x);
    var a, l := s.parties[x], c.order[x];
    var i, k := a.phase.i, a.phase.socket;
    var s' := s.With(x, a.(phase := AtPeer(i + 1), channels := a.channels[l[i] := k])).(
      sockets := s.sockets[k := s.sockets[k].(named := true)]);
    assert SendId(s, s', x, l, i);
    Moves(c, s, s', x, i);
  }

  lemma AtPeerMoves(c: Net, s: State, p: int, i: nat)
    requires Inv(c, s) && p in c.ids && s.parties[p].phase == AtPeer(i) && i < |c.order[p]|
    ensures !Stuck(c, s)
  {
    var a, l := s.parties[p], c.order[p];
    var y := l[i];
    if y == p {
      Moves(c, s, s.With(p, a.(phase := AtPeer(i + 1))), p, i);
    } else if y > p {
      var n := if y in a.notifications then a.notifications else a.notifications[y := false];
      Moves(c, s, s.With(p, a.(phase := Waiting(i), notifications := n)), p, i);
    } else {
      var b, k := s.parties[y], |s.sockets|;
      if b.bound {
        var s' := State(s.parties[p := a.(phase := Dialled(i, k))][y := b.(backlog := b.backlog + {k})],
          s.sockets + [Socket(p, y, false)], s.acks);
        assert Dial(s, s', p, l, i);
        Moves(c, s, s', p, i);
      } else {
        Moves(c, s, s.With(y, b.(bound := true)), y, 0);
      }
    }
  }

  /** A party waiting for a peer that is through with everybody will be woken: no wakeup is lost. */
  lemma WaiterMoves(c: Net, s: State, p: int, i: nat)
    requires Inv(c, s) && p in c.ids && s.parties[p].phase == Waiting(i) && i < |c.order[p]|
    requires var y := c.order[p][i]; Passed(c.order[y], s.parties[y].phase, p)
    ensures !Stuck(c, s)
  {
    var a, y := s.parties[p], c.order[p][i];
    assert PartyAt(c, s, p) && LinkAt(c, s, y, p);
    FindAt(c.order[p], c.ids, i, y);
    var k :| Link(EndsAt(c, s, y, p), k);
    if Permit(a, y) {
      Moves(c, s, s.With(p, a.(phase := Woken(i), notifications := a.notifications[y := false])), p, i);
    } else {
      ListenerMoves(c, s, p, k);
    }
  }

  /** The highest party that is still connecting can move, or somebody it waits for can. */
  lemma HighestMoves(c: Net, s: State, p: int)
    requires Inv(c, s) && p in c.ids && Connecting(s.parties[p].phase, c.order[p])
    requires forall x :: x in c.ids && x > p ==> !Connecting(s.parties[x].phase, c.order[x])
    ensures !Stuck(c, s)
  {
    var a, l := s.parties[p], c.order[p];
    assert PartyAt(c, s, p);
    match a.phase
    case AtPeer(i) => AtPeerMoves(c, s, p, i);
    case Dialled(_, _) => DiallerMoves(c, s, p);
    case Waiting(i) =>
      var y := l[i];
      assert PartyAt(c, s, y);
      LatePassed(c.order[y], c.ids, s.parties[y].phase, p);
      WaiterMoves(c, s, p, i);
    case Woken(i) =>
      Moves(c, s, s.With(p, a.(phase := Forgotten(i), notifications := a.notifications - {l[i]})), p, i);
    case Forgotten(i) =>
      AcceptFinds(c, s, p, i);
      Moves(c, s, s.With(p, a.(phase := AtPeer(i + 1), connections := a.connections - {l[i]},
                               channels := a.channels[l[i] := a.connections[l[i]]])), p, i);
  }

  lemma SenderMoves(c: Net, s: State, p: int)
    requires Inv(c, s) && p in c.ids
    requires s.parties[p].phase.SendingAck? || s.parties[p].phase == AtPeer(|c.order[p]|)
    ensures !Stuck(c, s)
  {
    var a, l := s.parties[p], c.order[p];
    assert PartyAt(c, s, p);
    if a.phase.AtPeer? {
      Moves(c, s, s.With(p, a.(phase := SendingAck(0))), p, 0);
    } else if a.phase.i == |l| {
      Moves(c, s, s.With(p, a.(phase := AwaitingAck(0))), p, 0);
    } else {
      var i := a.phase.i;
      if l[i] != p {
        SentJoins(c, s, p, l[i]);
      }
      var b := a.(phase := SendingAck(i + 1));
      var s' := s.With(p, b).(acks := s.acks + if l[i] == p then {} else {(a.channels[l[i]], p)});
      assert SendAck(s, s', p, l, i);
      Moves(c, s, s', p, i);
    }
  }

  lemma ReceiverMoves(c: Net, s: State, p: int)
    requires Inv(c, s) && Acks(c, s) && p in c.ids && s.parties[p].phase.AwaitingAck?
    requires forall x :: x in c.ids ==> s.parties[x].phase.AwaitingAck? || s.parties[x].phase.Done?
    ensures !Stuck(c, s)
  {
    var a, l := s.parties[p], c.order[p];
    var i := a.phase.i;
    assert PartyAt(c, s, p);
    if i == |l| {
      Moves(c, s, s.With(p, a.(phase := Done)), p, 0);
    } else {
      var y := l[i];
      var b := a.(phase := AwaitingAck(i + 1));
      if y == p {
        Moves(c, s, s.With(p, b), p, i);
      } else {
        FindAt(l, c.ids, i, y);
        assert AckAt(c, s, y, p);
        LatePassed(c.order[y], c.ids, s.parties[y].phase, p);
        LatePassed(l, c.ids, a.phase, y);
        ChannelJoins(c, s, p, y);
        var ack := (a.channels[y], s.sockets[a.channels[y]].Other(p));
        var s' := s.With(p, b).(acks := s.acks - {ack});
        assert TakeAck(s, s', p, l, i);
        Moves(c, s, s', p, i);
      }
    }
  }

  ghost predicate AllDone(c: Net, s: State)
    requires Known(c, s)
  {
    forall p :: p in c.ids ==> s.parties[p].phase.Done?
  }

  predicate Sending(f: Phase, l: seq<int>) {
    f.SendingAck? || f == AtPeer(|l|)
  }

  lemma Kinds(c: Net, s: State, p: int)
    requires Inv(c, s) && p in c.ids
    ensures var f, l := s.parties[p].phase, c.order[p]; Connecting(f, l) || Sending(f, l) || f.AwaitingAck? || f.Done?
  {
    assert PartyAt(c, s, p);
  }

  lemma HighestConnecting(c: Net, s: State, p: int) returns (h: int)
    requires Known(c, s) && p in c.ids && Connecting(s.parties[p].phase, c.order[p])
    ensures h in c.ids && Connecting(s.parties[h].phase, c.order[h])
    ensures forall x :: x in c.ids && x > h ==> !Connecting(s.parties[x].phase, c.order[x])
  {
    var connecting := set x | x in c.ids && Connecting(s.parties[x].phase, c.order[x]);
    assert p in connecting;
    h := Highest(connecting);
    forall x | x in c.ids && x > h ensures !Connecting(s.parties[x].phase, c.order[x]) {
      assert x !in connecting;
    }
  }

  lemma SomebodyMoves(c: Net, s: State, p: int)
    requires Inv(c, s) && Acks(c, s) && p in c.ids && !s.parties[p].phase.Done?
    ensures !Stuck(c, s)
  {
    if x :| x in c.ids && Connecting(s.parties[x].phase, c.order[x]) {
      var h := HighestConnecting(c, s, x);
      HighestMoves(c, s, h);
    } else if x :| x in c.ids && Sending(s.parties[x].phase, c.order[x]) {
      SenderMoves(c, s, x);
    } else {
      forall x | x in c.ids ensures s.parties[x].phase.AwaitingAck? || s.parties[x].phase.Done? {
        Kinds(c, s, x);
      }
      ReceiverMoves(c, s, p);
    }
  }

  /**
    For any order of distinct ids: as long as somebody is not done, somebody can move, and nobody panics
    because `accept` found no connection.
  */
  lemma NeverStuck(c: Net, states: seq<State>)
    requires Run(c, states)
    ensures Known(c, states[|states| - 1])
    ensures Stuck(c, states[|states| - 1]) ==> AllDone(c, states[|states| - 1])
    ensures forall p :: p in c.ids ==> !states[|states| - 1].parties[p].phase.Panicked?
  {
    var s := states[|states| - 1];
    RunKeepsInv(c, states);
    if !AllDone(c, s) {
      var p :| p in c.ids && !s.parties[p].phase.Done?;
      SomebodyMoves(c, s, p);
    }
    forall p | p in c.ids ensures !s.parties[p].phase.Panicked? {
      Kinds(c, s, p);
    }
  }

  /** A filed connection whose notification is posted and not consumed has its permit. */
  lemma NoLostWakeup(c: Net, states: seq<State>, x: int, p: int)
    requires Run(c, states) && x in c.ids && p in c.ids && p < x
    ensures Known(c, states[|states| - 1])
    ensures var a := states[|states| - 1].parties[p];
      (a.phase.Waiting? && a.phase.i < |c.order[p]| && c.order[p][a.phase.i] == x && x in a.connections &&
        a.hand != Filed(x)) ==> Permit(a, x)
  {
    var s := states[|states| - 1];
    RunKeepsInv(c, states);
    assert LinkAt(c, s, x, p);
    var a := s.parties[p];
    if a.phase.Waiting? && a.phase.i < |c.order[p]| && c.order[p][a.phase.i] == x && x in a.connections {
      FindAt(c.order[p], c.ids, a.phase.i, x);
      var k :| Link(EndsAt(c, s, x, p), k);
    }
  }

  /**
    Nobody is done before everybody has gone through its list and holds the channels to all others: a party that has
    received the acknowledgement of x waited until x had sent it.
  */
  lemma DoneWaitsForAll(c: Net, states: seq<State>, p: int, x: int)
    requires Run(c, states) && p in c.ids && x in c.ids && Known(c, states[|states| - 1])
    requires states[|states| - 1].parties[p].phase.Done?
    ensures Acking(states[|states| - 1].parties[x].phase)
    ensures x != p ==> SentTo(c.order[x], states[|states| - 1].parties[x].phase, p)
    ensures forall y :: y in c.ids && y != x ==> y in states[|states| - 1].parties[x].channels
  {
    var s := states[|states| - 1];
    RunKeepsInv(c, states);
    if x != p {
      assert WasSent(c, s, x, p);
    }
    forall y | y in c.ids && y != x ensures y in s.parties[x].channels {
      SentJoins(c, s, x, y);
    }
  }

  ghost predicate SomebodyDone(c: Net, s: State)
    requires Known(c, s)
  {
    exists p :: p in c.ids && s.parties[p].phase.Done?
  }

  /** As soon as somebody is done, the parties of every pair hold the one socket that was ever opened between them. */
  lemma OneChannelPerPair(c: Net, states: seq<State>, a: int, b: int)
    requires Run(c, states) && a in c.ids && b in c.ids && a != b
    ensures var s := states[|states| - 1];
      && Known(c, s)
      && (SomebodyDone(c, s) ==>
            && a in s.parties[b].channels && b in s.parties[a].channels
            && s.parties[a].channels[b] == s.parties[b].channels[a]
            && Joins(s, s.parties[a].channels[b], a, b))
  {
    var s := states[|states| - 1];
    RunKeepsInv(c, states);
    if p :| p in c.ids && s.parties[p].phase.Done? {
      DoneWaitsForAll(c, states, p, a);
      DoneWaitsForAll(c, states, p, b);
      LatePassed(c.order[a], c.ids, s.parties[a].phase, b);
      LatePassed(c.order[b], c.ids, s.parties[b].phase, a);
      ChannelJoins(c, s, a, b);
    }
  }

  /** Socket k was opened by the higher of two ids, to a party that listens. */
  ghost predicate ToListener(s: State, k: nat) {
    && k < |s.sockets| && s.sockets[k].to < s.sockets[k].from
    && s.sockets[k].to in s.parties && s.parties[s.sockets[k].to].bound
  }

  lemma MainKeepsListener(s: State, s': State, p: int, l: seq<int>, i: nat, k: nat)
    requires p in s.parties && MainStep(s, s', p, l, i) && k < |s'.sockets|
    requires k < |s.sockets| ==> ToListener(s, k)
    ensures ToListener(s', k)
  {
    if Dial(s, s', p, l, i) {
    } else if SendId(s, s', p, l, i) {
    } else if TakeAck(s, s', p, l, i) {
    } else if Take(s, s', p, l, i) {
    } else {
    }
  }

  lemma ListenerKeepsListener(s: State, s': State, p: int, i: nat, k: nat)
    requires p in s.parties && ListenerStep(s, s', p, i) && ToListener(s, k)
    ensures ToListener(s', k)
  {
  }

  /** Sockets are opened by higher ids, to parties that listen. */
  lemma {:induction false} SocketsReachListeners(c: Net, states: seq<State>, n: nat, k: nat)
    requires Run(c, states) && n < |states| && k < |states[n].sockets|
    ensures ToListener(states[n], k)
  {
    if n > 0 {
      var s, s' := states[n - 1], states[n];
      assert Step(c, s, s');
      if k < |s.sockets| {
        SocketsReachListeners(c, states, n - 1, k);
      }
      var p, i :| PartyStep(c, s, s', p, i);
      if MainStep(s, s', p, c.order[p], i) {
        MainKeepsListener(s, s', p, c.order[p], i, k);
      } else {
        ListenerKeepsListener(s, s', p, i, k);
      }
    }
  }

  // ------------------------------------------------------------------ every run ends

  /** How many steps the main task has left, and how many it can give to listeners; n is the number of ids. */
  function MainWork(f: Phase, n: nat): int {
    match f
    case AtPeer(i) => 2 * n + 3 + 8 * (n - i)
    case Dialled(i, _) => 2 * n + 3 + 8 * (n - i) - 4
    case Waiting(i) => 2 * n + 3 + 8 * (n - i) - 1
    case Woken(i) => 2 * n + 3 + 8 * (n - i) - 2
    case Forgotten(i) => 2 * n + 3 + 8 * (n - i) - 3
    case SendingAck(i) => 2 + n + (n - i)
    case AwaitingAck(i) => 1 + n - i
    case Done => 0
    case Panicked => 0
  }

  function Work(a: Party, n: nat): int {
    MainWork(a.phase, n) + (if a.bound then 0 else 1) + 3 * |a.backlog|
    + match a.hand case Idle => 0 case Reading(_) => 2 case Filed(_) => 1
  }

  function Total(parties: map<int, Party>, l: seq<int>, n: nat): int
    requires forall i :: 0 <= i < |l| ==> l[i] in parties
  {
    if |l| == 0 then 0 else Work(parties[l[0]], n) + Total(parties, l[1..], n)
  }

  lemma {:induction false} TotalElsewhere(parties: map<int, Party>, p: int, b: Party, l: seq<int>, n: nat)
    requires forall i :: 0 <= i < |l| ==> l[i] in parties && l[i] != p
    ensures Total(parties[p := b], l, n) == Total(parties, l, n)
  {
    if |l| > 0 {
      TotalElsewhere(parties, p, b, l[1..], n);
    }
  }

  lemma {:induction false} TotalUpdate(parties: map<int, Party>, p: int, b: Party, l: seq<int>, n: nat, k: nat)
    requires forall i :: 0 <= i < |l| ==> l[i] in parties
    requires k < |l| && l[k] == p && forall i, j :: 0 <= i < j < |l| ==> l[i] != l[j]
    ensures Total(parties[p := b], l, n) == Total(parties, l, n) - Work(parties[p], n) + Work(b, n)
  {
    if k == 0 {
      TotalElsewhere(parties, p, b, l[1..], n);
    } else {
      TotalUpdate(parties, p, b, l[1..], n, k - 1);
    }
  }

  lemma {:induction false} ListSize(l: seq<int>, ids: set<int>)
    requires Lists(l, ids)
    ensures |l| == |ids|
  {
    if |l| == 0 {
      if ids != {} {
        Inhabited(ids);
        assert false;
      }
    } else {
      var rest := ids - {l[0]};
      forall x | x in rest ensures Find(l[1..], x) < |l| - 1 {
        assert Find(l, x) == 1 + Find(l[1..], x);
      }
      ListSize(l[1..], rest);
    }
  }

  lemma WorkNonNegative(p: int, a: Party, l: seq<int>, sockets: seq<Socket>)
    requires PhaseOk(p, a, l, sockets)
    ensures Work(a, |l|) >= 0
  {
  }

  lemma {:induction false} TotalNonNegative(c: Net, s: State, l: seq<int>)
    requires Inv(c, s) && forall i :: 0 <= i < |l| ==> l[i] in c.ids
    ensures Total(s.parties, l, |c.ids|) >= 0
  {
    if |l| > 0 {
      assert PartyAt(c, s, l[0]);
      ListSize(c.order[l[0]], c.ids);
      WorkNonNegative(l[0], s.parties[l[0]], c.order[l[0]], s.sockets);
      TotalNonNegative(c, s, l[1..]);
    }
  }

  lemma ListenerWork(s: State, s': State, p: int, k: nat, n: nat)
    requires p in s.parties && ListenerStep(s, s', p, k)
    ensures s'.parties == s.parties[p := s'.parties[p]] && Work(s'.parties[p], n) < Work(s.parties[p], n)
  {
  }

  /** All steps of the main task but dialling change its own party only, and lower what is left. */
  lemma MainWorkDrops(s: State, s': State, p: int, l: seq<int>, i: nat)
    requires p in s.parties && MainStep(s, s', p, l, i) && !Dial(s, s', p, l, i) &&
      PhaseOk(p, s.parties[p], l, s.sockets)
    ensures s'.parties == s.parties[p := s'.parties[p]] && Work(s'.parties[p], |l|) < Work(s.parties[p], |l|)
  {
    if Skip(s, s', p, l, i) {
    } else if SendId(s, s', p, l, i) {
    } else if GetNotify(s, s', p, l, i) {
    } else if Wake(s, s', p, l, i) {
    } else if Forget(s, s', p, l, i) {
    } else if Take(s, s', p, l, i) {
    } else if SendAck(s, s', p, l, i) {
    } else if TakeAck(s, s', p, l, i) {
    } else {
    }
  }

  lemma DialWorkDrops(c: Net, s: State, s': State, p: int, i: nat, l: seq<int>)
    requires Inv(c, s) && p in c.ids && Dial(s, s', p, c.order[p], i) && Lists(l, c.ids)
    ensures Total(s'.parties, l, |c.ids|) < Total(s.parties, l, |c.ids|)
  {
    var n, y, k := |c.ids|, c.order[p][i], |s.sockets|;
    var a, b := s.parties[p].(phase := Dialled(i, k)), s.parties[y].(backlog := s.parties[y].backlog + {k});
    assert PartyAt(c, s, y);
    assert k !in s.parties[y].backlog by {
      assert !Inbound(c.ids, s.sockets, y, k);
    }
    var mid := s.parties[p := a];
    TotalUpdate(s.parties, p, a, l, n, Find(l, p));
    TotalUpdate(mid, y, b, l, n, Find(l, y));
  }

  lemma StepLowersTotal(c: Net, s: State, s': State, l: seq<int>)
    requires Inv(c, s) && Step(c, s, s') && Lists(l, c.ids) && Known(c, s')
    ensures Total(s'.parties, l, |c.ids|) < Total(s.parties, l, |c.ids|)
  {
    var p, i :| PartyStep(c, s, s', p, i);
    if Dial(s, s', p, c.order[p], i) {
      DialWorkDrops(c, s, s', p, i, l);
    } else {
      assert PartyAt(c, s, p);
      ListSize(c.order[p], c.ids);
      if MainStep(s, s', p, c.order[p], i) {
        MainWorkDrops(s, s', p, c.order[p], i);
      } else {
        ListenerWork(s, s', p, i, |c.ids|);
      }
      TotalUpdate(s.parties, p, s'.parties[p], l, |c.ids|, Find(l, p));
    }
  }

  lemma FreshWork(c: Net, s: State, p: int)
    requires Init(c, s) && p in c.ids
    ensures Work(s.parties[p], |c.ids|) == 10 * |c.ids| + 4
  {
    assert s.parties[p] == Fresh();
    assert |Fresh().backlog| == 0;
  }

  lemma {:induction false} InitialTotal(c: Net, s: State, l: seq<int>)
    requires c.Valid() && Init(c, s) && forall i :: 0 <= i < |l| ==> l[i] in c.ids
    ensures Total(s.parties, l, |c.ids|) == |l| * (10 * |c.ids| + 4)
  {
    if |l| > 0 {
      InitialTotal(c, s, l[1..]);
      FreshWork(c, s, l[0]);
      TimesOneMore(|l|, 10 * |c.ids| + 4);
    }
  }

  lemma {:induction false} StepsAreCounted(c: Net, states: seq<State>, l: seq<int>)
    requires Run(c, states) && Lists(l, c.ids)
    ensures Known(c, states[|states| - 1])
    ensures |states| - 1 + Total(states[|states| - 1].parties, l, |c.ids|) <= |l| * (10 * |c.ids| + 4)
  {
    var n := |states| - 1;
    RunKeepsInv(c, states);
    if n == 0 {
      InitialTotal(c, states[0], l);
    } else {
      StepsAreCounted(c, states[..n], l);
      RunKeepsInv(c, states[..n]);
      StepLowersTotal(c, states[n - 1], states[n], l);
    }
  }

  /** No run is longer than n (10 n + 4) steps; together with NeverStuck, every run ends with everybody connected. */
  lemma EveryRunEnds(c: Net, states: seq<State>)
    requires Run(c, states) && c.ids != {}
    ensures |states| - 1 <= |c.ids| * (10 * |c.ids| + 4)
  {
    Inhabited(c.ids);
    var p :| p in c.ids;
    var l := c.order[p];
    ListSize(l, c.ids);
    StepsAreCounted(c, states, l);
    RunKeepsInv(c, states);
    TotalNonNegative(c, states[|states| - 1], l);
  }
}
