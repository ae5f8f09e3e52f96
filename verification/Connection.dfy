/**
  How the parties of a committee connect to each other: `ConnectionManager` and `NetIOCommittee::new`.

  Every party runs two tasks. The listener task takes sockets from the queue of the operating system, reads
  the id of the dialling party, files the socket under that id and posts a notification. The main task goes
  through the list of ids in the party's own order, dials the lower ids, waits for the notification of the
  higher ones, and then exchanges one acknowledgement with everybody. The tasks of all parties interleave.
*/
module Connection {
  import opened Collections

  // ------------------------------------------------------------------ the parties

  /** The ids of the parties, and the order in which each party lists them. */
  datatype Net = Net(ids: set<int>, order: map<int, seq<int>>) {
    ghost predicate Valid() {
      order.Keys == ids && forall p :: p in ids ==> Lists(order[p], ids)
    }
  }

  /** Where the main task of a party stands; i is the position in its list. */
  datatype Phase =
    | AtPeer(i: nat)
    | Dialled(i: nat, socket: nat) // connected, own id not sent yet
    | Waiting(i: nat)              // holds the notification of the peer
    | Woken(i: nat)                // has consumed the permit
    | Forgotten(i: nat)            // has removed the notification
    | SendingAck(i: nat)
    | AwaitingAck(i: nat)
    | Done
    | Panicked                     // `accept` returned none

  /** Where the listener task of a party stands. */
  datatype Hand = Idle | Reading(socket: nat) | Filed(peer: int)

  datatype Party = Party(
    phase: Phase, bound: bool, backlog: set<nat>, hand: Hand,
    connections: map<int, nat>, notifications: map<int, bool>, channels: map<int, nat>)

  datatype Socket = Socket(from: int, to: int, named: bool) {
    function Other(p: int): (r: int) {
      if p == from then to else from
    }
  }

  /** `acks` holds (socket, sender) for each acknowledgement that is under way. */
  datatype State = State(parties: map<int, Party>, sockets: seq<Socket>, acks: set<(nat, int)>) {
    function With(p: int, q: Party): (s: State) {
      this.(parties := parties[p := q])
    }
  }

  function Fresh(): (a: Party) {
    Party(AtPeer(0), false, {}, Idle, map[], map[], map[])
  }

  ghost predicate Init(c: Net, s: State) {
    && s.parties.Keys == c.ids && s.sockets == [] && s.acks == {}
    && forall p :: p in c.ids ==> s.parties[p] == Fresh()
  }

  // ------------------------------------------------------------------ the steps

  /** The listener task of p moves. */
  ghost predicate Bind(s: State, s': State, p: int)
    requires p in s.parties
  {
    var a := s.parties[p];
    !a.bound && s' == s.With(p, a.(bound := true))
  }

  ghost predicate Accept(s: State, s': State, p: int, k: nat)
    requires p in s.parties
  {
    var a := s.parties[p];
    a.bound && a.hand.Idle? && k in a.backlog && s' == s.With(p, a.(hand := Reading(k), backlog := a.backlog - {k}))
  }

  ghost predicate File(s: State, s': State, p: int)
    requires p in s.parties
  {
    var a := s.parties[p];
    && a.hand.Reading? && a.hand.socket < |s.sockets| && s.sockets[a.hand.socket].named
    && var x := s.sockets[a.hand.socket].from;
       s' == s.With(p, a.(hand := Filed(x), connections := a.connections[x := a.hand.socket]))
  }

  ghost predicate Notify(s: State, s': State, p: int)
    requires p in s.parties
  {
    var a := s.parties[p];
    a.hand.Filed? && s' == s.With(p, a.(hand := Idle, notifications := a.notifications[a.hand.peer := true]))
  }

  /** The main task of p, at position i of its list l, moves. */
  ghost predicate Skip(s: State, s': State, p: int, l: seq<int>, i: nat)
    requires p in s.parties
  {
    var a := s.parties[p];
    a.phase == AtPeer(i) && i < |l| && l[i] == p && s' == s.With(p, a.(phase := AtPeer(i + 1)))
  }

  ghost predicate Dial(s: State, s': State, p: int, l: seq<int>, i: nat)
    requires p in s.parties
  {
    var a := s.parties[p];
    && a.phase == AtPeer(i) && i < |l| && l[i] < p && l[i] in s.parties && s.parties[l[i]].bound
    && var k, b := |s.sockets|, s.parties[l[i]];
       s' == State(s.parties[p := a.(phase := Dialled(i, k))][l[i] := b.(backlog := b.backlog + {k})],
                   s.sockets + [Socket(p, l[i], false)], s.acks)
  }

  ghost predicate SendId(s: State, s': State, p: int, l: seq<int>, i: nat)
    requires p in s.parties
  {
    var a := s.parties[p];
    && a.phase.Dialled? && a.phase.i == i < |l| && a.phase.socket < |s.sockets|
    && var k := a.phase.socket;
       s' == s.With(p, a.(phase := AtPeer(i + 1), channels := a.channels[l[i] := k])).(
               sockets := s.sockets[k := s.sockets[k].(named := true)])
  }

  ghost predicate GetNotify(s: State, s': State, p: int, l: seq<int>, i: nat)
    requires p in s.parties
  {
    var a := s.parties[p];
    && a.phase == AtPeer(i) && i < |l| && l[i] > p
    && var n := if l[i] in a.notifications then a.notifications else a.notifications[l[i] := false];
       s' == s.With(p, a.(phase := Waiting(i), notifications := n))
  }

  ghost predicate Wake(s: State, s': State, p: int, l: seq<int>, i: nat)
    requires p in s.parties
  {
    var a := s.parties[p];
    && a.phase == Waiting(i) && i < |l| && l[i] in a.notifications && a.notifications[l[i]]
    && s' == s.With(p, a.(phase := Woken(i), notifications := a.notifications[l[i] := false]))
  }

  ghost predicate Forget(s: State, s': State, p: int, l: seq<int>, i: nat)
    requires p in s.parties
  {
    var a := s.parties[p];
    && a.phase == Woken(i) && i < |l|
    && s' == s.With(p, a.(phase := Forgotten(i), notifications := a.notifications - {l[i]}))
  }

  ghost predicate Take(s: State, s': State, p: int, l: seq<int>, i: nat)
    requires p in s.parties
  {
    var a := s.parties[p];
    && a.phase == Forgotten(i) && i < |l|
    && if l[i] in a.connections then
         s' == s.With(p, a.(phase := AtPeer(i + 1), connections := a.connections - {l[i]},
                            channels := a.channels[l[i] := a.connections[l[i]]]))
       else s' == s.With(p, a.(phase := Panicked))
  }

  ghost predicate SendAck(s: State, s': State, p: int, l: seq<int>, i: nat)
    requires p in s.parties
  {
    var a := s.parties[p];
    var b := a.(phase := SendingAck(i + 1));
    && a.phase == SendingAck(i) && i < |l|
    && (l[i] != p ==> l[i] in a.channels)
    && s' == s.With(p, b).(acks := s.acks + if l[i] == p then {} else {(a.channels[l[i]], p)})
  }

  ghost predicate TakeAck(s: State, s': State, p: int, l: seq<int>, i: nat)
    requires p in s.parties
  {
    var a := s.parties[p];
    var b := a.(phase := AwaitingAck(i + 1));
    && a.phase == AwaitingAck(i) && i < |l|
    && if l[i] == p then s' == s.With(p, b)
       else
         && l[i] in a.channels && a.channels[l[i]] < |s.sockets|
         && var ack := (a.channels[l[i]], s.sockets[a.channels[l[i]]].Other(p));
            ack in s.acks && s' == s.With(p, b).(acks := s.acks - {ack})
  }

  /** The end of each of the three loops. */
  ghost predicate NextLoop(s: State, s': State, p: int, l: seq<int>)
    requires p in s.parties
  {
    var a := s.parties[p];
    || (a.phase == AtPeer(|l|) && s' == s.With(p, a.(phase := SendingAck(0))))
    || (a.phase == SendingAck(|l|) && s' == s.With(p, a.(phase := AwaitingAck(0))))
    || (a.phase == AwaitingAck(|l|) && s' == s.With(p, a.(phase := Done)))
  }

  ghost predicate MainStep(s: State, s': State, p: int, l: seq<int>, i: nat)
    requires p in s.parties
  {
    || Skip(s, s', p, l, i) || Dial(s, s', p, l, i) || SendId(s, s', p, l, i)
    || GetNotify(s, s', p, l, i) || Wake(s, s', p, l, i) || Forget(s, s', p, l, i) || Take(s, s', p, l, i)
    || SendAck(s, s', p, l, i) || TakeAck(s, s', p, l, i) || NextLoop(s, s', p, l)
  }

  ghost predicate ListenerStep(s: State, s': State, p: int, k: nat)
    requires p in s.parties
  {
    Bind(s, s', p) || Accept(s, s', p, k) || File(s, s', p) || Notify(s, s', p)
  }

  ghost predicate PartyStep(c: Net, s: State, s': State, p: int, i: nat) {
    && p in c.ids && p in c.order && p in s.parties
    && (MainStep(s, s', p, c.order[p], i) || ListenerStep(s, s', p, i))
  }

  ghost predicate Step(c: Net, s: State, s': State) {
    exists p, i :: PartyStep(c, s, s', p, i)
  }
}
