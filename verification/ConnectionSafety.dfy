/** What holds in every state of a run of the connection protocol. */
module ConnectionSafety {
  import opened Collections
  import opened Connection

  // ------------------------------------------------------------------ the invariant of one link

  /** How many peers the main task is through with. */
  function Index(f: Phase, n: nat): nat {
    match f
    case AtPeer(i) => i
    case Dialled(i, _) => i
    case Waiting(i) => i
    case Woken(i) => i
    case Forgotten(i) => i
    case Panicked => 0
    case _ => n
  }

  /** A party with list l and phase f is through with x. */
  predicate Passed(l: seq<int>, f: Phase, x: int) {
    Find(l, x) < Index(f, |l|)
  }

  predicate Dialling(l: seq<int>, f: Phase, x: int) {
    f.Dialled? && f.i < |l| && l[f.i] == x
  }

  /** The permit for x is consumed and the connection about to be taken. */
  predicate Taking(l: seq<int>, f: Phase, x: int) {
    (f.Woken? || f.Forgotten?) && f.i < |l| && l[f.i] == x
  }

  predicate Permit(a: Party, x: int) {
    x in a.notifications && a.notifications[x]
  }

  /** Nothing from x has reached the main task of a party with list l. */
  predicate NotArrived(l: seq<int>, a: Party, x: int) {
    x !in a.connections && !Permit(a, x) && a.hand != Filed(x) && !Taking(l, a.phase, x) && !Passed(l, a.phase, x)
  }

  ghost predicate NoSocket(sockets: seq<Socket>, x: int, p: int) {
    forall k :: 0 <= k < |sockets| ==> sockets[k].from != x || sockets[k].to != p
  }

  /** k is the one socket from x to p; it carries the id of x if x has `named` it. */
  ghost predicate OneSocket(sockets: seq<Socket>, x: int, p: int, k: nat, named: bool) {
    && k < |sockets| && sockets[k] == Socket(x, p, named)
    && forall l :: 0 <= l < |sockets| && l != k ==> sockets[l].from != x || sockets[l].to != p
  }

  /** x, with phase f and channels ch, holds socket k to p. */
  predicate DiallerHolds(l: seq<int>, f: Phase, ch: map<int, nat>, p: int, k: nat) {
    if Passed(l, f, p) then p in ch && ch[p] == k && !Dialling(l, f, p) else Dialling(l, f, p) && f.socket == k
  }

  /** k is still with the operating system or in the hand of the listener of p. */
  predicate Unfiled(l: seq<int>, a: Party, x: int, k: nat) {
    NotArrived(l, a, x) && (k in a.backlog) != (a.hand == Reading(k))
  }

  /** k has been filed under x, and is in exactly one place on its way to the channels of p. */
  predicate FiledUnder(l: seq<int>, a: Party, x: int, k: nat) {
    && k !in a.backlog && a.hand != Reading(k)
    && if Passed(l, a.phase, x) then
         x in a.channels && a.channels[x] == k && !Permit(a, x) && a.hand != Filed(x) && !Taking(l, a.phase, x)
       else
         && x in a.connections && a.connections[x] == k
         && if a.hand == Filed(x) then !Permit(a, x) && !Taking(l, a.phase, x)
            else Permit(a, x) != Taking(l, a.phase, x)
  }

  /**
    A link from x to a lower party p: x has list lx, phase f and channels ch, p has list lp and state a.
  */
  datatype Ends = Ends(
    x: int, lx: seq<int>, f: Phase, ch: map<int, nat>, p: int, lp: seq<int>, a: Party, sockets: seq<Socket>)

  ghost predicate Link(e: Ends, k: nat) {
    && OneSocket(e.sockets, e.x, e.p, k, Passed(e.lx, e.f, e.p))
    && DiallerHolds(e.lx, e.f, e.ch, e.p, k)
    && (Unfiled(e.lp, e.a, e.x, k) || (Passed(e.lx, e.f, e.p) && FiledUnder(e.lp, e.a, e.x, k)))
  }

  ghost predicate LinkOk(e: Ends) {
    if Passed(e.lx, e.f, e.p) || Dialling(e.lx, e.f, e.p) then exists k :: Link(e, k)
    else NoSocket(e.sockets, e.x, e.p) && NotArrived(e.lp, e.a, e.x)
  }

  // ------------------------------------------------------------------ the invariant of one party

  ghost predicate Inbound(ids: set<int>, sockets: seq<Socket>, p: int, k: nat) {
    k < |sockets| && sockets[k].to == p && sockets[k].from in ids && sockets[k].from > p
  }

  predicate PhaseOk(p: int, a: Party, l: seq<int>, sockets: seq<Socket>) {
    match a.phase
    case AtPeer(i) => i <= |l|
    case Dialled(i, k) => i < |l| && l[i] < p && k < |sockets| && sockets[k] == Socket(p, l[i], false)
    case Waiting(i) => i < |l| && l[i] > p && l[i] in a.notifications
    case Woken(i) => i < |l| && l[i] > p
    case Forgotten(i) => i < |l| && l[i] > p
    case SendingAck(i) => i <= |l|
    case AwaitingAck(i) => i <= |l|
    case Done => true
    case Panicked => false
  }

  ghost predicate PartyOk(ids: set<int>, p: int, a: Party, l: seq<int>, sockets: seq<Socket>) {
    && PhaseOk(p, a, l, sockets)
    && (forall k :: k in a.backlog ==> Inbound(ids, sockets, p, k))
    && (a.hand.Reading? ==> Inbound(ids, sockets, p, a.hand.socket))
    && (a.hand.Filed? ==> a.hand.peer in ids && a.hand.peer > p)
  }

  ghost predicate Known(c: Net, s: State) {
    c.Valid() && s.parties.Keys == c.ids
  }

  ghost predicate PartyAt(c: Net, s: State, p: int)
    requires Known(c, s) && p in c.ids
  {
    PartyOk(c.ids, p, s.parties[p], c.order[p], s.sockets)
  }

  ghost function EndsAt(c: Net, s: State, x: int, p: int): (e: Ends)
    requires Known(c, s) && x in c.ids && p in c.ids
  {
    Ends(x, c.order[x], s.parties[x].phase, s.parties[x].channels, p, c.order[p], s.parties[p], s.sockets)
  }

  ghost predicate LinkAt(c: Net, s: State, x: int, p: int)
    requires Known(c, s) && x in c.ids && p in c.ids
  {
    LinkOk(EndsAt(c, s, x, p))
  }

  ghost predicate Inv(c: Net, s: State) {
    && Known(c, s)
    && (forall p :: p in c.ids ==> PartyAt(c, s, p))
    && forall x, p :: x in c.ids && p in c.ids && p < x ==> LinkAt(c, s, x, p)
  }

  // ------------------------------------------------------------------ the listener keeps the links to its party

  lemma FindAt(l: seq<int>, ids: set<int>, i: nat, x: int)
    requires Lists(l, ids) && i < |l| && x in ids
    ensures Find(l, x) == i <==> l[i] == x
  {
    if l[i] == x {
      assert Find(l, x) <= i;
    }
  }

  lemma AcceptKeeps(e: Ends, j: nat, e': Ends)
    requires LinkOk(e) && e.a.hand.Idle? && j in e.a.backlog
    requires e' == e.(a := e.a.(hand := Reading(j), backlog := e.a.backlog - {j}))
    ensures LinkOk(e')
  {
    if Passed(e.lx, e.f, e.p) || Dialling(e.lx, e.f, e.p) {
      var k :| Link(e, k);
      assert Link(e', k);
    }
  }

  lemma FileKeeps(e: Ends, j: nat, e': Ends)
    requires LinkOk(e) && e.a.hand == Reading(j) && j < |e.sockets| && e.sockets[j].named && e.sockets[j].to == e.p
    requires e' == e.(a := e.a.(hand := Filed(e.sockets[j].from),
      connections := e.a.connections[e.sockets[j].from := j]))
    ensures LinkOk(e')
  {
    if Passed(e.lx, e.f, e.p) || Dialling(e.lx, e.f, e.p) {
      var k :| Link(e, k);
      assert Link(e', k);
    }
  }

  lemma NotifyKeeps(e: Ends, e': Ends)
    requires LinkOk(e) && e.a.hand.Filed?
    requires e' == e.(a := e.a.(hand := Idle, notifications := e.a.notifications[e.a.hand.peer := true]))
    ensures LinkOk(e')
  {
    if Passed(e.lx, e.f, e.p) || Dialling(e.lx, e.f, e.p) {
      var k :| Link(e, k);
      assert Link(e', k);
    }
  }

  // ------------------------------------------------------------------ the main task keeps its links

  /** The two states of a party look the same to the link from x. */
  predicate SameForDialler(l: seq<int>, a: Party, b: Party, x: int) {
    && Passed(l, a.phase, x) == Passed(l, b.phase, x) && Taking(l, a.phase, x) == Taking(l, b.phase, x)
    && a.backlog == b.backlog && a.hand == b.hand && Permit(a, x) == Permit(b, x)
    && (x in a.connections <==> x in b.connections) && (x in a.connections ==> a.connections[x] == b.connections[x])
    && (x in a.channels ==> x in b.channels && a.channels[x] == b.channels[x])
  }

  lemma TargetUnaffected(e: Ends, e': Ends)
    requires LinkOk(e) && SameForDialler(e.lp, e.a, e'.a, e.x) && e' == e.(a := e'.a)
    ensures LinkOk(e')
  {
    if Passed(e.lx, e.f, e.p) || Dialling(e.lx, e.f, e.p) {
      var k :| Link(e, k);
      assert Link(e', k);
    }
  }

  lemma DiallerUnaffected(e: Ends, e': Ends)
    requires LinkOk(e) && e' == e.(f := e'.f, ch := e'.ch)
    requires Passed(e.lx, e.f, e.p) == Passed(e.lx, e'.f, e.p)
    requires !Dialling(e.lx, e.f, e.p) && !Dialling(e.lx, e'.f, e.p)
    requires e.p in e.ch ==> e.p in e'.ch && e.ch[e.p] == e'.ch[e.p]
    ensures LinkOk(e')
  {
    if Passed(e.lx, e.f, e.p) || Dialling(e.lx, e.f, e.p) {
      var k :| Link(e, k);
      assert Link(e', k);
    }
  }

  lemma WakeKeeps(e: Ends, i: nat, e': Ends)
    requires LinkOk(e) && e.a.phase == Waiting(i) && i < |e.lp| && e.lp[i] == e.x && Find(e.lp, e.x) == i &&
      Permit(e.a, e.x)
    requires e' == e.(a := e.a.(phase := Woken(i), notifications := e.a.notifications[e.x := false]))
    ensures LinkOk(e')
  {
    if Passed(e.lx, e.f, e.p) || Dialling(e.lx, e.f, e.p) {
      var k :| Link(e, k);
      assert Link(e', k);
    }
  }

  /** `accept` finds the connection, and takes the one socket of the link. */
  lemma TakeKeeps(e: Ends, i: nat)
    requires LinkOk(e) && e.a.phase == Forgotten(i) && i < |e.lp| && e.lp[i] == e.x && Find(e.lp, e.x) == i
    ensures e.x in e.a.connections
    ensures var con := e.a.connections;
      LinkOk(e.(a := e.a.(phase := AtPeer(i + 1), connections := con - {e.x},
        channels := e.a.channels[e.x := con[e.x]])))
  {
    assert Taking(e.lp, e.a.phase, e.x) && !Passed(e.lp, e.a.phase, e.x);
    var k :| Link(e, k);
    var con := e.a.connections;
    var e' := e.(a := e.a.(phase := AtPeer(i + 1), connections := con - {e.x},
      channels := e.a.channels[e.x := con[e.x]]));
    assert Link(e', k);
  }

  lemma DialKeeps(e: Ends, i: nat, e': Ends)
    requires LinkOk(e) && e.f == AtPeer(i) && i < |e.lx| && e.lx[i] == e.p && Find(e.lx, e.p) == i
    requires e.a.hand.Reading? ==> e.a.hand.socket < |e.sockets|
    requires forall j :: j in e.a.backlog ==> j < |e.sockets|
    requires var k := |e.sockets|;
      e' == e.(f := Dialled(i, k), a := e.a.(backlog := e.a.backlog + {k}),
        sockets := e.sockets + [Socket(e.x, e.p, false)])
    ensures LinkOk(e')
  {
    assert Link(e', |e.sockets|);
  }

  /** A socket between two other parties, possibly queued at the same party. */
  lemma OtherDialKeeps(e: Ends, o: Socket, e': Ends)
    requires LinkOk(e) && (o.from != e.x || o.to != e.p)
    requires e' == e.(a := e'.a, sockets := e.sockets + [o])
    requires e'.a == e.a || e'.a == e.a.(backlog := e.a.backlog + {|e.sockets|})
    requires e.a.hand.Reading? ==> e.a.hand.socket < |e.sockets|
    ensures LinkOk(e')
  {
    if Passed(e.lx, e.f, e.p) || Dialling(e.lx, e.f, e.p) {
      var k :| Link(e, k);
      assert Link(e', k);
    }
  }

  lemma SendIdKeeps(e: Ends, i: nat, k: nat, e': Ends)
    requires LinkOk(e) && e.f == Dialled(i, k) && i < |e.lx| && e.lx[i] == e.p && Find(e.lx, e.p) == i &&
      k < |e.sockets|
    requires e' == e.(f := AtPeer(i + 1), ch := e.ch[e.p := k], sockets := e.sockets[k := e.sockets[k].(named := true)])
    ensures LinkOk(e')
  {
    if Passed(e.lx, e.f, e.p) || Dialling(e.lx, e.f, e.p) {
      var k :| Link(e, k);
      assert Link(e', k);
    }
  }

  lemma OtherSendIdKeeps(e: Ends, j: nat, e': Ends)
    requires LinkOk(e) && j < |e.sockets| && (e.sockets[j].from != e.x || e.sockets[j].to != e.p)
    requires e' == e.(sockets := e.sockets[j := e.sockets[j].(named := true)])
    ensures LinkOk(e')
  {
    if Passed(e.lx, e.f, e.p) || Dialling(e.lx, e.f, e.p) {
      var k :| Link(e, k);
      assert Link(e', k);
    }
  }

  // ------------------------------------------------------------------ sockets and parties

  lemma MoreSockets(ids: set<int>, p: int, a: Party, l: seq<int>, sockets: seq<Socket>, o: Socket)
    requires PartyOk(ids, p, a, l, sockets)
    ensures PartyOk(ids, p, a, l, sockets + [o])
  {
  }

  lemma NamedSocket(ids: set<int>, p: int, a: Party, l: seq<int>, sockets: seq<Socket>, j: nat)
    requires PartyOk(ids, p, a, l, sockets) && j < |sockets| && !(a.phase.Dialled? && a.phase.socket == j)
    ensures PartyOk(ids, p, a, l, sockets[j := sockets[j].(named := true)])
  {
    var sockets' := sockets[j := sockets[j].(named := true)];
    forall k | k in a.backlog ensures Inbound(ids, sockets', p, k) {
      assert Inbound(ids, sockets, p, k);
    }
  }
}
