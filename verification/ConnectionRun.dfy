/** Whole runs of the connection protocol. */
module ConnectionRun {
  import opened Collections
  import opened Connection
  import opened ConnectionSafety

  // ------------------------------------------------------------------ steps of one party

  /** The links to p and from p are fine when p changes its state to b. */
  ghost predicate LinksIn(c: Net, s: State, p: int, b: Party)
    requires Known(c, s) && p in c.ids
  {
    forall x :: x in c.ids && x > p ==> LinkOk(EndsAt(c, s, x, p).(a := b))
  }

  ghost predicate LinksOut(c: Net, s: State, p: int, b: Party)
    requires Known(c, s) && p in c.ids
  {
    forall y :: y in c.ids && y < p ==> LinkOk(EndsAt(c, s, p, y).(f := b.phase, ch := b.channels))
  }

  lemma LocalLink(c: Net, s: State, s': State, p: int, b: Party, x: int, y: int)
    requires Known(c, s) && Known(c, s') && p in c.ids && s'.parties == s.parties[p := b] && s'.sockets == s.sockets
    requires LinksIn(c, s, p, b) && LinksOut(c, s, p, b)
    requires x in c.ids && y in c.ids && y < x && LinkAt(c, s, x, y)
    ensures LinkAt(c, s', x, y)
  {
    var e' := EndsAt(c, s', x, y);
    if y == p {
      assert e' == EndsAt(c, s, x, p).(a := b);
    } else if x == p {
      assert e' == EndsAt(c, s, p, y).(f := b.phase, ch := b.channels);
    }
  }

  lemma LocalKeeps(c: Net, s: State, s': State, p: int, b: Party)
    requires Inv(c, s) && p in c.ids && s'.parties == s.parties[p := b] && s'.sockets == s.sockets
    requires PartyOk(c.ids, p, b, c.order[p], s.sockets) && LinksIn(c, s, p, b) && LinksOut(c, s, p, b)
    ensures Inv(c, s')
  {
    forall q | q in c.ids ensures PartyAt(c, s', q) {
      assert PartyAt(c, s, q);
    }
    forall x, y | x in c.ids && y in c.ids && y < x ensures LinkAt(c, s', x, y) {
      LocalLink(c, s, s', p, b, x, y);
    }
  }

  /** A listener step leaves the phase and the channels alone. */
  lemma ListenerLinksOut(c: Net, s: State, p: int, b: Party)
    requires Inv(c, s) && p in c.ids && b.phase == s.parties[p].phase && b.channels == s.parties[p].channels
    ensures LinksOut(c, s, p, b)
  {
    forall y | y in c.ids && y < p ensures LinkOk(EndsAt(c, s, p, y).(f := b.phase, ch := b.channels)) {
      assert LinkAt(c, s, p, y);
    }
  }

  lemma ListenerKeepsInv(c: Net, s: State, s': State, p: int, k: nat)
    requires Inv(c, s) && p in c.ids && ListenerStep(s, s', p, k)
    ensures Inv(c, s')
  {
    var b := s'.parties[p];
    assert PartyAt(c, s, p);
    forall x | x in c.ids && x > p ensures LinkOk(EndsAt(c, s, x, p).(a := b)) {
      assert LinkAt(c, s, x, p);
      var e := EndsAt(c, s, x, p);
      var e' := e.(a := b);
      if Bind(s, s', p) {
        TargetUnaffected(e, e');
      } else if Accept(s, s', p, k) {
        AcceptKeeps(e, k, e');
      } else if File(s, s', p) {
        FileKeeps(e, s.parties[p].hand.socket, e');
      } else {
        NotifyKeeps(e, e');
      }
    }
    ListenerLinksOut(c, s, p, b);
    LocalKeeps(c, s, s', p, b);
  }

  /** Advancing the main task by one peer, or within one peer. */
  lemma IndexMoves(l: seq<int>, ids: set<int>, f: Phase, g: Phase, i: nat, x: int)
    requires Lists(l, ids) && i < |l| && x in ids && Index(f, |l|) == i
    ensures Index(g, |l|) == i ==> Passed(l, f, x) == Passed(l, g, x)
    ensures Index(g, |l|) == i + 1 && x != l[i] ==> Passed(l, f, x) == Passed(l, g, x)
  {
    FindAt(l, ids, i, x);
  }

  /** The main task of p deals with a peer that is not lower than p. */
  lemma MainLinksOut(c: Net, s: State, p: int, i: nat, b: Party)
    requires Inv(c, s) && p in c.ids
    requires var l, a := c.order[p], s.parties[p];
      && !a.phase.Dialled? && !b.phase.Dialled? && Index(a.phase, |l|) == i <= |l|
      && (Index(b.phase, |l|) == i || (i < |l| && l[i] >= p && Index(b.phase, |l|) == i + 1))
    requires forall y :: y < p && y in s.parties[p].channels ==>
      y in b.channels && b.channels[y] == s.parties[p].channels[y]
    ensures LinksOut(c, s, p, b)
  {
    forall y | y in c.ids && y < p ensures LinkOk(EndsAt(c, s, p, y).(f := b.phase, ch := b.channels)) {
      assert LinkAt(c, s, p, y);
      if i < |c.order[p]| {
        IndexMoves(c.order[p], c.ids, s.parties[p].phase, b.phase, i, y);
      }
      var e := EndsAt(c, s, p, y);
      DiallerUnaffected(e, e.(f := b.phase, ch := b.channels));
    }
  }

  /** The main task of p moves without passing a peer or taking anything from one. */
  lemma MainLinkUnaffected(c: Net, s: State, p: int, b: Party, x: int)
    requires Known(c, s) && p in c.ids && x in c.ids && LinkAt(c, s, x, p)
    requires SameForDialler(c.order[p], s.parties[p], b, x)
    ensures LinkOk(EndsAt(c, s, x, p).(a := b))
  {
    var e := EndsAt(c, s, x, p);
    TargetUnaffected(e, e.(a := b));
  }

  ghost predicate Here(c: Net, s: State, p: int) {
    Known(c, s) && p in c.ids && PartyAt(c, s, p)
  }

  lemma SkipLink(c: Net, s: State, s': State, p: int, i: nat, x: int)
    requires Here(c, s, p) && Skip(s, s', p, c.order[p], i)
    requires x in c.ids && x > p && LinkAt(c, s, x, p)
    ensures LinkOk(EndsAt(c, s, x, p).(a := s'.parties[p]))
  {
    IndexMoves(c.order[p], c.ids, s.parties[p].phase, s'.parties[p].phase, i, x);
    MainLinkUnaffected(c, s, p, s'.parties[p], x);
  }

  lemma SkipKeepsInv(c: Net, s: State, s': State, p: int, i: nat)
    requires Inv(c, s) && p in c.ids && Skip(s, s', p, c.order[p], i)
    ensures Inv(c, s')
  {
    var b := s'.parties[p];
    assert PartyAt(c, s, p);
    forall x | x in c.ids && x > p ensures LinkOk(EndsAt(c, s, x, p).(a := b)) {
      SkipLink(c, s, s', p, i, x);
    }
    MainLinksOut(c, s, p, i, b);
    LocalKeeps(c, s, s', p, b);
  }

  lemma GetNotifyLink(c: Net, s: State, s': State, p: int, i: nat, x: int)
    requires Here(c, s, p) && GetNotify(s, s', p, c.order[p], i)
    requires x in c.ids && x > p && LinkAt(c, s, x, p)
    ensures LinkOk(EndsAt(c, s, x, p).(a := s'.parties[p]))
  {
    MainLinkUnaffected(c, s, p, s'.parties[p], x);
  }

  lemma GetNotifyKeepsInv(c: Net, s: State, s': State, p: int, i: nat)
    requires Inv(c, s) && p in c.ids && GetNotify(s, s', p, c.order[p], i)
    ensures Inv(c, s')
  {
    var b := s'.parties[p];
    assert PartyAt(c, s, p);
    forall x | x in c.ids && x > p ensures LinkOk(EndsAt(c, s, x, p).(a := b)) {
      GetNotifyLink(c, s, s', p, i, x);
    }
    MainLinksOut(c, s, p, i, b);
    LocalKeeps(c, s, s', p, b);
  }

  lemma WakeLink(c: Net, s: State, s': State, p: int, i: nat, x: int)
    requires Here(c, s, p) && Wake(s, s', p, c.order[p], i)
    requires x in c.ids && x > p && LinkAt(c, s, x, p)
    ensures LinkOk(EndsAt(c, s, x, p).(a := s'.parties[p]))
  {
    if x == c.order[p][i] {
      FindAt(c.order[p], c.ids, i, x);
      var e := EndsAt(c, s, x, p);
      WakeKeeps(e, i, e.(a := s'.parties[p]));
    } else {
      MainLinkUnaffected(c, s, p, s'.parties[p], x);
    }
  }

  lemma WakeKeepsInv(c: Net, s: State, s': State, p: int, i: nat)
    requires Inv(c, s) && p in c.ids && Wake(s, s', p, c.order[p], i)
    ensures Inv(c, s')
  {
    var b := s'.parties[p];
    assert PartyAt(c, s, p);
    forall x | x in c.ids && x > p ensures LinkOk(EndsAt(c, s, x, p).(a := b)) {
      WakeLink(c, s, s', p, i, x);
    }
    MainLinksOut(c, s, p, i, b);
    LocalKeeps(c, s, s', p, b);
  }

  lemma ForgetLink(c: Net, s: State, s': State, p: int, i: nat, x: int)
    requires Here(c, s, p) && Forget(s, s', p, c.order[p], i)
    requires x in c.ids && x > p && LinkAt(c, s, x, p)
    ensures LinkOk(EndsAt(c, s, x, p).(a := s'.parties[p]))
  {
    MainLinkUnaffected(c, s, p, s'.parties[p], x);
  }

  lemma ForgetKeepsInv(c: Net, s: State, s': State, p: int, i: nat)
    requires Inv(c, s) && p in c.ids && Forget(s, s', p, c.order[p], i)
    ensures Inv(c, s')
  {
    var b := s'.parties[p];
    assert PartyAt(c, s, p);
    forall x | x in c.ids && x > p ensures LinkOk(EndsAt(c, s, x, p).(a := b)) {
      ForgetLink(c, s, s', p, i, x);
    }
    MainLinksOut(c, s, p, i, b);
    LocalKeeps(c, s, s', p, b);
  }

  /** The connection is there when `accept` looks for it. */
  lemma AcceptFinds(c: Net, s: State, p: int, i: nat)
    requires Inv(c, s) && p in c.ids && s.parties[p].phase == Forgotten(i) && i < |c.order[p]|
    ensures c.order[p][i] in s.parties[p].connections && c.order[p][i] > p
  {
    var y := c.order[p][i];
    assert PartyAt(c, s, p) && LinkAt(c, s, y, p);
    FindAt(c.order[p], c.ids, i, y);
    TakeKeeps(EndsAt(c, s, y, p), i);
  }

  lemma TakeLink(c: Net, s: State, s': State, p: int, i: nat, x: int)
    requires Here(c, s, p) && Take(s, s', p, c.order[p], i) && c.order[p][i] in s.parties[p].connections
    requires x in c.ids && x > p && LinkAt(c, s, x, p)
    ensures LinkOk(EndsAt(c, s, x, p).(a := s'.parties[p]))
  {
    var b, y := s'.parties[p], c.order[p][i];
    if x == y {
      FindAt(c.order[p], c.ids, i, y);
      TakeKeeps(EndsAt(c, s, y, p), i);
    } else {
      IndexMoves(c.order[p], c.ids, s.parties[p].phase, b.phase, i, x);
      MainLinkUnaffected(c, s, p, b, x);
    }
  }

  lemma TakeKeepsInv(c: Net, s: State, s': State, p: int, i: nat)
    requires Inv(c, s) && p in c.ids && Take(s, s', p, c.order[p], i)
    ensures Inv(c, s')
  {
    var b := s'.parties[p];
    assert PartyAt(c, s, p);
    AcceptFinds(c, s, p, i);
    forall x | x in c.ids && x > p ensures LinkOk(EndsAt(c, s, x, p).(a := b)) {
      TakeLink(c, s, s', p, i, x);
    }
    MainLinksOut(c, s, p, i, b);
    LocalKeeps(c, s, s', p, b);
  }

  /** f is the phase of a party that is through with all peers, l being its list. */
  predicate AllPassed(f: Phase, l: seq<int>) {
    f == AtPeer(|l|) || (f.SendingAck? && f.i <= |l|) || (f.AwaitingAck? && f.i <= |l|) || f.Done?
  }

  lemma LateSame(l: seq<int>, a: Party, g: Phase, x: int)
    requires AllPassed(a.phase, l) && AllPassed(g, l)
    ensures SameForDialler(l, a, a.(phase := g), x)
  {
  }

  lemma LateLinksIn(c: Net, s: State, p: int, g: Phase)
    requires Inv(c, s) && p in c.ids && AllPassed(s.parties[p].phase, c.order[p]) && AllPassed(g, c.order[p])
    ensures LinksIn(c, s, p, s.parties[p].(phase := g))
  {
    var b := s.parties[p].(phase := g);
    forall x | x in c.ids && x > p ensures LinkOk(EndsAt(c, s, x, p).(a := b)) {
      assert LinkAt(c, s, x, p);
      LateSame(c.order[p], s.parties[p], g, x);
      MainLinkUnaffected(c, s, p, b, x);
    }
  }

  lemma LateKeepsInv(c: Net, s: State, s': State, p: int, g: Phase)
    requires Inv(c, s) && p in c.ids && s'.sockets == s.sockets
    requires AllPassed(s.parties[p].phase, c.order[p]) && AllPassed(g, c.order[p])
    requires s'.parties == s.parties[p := s.parties[p].(phase := g)]
    ensures Inv(c, s')
  {
    var b := s'.parties[p];
    assert PartyAt(c, s, p);
    LateLinksIn(c, s, p, g);
    MainLinksOut(c, s, p, |c.order[p]|, b);
    LocalKeeps(c, s, s', p, b);
  }

  // ------------------------------------------------------------------ dialling

  /** What the dialling of y by p, at position i, makes of a link. */
  function AfterDial(e: Ends, p: int, y: int, i: nat): (e': Ends) {
    var k := |e.sockets|;
    e.(f := if e.x == p then Dialled(i, k) else e.f,
       a := if e.p == p then e.a.(phase := Dialled(i, k)) else if e.p == y then e.a.(backlog := e.a.backlog + {k})
         else e.a,
       sockets := e.sockets + [Socket(p, y, false)])
  }

  lemma AfterDialOk(e: Ends, p: int, y: int, i: nat)
    requires LinkOk(e) && y < p && e.p < e.x
    requires e.x == p ==> e.f == AtPeer(i) && i < |e.lx| && e.lx[i] == y && (Find(e.lx, e.p) == i <==> e.p == y)
    requires e.p == p ==> e.a.phase == AtPeer(i) && i < |e.lp| && e.lp[i] == y
    requires forall j :: j in e.a.backlog ==> j < |e.sockets|
    requires e.a.hand.Reading? ==> e.a.hand.socket < |e.sockets|
    ensures LinkOk(AfterDial(e, p, y, i))
  {
    var e', o := AfterDial(e, p, y, i), Socket(p, y, false);
    if e.x == p && e.p == y {
      DialKeeps(e, i, e');
    } else if e.x == p {
      DiallerUnaffected(e, e.(f := e'.f));
      OtherDialKeeps(e.(f := e'.f), o, e');
    } else if e.p == p {
      TargetUnaffected(e, e.(a := e'.a));
      OtherDialKeeps(e.(a := e'.a), o, e');
    } else {
      OtherDialKeeps(e, o, e');
    }
  }

  lemma DialLink(c: Net, s: State, s': State, p: int, i: nat, x: int, z: int)
    requires Known(c, s) && p in c.ids && Dial(s, s', p, c.order[p], i) && Known(c, s')
    requires x in c.ids && z in c.ids && z < x && LinkAt(c, s, x, z) && PartyAt(c, s, z)
    ensures LinkAt(c, s', x, z)
  {
    FindAt(c.order[p], c.ids, i, z);
    AfterDialOk(EndsAt(c, s, x, z), p, c.order[p][i], i);
    assert EndsAt(c, s', x, z) == AfterDial(EndsAt(c, s, x, z), p, c.order[p][i], i);
  }

  lemma DialParty(c: Net, s: State, s': State, p: int, i: nat, z: int)
    requires Known(c, s) && p in c.ids && Dial(s, s', p, c.order[p], i) && Known(c, s') && z in c.ids &&
      PartyAt(c, s, z)
    ensures PartyAt(c, s', z)
  {
    MoreSockets(c.ids, z, s.parties[z], c.order[z], s.sockets, Socket(p, c.order[p][i], false));
  }

  lemma DialKeepsInv(c: Net, s: State, s': State, p: int, i: nat)
    requires Inv(c, s) && p in c.ids && Dial(s, s', p, c.order[p], i)
    ensures Inv(c, s')
  {
    assert s'.parties.Keys == c.ids;
    forall z | z in c.ids ensures PartyAt(c, s', z) {
      DialParty(c, s, s', p, i, z);
    }
    forall x, z | x in c.ids && z in c.ids && z < x ensures LinkAt(c, s', x, z) {
      DialLink(c, s, s', p, i, x, z);
    }
  }

  /** What sending its id to y, over socket k, makes of a link. */
  function AfterSendId(e: Ends, p: int, y: int, i: nat, k: nat): (e': Ends)
    requires k < |e.sockets|
  {
    e.(f := if e.x == p then AtPeer(i + 1) else e.f,
       ch := if e.x == p then e.ch[y := k] else e.ch,
       a := if e.p == p then e.a.(phase := AtPeer(i + 1), channels := e.a.channels[y := k]) else e.a,
       sockets := e.sockets[k := e.sockets[k].(named := true)])
  }

  lemma AfterSendIdOk(e: Ends, p: int, y: int, i: nat, k: nat)
    requires LinkOk(e) && y < p && e.p < e.x && k < |e.sockets| && e.sockets[k] == Socket(p, y, false)
    requires e.x == p ==> e.f == Dialled(i, k) && i < |e.lx| && e.lx[i] == y && (Find(e.lx, e.p) == i <==> e.p == y)
    requires e.p == p ==> e.a.phase == Dialled(i, k) && Find(e.lp, e.x) != i
    ensures LinkOk(AfterSendId(e, p, y, i, k))
  {
    var e' := AfterSendId(e, p, y, i, k);
    if e.x == p && e.p == y {
      SendIdKeeps(e, i, k, e');
    } else if e.x == p {
      DiallerUnaffected(e, e.(f := e'.f, ch := e'.ch));
      OtherSendIdKeeps(e.(f := e'.f, ch := e'.ch), k, e');
    } else if e.p == p {
      TargetUnaffected(e, e.(a := e'.a));
      OtherSendIdKeeps(e.(a := e'.a), k, e');
    } else {
      OtherSendIdKeeps(e, k, e');
    }
  }

  lemma SendIdLink(c: Net, s: State, s': State, p: int, i: nat, x: int, z: int)
    requires Here(c, s, p) && SendId(s, s', p, c.order[p], i) && Known(c, s')
    requires x in c.ids && z in c.ids && z < x && LinkAt(c, s, x, z)
    ensures LinkAt(c, s', x, z)
  {
    var y, k := c.order[p][i], s.parties[p].phase.socket;
    FindAt(c.order[p], c.ids, i, z);
    FindAt(c.order[p], c.ids, i, x);
    AfterSendIdOk(EndsAt(c, s, x, z), p, y, i, k);
    assert EndsAt(c, s', x, z) == AfterSendId(EndsAt(c, s, x, z), p, y, i, k);
  }

  lemma SendIdParty(c: Net, s: State, s': State, p: int, i: nat, z: int)
    requires Here(c, s, p) && SendId(s, s', p, c.order[p], i) && Known(c, s') && z in c.ids && PartyAt(c, s, z)
    ensures PartyAt(c, s', z)
  {
    NamedSocket(c.ids, z, s'.parties[z], c.order[z], s.sockets, s.parties[p].phase.socket);
  }

  lemma SendIdKeepsInv(c: Net, s: State, s': State, p: int, i: nat)
    requires Inv(c, s) && p in c.ids && SendId(s, s', p, c.order[p], i)
    ensures Inv(c, s')
  {
    assert s'.parties.Keys == c.ids;
    assert PartyAt(c, s, p);
    forall z | z in c.ids ensures PartyAt(c, s', z) {
      SendIdParty(c, s, s', p, i, z);
    }
    forall x, z | x in c.ids && z in c.ids && z < x ensures LinkAt(c, s', x, z) {
      SendIdLink(c, s, s', p, i, x, z);
    }
  }

  // ------------------------------------------------------------------ every step

  lemma MainKeepsInv(c: Net, s: State, s': State, p: int, i: nat)
    requires Inv(c, s) && p in c.ids && MainStep(s, s', p, c.order[p], i)
    ensures Inv(c, s')
  {
    var l := c.order[p];
    if Skip(s, s', p, l, i) {
      SkipKeepsInv(c, s, s', p, i);
    } else if Dial(s, s', p, l, i) {
      DialKeepsInv(c, s, s', p, i);
    } else if SendId(s, s', p, l, i) {
      SendIdKeepsInv(c, s, s', p, i);
    } else if GetNotify(s, s', p, l, i) {
      GetNotifyKeepsInv(c, s, s', p, i);
    } else if Wake(s, s', p, l, i) {
      WakeKeepsInv(c, s, s', p, i);
    } else if Forget(s, s', p, l, i) {
      ForgetKeepsInv(c, s, s', p, i);
    } else if Take(s, s', p, l, i) {
      TakeKeepsInv(c, s, s', p, i);
    } else {
      LateKeepsInv(c, s, s', p, s'.parties[p].phase);
    }
  }
}
