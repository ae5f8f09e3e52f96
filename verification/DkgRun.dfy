/**
  Whole runs of the key generation among honest parties, in every interleaving.

  Every ordered pair of parties has a first-in-first-out channel. A step is one send or one receive
  of one party, allowed by that party's own program order.
*/
module DkgRun {
  import opened Collections
  import opened DkgParty
  import opened DkgHonest

  /**
    `sent[(i, j)]`: how many messages i has sent to j; `heard[(i, j)]`: what i has received from j; `net[(i, j)]`:
    under way from i to j.
  */
  datatype State = State(sent: map<(int, int), nat>, heard: map<(int, int), seq<Msg>>,
                         net: map<(int, int), seq<Msg>>, stopped: set<int>)

  ghost predicate Pair(su: Setup, i: int, j: int) {
    i in su.all && j in su.all && i != j
  }

  ghost predicate Shaped(su: Setup, s: State) {
    forall i, j :: Pair(su, i, j) ==> (i, j) in s.sent && (i, j) in s.heard && (i, j) in s.net
  }

  ghost predicate Initial(su: Setup, s: State) {
    && Shaped(su, s) && s.stopped == {}
    && forall i, j :: Pair(su, i, j) ==> s.sent[(i, j)] == 0 && s.heard[(i, j)] == [] && s.net[(i, j)] == []
  }

  // ------------------------------------------------------------------ program order

  ghost predicate SentAll(su: Setup, s: State, i: int, r: nat)
    requires Shaped(su, s)
  {
    forall k :: Pair(su, i, k) ==> s.sent[(i, k)] >= r
  }

  ghost predicate HeardAll(su: Setup, s: State, i: int, r: nat)
    requires Shaped(su, s)
  {
    forall k :: Pair(su, i, k) ==> |s.heard[(i, k)]| >= r
  }

  /** Party i lists k before j. */
  ghost predicate Before(su: Setup, i: int, k: int, j: int) {
    i in su.orders && Find(su.orders[i], k) < Find(su.orders[i], j)
  }

  /** Everybody listed before j has been sent at least r messages. */
  ghost predicate SentBefore(su: Setup, s: State, i: int, j: int, r: nat)
    requires Shaped(su, s)
  {
    forall k :: Pair(su, i, k) && Before(su, i, k, j) ==> s.sent[(i, k)] >= r
  }

  ghost predicate HeardBefore(su: Setup, s: State, i: int, j: int, r: nat)
    requires Shaped(su, s)
  {
    forall k :: Pair(su, i, k) && Before(su, i, k, j) ==> |s.heard[(i, k)]| >= r
  }

  /**
    May i send its next message to j? In the first variant one task per peer sends the share,
    receives one, sends the public key and receives one; all tasks are joined before the group keys
    go out. In the second variant the payloads go out by one task per peer, and every later round
    is a broadcast in list order after the round before it is complete.
  */
  ghost predicate SendTurn(su: Setup, s: State, i: int, j: int)
    requires Shaped(su, s) && Pair(su, i, j)
  {
    var r := s.sent[(i, j)];
    && r < Rounds(su.v)
    && if su.v.SemiHonest? then
         (r == 1 ==> |s.heard[(i, j)]| >= 1) && (r == 2 ==> HeardAll(su, s, i, 2))
       else
         r >= 1 ==> HeardAll(su, s, i, r) && SentBefore(su, s, i, j, r + 1)
  }

  /** May i receive its next message from j? The verification results are received in list order. */
  ghost predicate RecvTurn(su: Setup, s: State, i: int, j: int)
    requires Shaped(su, s) && Pair(su, i, j)
  {
    var r := |s.heard[(i, j)]|;
    && r < Rounds(su.v)
    && if su.v.SemiHonest? || r == 0 then s.sent[(i, j)] >= r + 1
       else SentAll(su, s, i, r + 1) && (r == 1 ==> HeardBefore(su, s, i, j, 2))
  }

  // ------------------------------------------------------------------ steps

  ghost function HeardOf(su: Setup, s: State, i: int): Heard
    requires Shaped(su, s) && i in su.all
  {
    map k | k in su.all && k != i :: assert Pair(su, i, k); s.heard[(i, k)]
  }

  /** An error in preparing the message stops the party. */
  ghost function AfterSend(s: State, i: int, j: int, m: Option<Msg>): State
    requires (i, j) in s.sent && (i, j) in s.net
  {
    var e := (i, j);
    if m.None? then s.(stopped := s.stopped + {i})
    else s.(sent := s.sent[e := s.sent[e] + 1], net := s.net[e := s.net[e] + [m.value]])
  }

  ghost predicate SendStep(su: Setup, s: State, s': State, i: int, j: int)
    requires Committed(su) && Shaped(su, s)
  {
    && Pair(su, i, j) && i !in s.stopped && SendTurn(su, s, i, j)
    && s' == AfterSend(s, i, j, Produce(su, i, HeardOf(su, s, i), j, s.sent[(i, j)]))
  }

  ghost predicate RecvStep(su: Setup, s: State, s': State, i: int, j: int)
    requires Committed(su) && Shaped(su, s)
  {
    && Pair(su, i, j) && i !in s.stopped && RecvTurn(su, s, i, j)
    && var e, f := (i, j), (j, i);
       assert Pair(su, j, i);
       && s.net[f] != []
       && s' == s.(heard := s.heard[e := s.heard[e] + [s.net[f][0]]], net := s.net[f := s.net[f][1..]])
  }

  ghost predicate Step(su: Setup, s: State, s': State)
    requires Committed(su)
  {
    Shaped(su, s) && exists i, j :: SendStep(su, s, s', i, j) || RecvStep(su, s, s', i, j)
  }

  /** All messages have been exchanged: every party is at the end of its program. */
  ghost predicate Complete(su: Setup, s: State) {
    Shaped(su, s) && forall i, j :: Pair(su, i, j) ==>
      s.sent[(i, j)] == Rounds(su.v) && |s.heard[(i, j)]| == Rounds(su.v)
  }

  // ------------------------------------------------------------------ the invariant

  ghost function Script(su: Setup, i: int, j: int): (r: seq<Msg>)
    requires Committed(su) && Pair(su, i, j)
  {
    seq(Rounds(su.v), x requires 0 <= x < Rounds(su.v) => Intended(su, i, j, x))
  }

  /** On the way from i to j: what was heard, then what is under way, is the intended sequence. */
  ghost predicate InOrder(su: Setup, s: State, i: int, j: int)
    requires Committed(su) && Shaped(su, s) && Pair(su, i, j)
  {
    assert Pair(su, j, i);
    var n, m := |s.heard[(j, i)]|, s.sent[(i, j)];
    && n <= m <= Rounds(su.v)
    && s.heard[(j, i)] == Script(su, i, j)[..n]
    && s.net[(i, j)] == Script(su, i, j)[n..m]
  }

  /** Every channel carries the intended sequence, and whoever has sent something has no zero share. */
  ghost predicate Ordered(su: Setup, s: State)
    requires Committed(su)
  {
    && Shaped(su, s)
    && (forall i, j :: Pair(su, i, j) ==> InOrder(su, s, i, j))
    && forall i, j :: Pair(su, i, j) && s.sent[(i, j)] > 0 ==> !HasZeroShare(su, i)
  }

  ghost predicate Inv(su: Setup, s: State)
    requires Committed(su)
  {
    Ordered(su, s) && s.stopped == {}
  }

  lemma InitialInv(su: Setup, s: State)
    requires Committed(su) && Initial(su, s)
    ensures Inv(su, s)
  {
    forall i, j | Pair(su, i, j) ensures InOrder(su, s, i, j) {
      assert Pair(su, j, i);
    }
  }

  lemma HeardIsIntended(su: Setup, s: State, i: int, r: nat)
    requires Committed(su) && Ordered(su, s) && i in su.all && r <= Rounds(su.v) && HeardAll(su, s, i, r)
    ensures HeardIntended(su, i, HeardOf(su, s, i), r)
  {
    forall k | k in su.all && k != i ensures HeardFrom(su, i, HeardOf(su, s, i), k, r) {
      assert Pair(su, i, k) && Pair(su, k, i) && InOrder(su, s, k, i);
    }
  }

  lemma ProducesIntended(su: Setup, s: State, i: int, j: int)
    requires Committed(su) && Ordered(su, s) && Pair(su, i, j) && SendTurn(su, s, i, j)
    ensures var r := s.sent[(i, j)];
      Produce(su, i, HeardOf(su, s, i), j, r) == if Blocked(su, i, r) then None else Some(Intended(su, i, j, r))
  {
    var r := s.sent[(i, j)];
    assert HeardAll(su, s, i, Needs(su.v, r));
    HeardIsIntended(su, s, i, Needs(su.v, r));
    ProduceIntended(su, i, HeardOf(su, s, i), j, r);
  }

  /** A send puts the intended message of the sender's round on the channel, or the sender stops because of a zero. */
  lemma SendsIntended(su: Setup, s: State, s': State, i: int, j: int)
    requires Committed(su) && Ordered(su, s) && SendStep(su, s, s', i, j)
    ensures if Blocked(su, i, s.sent[(i, j)]) then s' == s.(stopped := s.stopped + {i}) else Appended(su, s, s', i, j)
  {
    ProducesIntended(su, s, i, j);
  }

  ghost predicate Appended(su: Setup, s: State, s': State, i: int, j: int)
    requires Committed(su) && Shaped(su, s)
  {
    && Pair(su, i, j) && s.sent[(i, j)] < Rounds(su.v)
    && s' == AfterSend(s, i, j, Some(Intended(su, i, j, s.sent[(i, j)])))
  }

  lemma AppendKeepsOrder(su: Setup, s: State, s': State, i: int, j: int)
    requires Committed(su) && Ordered(su, s) && Appended(su, s, s', i, j) && !Blocked(su, i, s.sent[(i, j)])
    ensures Ordered(su, s') && s'.stopped == s.stopped
  {
    forall x, y | Pair(su, x, y) ensures InOrder(su, s', x, y) {
      assert InOrder(su, s, x, y) && Pair(su, y, x);
      if (x, y) == (i, j) {
        ScriptSlices(su, i, j, |s.heard[(j, i)]|, s.sent[(i, j)]);
      }
    }
  }

  lemma ScriptSlices(su: Setup, i: int, j: int, n: nat, m: nat)
    requires Committed(su) && Pair(su, i, j) && n <= m <= Rounds(su.v)
    ensures m < Rounds(su.v) ==> Script(su, i, j)[n..m + 1] == Script(su, i, j)[n..m] + [Intended(su, i, j, m)]
    ensures n < m ==> Script(su, i, j)[n..m][1..] == Script(su, i, j)[n + 1..m]
    ensures n < m ==> Script(su, i, j)[..n + 1] == Script(su, i, j)[..n] + [Intended(su, i, j, n)]
  {
    var t := Script(su, i, j);
    assert m < |t| ==> t[m] == Intended(su, i, j, m) && t[n..m + 1] == t[n..m] + [t[m]];
    assert n < m ==> t[n] == Intended(su, i, j, n) && t[..n + 1] == t[..n] + [t[n]] && t[n..m][1..] == t[n + 1..m];
  }

  lemma SendKeepsOrder(su: Setup, s: State, s': State, i: int, j: int)
    requires Committed(su) && Ordered(su, s) && SendStep(su, s, s', i, j)
    ensures Ordered(su, s') && (NoZeroKey(su) ==> s'.stopped == s.stopped && Appended(su, s, s', i, j))
  {
    SendsIntended(su, s, s', i, j);
    if !Blocked(su, i, s.sent[(i, j)]) {
      AppendKeepsOrder(su, s, s', i, j);
    } else {
      forall x, y | Pair(su, x, y) ensures InOrder(su, s', x, y) {
        assert InOrder(su, s, x, y) && Pair(su, y, x);
      }
    }
  }

  /** A receive yields the peer's message of the receiver's round. */
  lemma ReceivesSameRound(su: Setup, s: State, s': State, i: int, j: int)
    requires Committed(su) && Ordered(su, s) && RecvStep(su, s, s', i, j)
    ensures Shaped(su, s')
    ensures var r := |s.heard[(i, j)]|; s'.heard[(i, j)] == s.heard[(i, j)] + [Intended(su, j, i, r)]
  {
    assert Pair(su, j, i) && InOrder(su, s, j, i);
    assert s.net[(j, i)][0] == Script(su, j, i)[|s.heard[(i, j)]|];
  }

  lemma RecvKeepsOrder(su: Setup, s: State, s': State, i: int, j: int)
    requires Committed(su) && Ordered(su, s) && RecvStep(su, s, s', i, j)
    ensures Ordered(su, s') && s'.stopped == s.stopped
  {
    var n := |s.heard[(i, j)]|;
    ReceivesSameRound(su, s, s', i, j);
    forall x, y | Pair(su, x, y) ensures InOrder(su, s', x, y) {
      assert InOrder(su, s, x, y) && Pair(su, y, x);
      if (x, y) == (j, i) {
        ScriptSlices(su, j, i, n, s.sent[(j, i)]);
      }
    }
  }

  // ------------------------------------------------------------------ progress

  /** A pair that has heard least. */
  lemma LeastHeard(su: Setup, s: State, i0: int, j0: int) returns (i: int, j: int)
    requires Shaped(su, s) && Pair(su, i0, j0)
    ensures Pair(su, i, j) && |s.heard[(i, j)]| <= |s.heard[(i0, j0)]|
    ensures forall x, y :: Pair(su, x, y) ==> |s.heard[(i, j)]| <= |s.heard[(x, y)]|
    decreases |s.heard[(i0, j0)]|
  {
    if x, y :| Pair(su, x, y) && |s.heard[(x, y)]| < |s.heard[(i0, j0)]| {
      i, j := LeastHeard(su, s, x, y);
    } else {
      i, j := i0, j0;
    }
  }

  /** The first listed peer to whom i has not sent message number r. */
  lemma FirstUnsent(su: Setup, s: State, i: int, j: int, r: nat) returns (k: int)
    requires Shaped(su, s) && Pair(su, i, j) && s.sent[(i, j)] <= r && i in su.orders
    ensures Pair(su, i, k) && s.sent[(i, k)] <= r && SentBefore(su, s, i, k, r + 1)
    decreases Find(su.orders[i], j)
  {
    if m :| Pair(su, i, m) && Before(su, i, m, j) && s.sent[(i, m)] <= r {
      k := FirstUnsent(su, s, i, m, r);
    } else {
      k := j;
    }
  }

  lemma FirstUnheard(su: Setup, s: State, i: int, j: int, r: nat) returns (k: int)
    requires Shaped(su, s) && Pair(su, i, j) && |s.heard[(i, j)]| <= r && i in su.orders
    ensures Pair(su, i, k) && |s.heard[(i, k)]| <= r && HeardBefore(su, s, i, k, r + 1)
    decreases Find(su.orders[i], j)
  {
    if m :| Pair(su, i, m) && Before(su, i, m, j) && |s.heard[(i, m)]| <= r {
      k := FirstUnheard(su, s, i, m, r);
    } else {
      k := j;
    }
  }

  lemma CanSend(su: Setup, s: State, i: int, j: int)
    requires Committed(su) && Inv(su, s) && Pair(su, i, j) && SendTurn(su, s, i, j)
    ensures exists s' :: Step(su, s, s')
  {
    var s' := AfterSend(s, i, j, Produce(su, i, HeardOf(su, s, i), j, s.sent[(i, j)]));
    assert SendStep(su, s, s', i, j);
    assert Step(su, s, s');
  }

  lemma CanReceive(su: Setup, s: State, i: int, j: int)
    requires Committed(su) && Shaped(su, s) && s.stopped == {}
    requires Pair(su, i, j) && RecvTurn(su, s, i, j) && Pair(su, j, i) && s.net[(j, i)] != []
    ensures exists s' :: Step(su, s, s')
  {
    var e, f := (i, j), (j, i);
    var s' := s.(heard := s.heard[e := s.heard[e] + [s.net[f][0]]], net := s.net[f := s.net[f][1..]]);
    assert RecvStep(su, s, s', i, j);
    assert Step(su, s, s');
  }

  /** Everybody has heard r messages from everybody. */
  ghost predicate HeardEverywhere(su: Setup, s: State, r: nat)
    requires Shaped(su, s)
  {
    forall x, y :: Pair(su, x, y) ==> |s.heard[(x, y)]| >= r
  }

  lemma SomeoneCanSend(su: Setup, s: State, r: nat, x: int, y: int)
    requires Committed(su) && Inv(su, s) && HeardEverywhere(su, s, r) && r < Rounds(su.v)
    requires Pair(su, x, y) && s.sent[(x, y)] <= r
    ensures exists s' :: Step(su, s, s')
  {
    var k := FirstUnsent(su, s, x, y, r);
    assert Pair(su, x, k);
    assert SendTurn(su, s, x, k);
    CanSend(su, s, x, k);
  }

  lemma SomeoneCanReceive(su: Setup, s: State, r: nat, i: int, j: int)
    requires Committed(su) && Inv(su, s) && HeardEverywhere(su, s, r) && r < Rounds(su.v)
    requires forall x, y :: Pair(su, x, y) ==> s.sent[(x, y)] > r
    requires Pair(su, i, j) && |s.heard[(i, j)]| <= r
    ensures exists s' :: Step(su, s, s')
  {
    var k := FirstUnheard(su, s, i, j, r);
    assert Pair(su, k, i) && InOrder(su, s, k, i) && Pair(su, i, k);
    assert s.sent[(k, i)] > r && |s.heard[(i, k)]| == r;
    assert SentAll(su, s, i, r + 1);
    assert RecvTurn(su, s, i, k);
    CanReceive(su, s, i, k);
  }

  /** No interleaving can get stuck: until all messages are exchanged, some party can move. */
  lemma NeverStuck(su: Setup, s: State)
    requires Committed(su) && Inv(su, s) && !Complete(su, s)
    ensures exists s' :: Step(su, s, s')
  {
    var i0, j0 := SomeUnheard(su, s);
    var i, j := LeastHeard(su, s, i0, j0);
    var r := |s.heard[(i, j)]|;
    if x, y :| Pair(su, x, y) && s.sent[(x, y)] <= r {
      SomeoneCanSend(su, s, r, x, y);
    } else {
      SomeoneCanReceive(su, s, r, i, j);
    }
  }

  lemma SomeUnheard(su: Setup, s: State) returns (i: int, j: int)
    requires Committed(su) && Inv(su, s) && !Complete(su, s)
    ensures Pair(su, i, j) && |s.heard[(i, j)]| < Rounds(su.v)
  {
    var x, y :| Pair(su, x, y) && !(s.sent[(x, y)] == Rounds(su.v) && |s.heard[(x, y)]| == Rounds(su.v));
    assert Pair(su, y, x) && InOrder(su, s, x, y) && InOrder(su, s, y, x);
    if |s.heard[(x, y)]| < Rounds(su.v) {
      i, j := x, y;
    } else {
      i, j := y, x;
    }
  }

  // ------------------------------------------------------------------ every run ends

  ghost function Cell(su: Setup, s: State, i: int, j: int): nat
    requires Shaped(su, s)
  {
    if Pair(su, i, j) then s.sent[(i, j)] + |s.heard[(i, j)]| else 0
  }

  ghost function Row(su: Setup, s: State, i: int, b: nat): nat
    requires Shaped(su, s) && b <= |su.ids|
  {
    if b == 0 then 0 else Row(su, s, i, b - 1) + Cell(su, s, i, su.ids[b - 1])
  }

  /** The number of sends and receives done by the first a parties. */
  ghost function Table(su: Setup, s: State, a: nat): nat
    requires Shaped(su, s) && a <= |su.ids|
  {
    if a == 0 then 0 else Table(su, s, a - 1) + Row(su, s, su.ids[a - 1], |su.ids|)
  }

  /** One cell of the table, the one of ids[x] and ids[y], grows by one. */
  ghost predicate OneMore(su: Setup, s: State, s': State, x: nat, y: nat)
    requires Shaped(su, s) && Shaped(su, s') && x < |su.ids| && y < |su.ids|
  {
    forall i, j :: Cell(su, s', i, j) == Cell(su, s, i, j) + if (i, j) == (su.ids[x], su.ids[y]) then 1 else 0
  }

  lemma {:induction false} RowGrows(su: Setup, s: State, s': State, i: int, b: nat, x: nat, y: nat)
    requires Lists(su.ids, su.all) && Shaped(su, s) && Shaped(su, s') && x < |su.ids| && y < |su.ids| && b <= |su.ids|
    requires OneMore(su, s, s', x, y)
    ensures Row(su, s', i, b) == Row(su, s, i, b) + if i == su.ids[x] && y < b then 1 else 0
  {
    if b > 0 {
      RowGrows(su, s, s', i, b - 1, x, y);
    }
  }

  lemma {:induction false} TableGrows(su: Setup, s: State, s': State, a: nat, x: nat, y: nat)
    requires Lists(su.ids, su.all) && Shaped(su, s) && Shaped(su, s') && x < |su.ids| && y < |su.ids| && a <= |su.ids|
    requires OneMore(su, s, s', x, y)
    ensures Table(su, s', a) == Table(su, s, a) + if x < a then 1 else 0
  {
    if a > 0 {
      TableGrows(su, s, s', a - 1, x, y);
      RowGrows(su, s, s', su.ids[a - 1], |su.ids|, x, y);
    }
  }

  /** Sends, receives and stops so far. */
  ghost function Count(su: Setup, s: State): nat
    requires Shaped(su, s)
  {
    Table(su, s, |su.ids|) + |s.stopped|
  }

  lemma CellsAfterSend(su: Setup, s: State, s': State, x: nat, y: nat)
    requires Committed(su) && Shaped(su, s) && Shaped(su, s') && x < |su.ids| && y < |su.ids|
    requires Appended(su, s, s', su.ids[x], su.ids[y])
    ensures OneMore(su, s, s', x, y)
  {
  }

  lemma CellsAfterReceive(su: Setup, s: State, s': State, x: nat, y: nat)
    requires Committed(su) && Shaped(su, s) && Shaped(su, s') && x < |su.ids| && y < |su.ids|
    requires RecvStep(su, s, s', su.ids[x], su.ids[y])
    ensures OneMore(su, s, s', x, y)
  {
  }

  lemma {:induction false} SameTable(su: Setup, s: State, s': State, a: nat)
    requires Shaped(su, s) && s' == s.(stopped := s'.stopped) && a <= |su.ids|
    ensures Table(su, s', a) == Table(su, s, a)
  {
    if a > 0 {
      SameTable(su, s, s', a - 1);
      SameRow(su, s, s', su.ids[a - 1], |su.ids|);
    }
  }

  lemma {:induction false} SameRow(su: Setup, s: State, s': State, i: int, b: nat)
    requires Shaped(su, s) && s' == s.(stopped := s'.stopped) && b <= |su.ids|
    ensures Row(su, s', i, b) == Row(su, s, i, b)
  {
    if b > 0 {
      SameRow(su, s, s', i, b - 1);
    }
  }

  lemma SendCounts(su: Setup, s: State, s': State, i: int, j: int)
    requires Committed(su) && Ordered(su, s) && SendStep(su, s, s', i, j)
    ensures Ordered(su, s') && Count(su, s') == Count(su, s) + 1 && s'.stopped <= s.stopped + {i} && i in su.all
  {
    SendKeepsOrder(su, s, s', i, j);
    SendsIntended(su, s, s', i, j);
    if Blocked(su, i, s.sent[(i, j)]) {
      SameTable(su, s, s', |su.ids|);
    } else {
      var x, y := Find(su.ids, i), Find(su.ids, j);
      CellsAfterSend(su, s, s', x, y);
      TableGrows(su, s, s', |su.ids|, x, y);
    }
  }

  lemma ReceiveCounts(su: Setup, s: State, s': State, i: int, j: int)
    requires Committed(su) && Ordered(su, s) && RecvStep(su, s, s', i, j)
    ensures Ordered(su, s') && Count(su, s') == Count(su, s) + 1 && s'.stopped == s.stopped
  {
    RecvKeepsOrder(su, s, s', i, j);
    var x, y := Find(su.ids, i), Find(su.ids, j);
    CellsAfterReceive(su, s, s', x, y);
    TableGrows(su, s, s', |su.ids|, x, y);
  }

  lemma StepCounts(su: Setup, s: State, s': State)
    requires Committed(su) && Ordered(su, s) && Step(su, s, s') && s.stopped <= su.all
    ensures Ordered(su, s') && Count(su, s') == Count(su, s) + 1 && s'.stopped <= su.all
  {
    if i, j :| SendStep(su, s, s', i, j) {
      SendCounts(su, s, s', i, j);
    } else {
      var i, j :| RecvStep(su, s, s', i, j);
      ReceiveCounts(su, s, s', i, j);
    }
  }

  lemma CellBound(su: Setup, s: State, i: int, j: int)
    requires Committed(su) && Ordered(su, s)
    ensures Cell(su, s, i, j) <= 2 * Rounds(su.v)
  {
    if Pair(su, i, j) {
      assert Pair(su, j, i) && InOrder(su, s, i, j) && InOrder(su, s, j, i);
    }
  }

  lemma {:induction false} RowBound(su: Setup, s: State, i: int, b: nat)
    requires Committed(su) && Ordered(su, s) && b <= |su.ids|
    ensures Row(su, s, i, b) <= b * (2 * Rounds(su.v))
  {
    if b > 0 {
      RowBound(su, s, i, b - 1);
      CellBound(su, s, i, su.ids[b - 1]);
      TimesOneMore(b, 2 * Rounds(su.v));
    }
  }

  lemma {:induction false} TableBound(su: Setup, s: State, a: nat)
    requires Committed(su) && Ordered(su, s) && a <= |su.ids|
    ensures Table(su, s, a) <= a * (|su.ids| * (2 * Rounds(su.v)))
  {
    if a > 0 {
      TableBound(su, s, a - 1);
      RowBound(su, s, su.ids[a - 1], |su.ids|);
      TimesOneMore(a, |su.ids| * (2 * Rounds(su.v)));
    }
  }

  lemma {:induction false} InitialTable(su: Setup, s: State, a: nat)
    requires Initial(su, s) && a <= |su.ids|
    ensures Table(su, s, a) == 0
  {
    if a > 0 {
      InitialTable(su, s, a - 1);
      InitialRow(su, s, su.ids[a - 1], |su.ids|);
    }
  }

  lemma {:induction false} InitialRow(su: Setup, s: State, i: int, b: nat)
    requires Initial(su, s) && b <= |su.ids|
    ensures Row(su, s, i, b) == 0
  {
    if b > 0 {
      InitialRow(su, s, i, b - 1);
    }
  }

  // ------------------------------------------------------------------ runs

  ghost predicate Run(su: Setup, states: seq<State>)
    requires Committed(su)
  {
    states != [] && Initial(su, states[0]) && forall k :: 0 <= k < |states| - 1 ==> Step(su, states[k], states[k + 1])
  }

  lemma StepKeepsOrder(su: Setup, s: State, s': State)
    requires Committed(su) && Ordered(su, s) && Step(su, s, s')
    ensures Ordered(su, s') && (NoZeroKey(su) ==> s'.stopped == s.stopped)
  {
    var i, j :| SendStep(su, s, s', i, j) || RecvStep(su, s, s', i, j);
    if SendStep(su, s, s', i, j) {
      SendKeepsOrder(su, s, s', i, j);
    } else {
      RecvKeepsOrder(su, s, s', i, j);
    }
  }

  /** In every run every channel carries the intended sequence, and without a zero nobody stops with an error. */
  lemma {:induction false} RunKeepsInv(su: Setup, states: seq<State>)
    requires Committed(su) && Run(su, states)
    ensures Ordered(su, states[|states| - 1]) && (NoZeroKey(su) ==> Inv(su, states[|states| - 1]))
    decreases |states|
  {
    var n := |states| - 1;
    if n == 0 {
      InitialInv(su, states[0]);
    } else {
      var before := states[..n];
      RunKeepsInv(su, before);
      StepKeepsOrder(su, states[n - 1], states[n]);
    }
  }

  /** Everybody has come to the end and returns a result. */
  ghost predicate AllReturn(su: Setup, s: State)
    requires Committed(su)
  {
    Complete(su, s) && forall i :: i in su.all ==> Finish(su, i, HeardOf(su, s, i)).Some?
  }

  /**
    Every run can be continued until all messages are exchanged, and then every party j returns the
    key F(j), the master key F(0) and the key map k -> F(k) of one joint polynomial F.
  */
  lemma EveryRunAgrees(su: Setup, states: seq<State>)
    requires Committed(su) && NoZeroKey(su) && Run(su, states)
    ensures var s := states[|states| - 1];
      && s.stopped == {}
      && (!Complete(su, s) ==> exists s' :: Step(su, s, s'))
      && (Complete(su, s) ==> forall i :: i in su.all ==> Finish(su, i, HeardOf(su, s, i)) == Some(Agreed(su, i)))
  {
    var s := states[|states| - 1];
    RunKeepsInv(su, states);
    if !Complete(su, s) {
      NeverStuck(su, s);
    } else {
      forall i | i in su.all ensures Finish(su, i, HeardOf(su, s, i)) == Some(Agreed(su, i)) {
        HeardIsIntended(su, s, i, Rounds(su.v));
        FinishIntended(su, i, HeardOf(su, s, i));
      }
    }
  }

  lemma ReturnMeansNoZeroKey(su: Setup, s: State, i: int)
    requires Committed(su) && Ordered(su, s) && Complete(su, s) && i in su.all && Finish(su, i, HeardOf(su, s, i)).Some?
    ensures !ZeroKey(su)
  {
    HeardIsIntended(su, s, i, Rounds(su.v));
    FinishIntended(su, i, HeardOf(su, s, i));
  }

  lemma SenderHasNoZeroShare(su: Setup, s: State, i: int)
    requires Committed(su) && Ordered(su, s) && Complete(su, s) && i in su.all && !ZeroKey(su)
    ensures !HasZeroShare(su, i)
  {
    var others := su.all - {i};
    if others != {} {
      Inhabited(others);
      var j :| j in others;
      assert Pair(su, i, j) && s.sent[(i, j)] > 0;
    } else {
      assert su.all == others + {i};
      AloneHasNoZeroShare(su, i);
    }
  }

  /** The condition is exact: with a zero share or a zero key, no run makes everybody return. */
  lemma ZeroStopsEveryRun(su: Setup, states: seq<State>)
    requires Committed(su) && su.all != {} && Run(su, states) && AllReturn(su, states[|states| - 1])
    ensures NoZeroKey(su)
  {
    RunKeepsInv(su, states);
    forall i | i in su.all ensures !ZeroKey(su) && !HasZeroShare(su, i) {
      ReturnMeansNoZeroKey(su, states[|states| - 1], i);
      SenderHasNoZeroShare(su, states[|states| - 1], i);
    }
    Inhabited(su.all);
  }

  lemma {:induction false} RunCounts(su: Setup, states: seq<State>, n: nat)
    requires Committed(su) && Run(su, states) && n < |states|
    ensures Ordered(su, states[n]) && states[n].stopped <= su.all && Count(su, states[n]) == n
  {
    if n == 0 {
      InitialInv(su, states[0]);
      InitialTable(su, states[0], |su.ids|);
    } else {
      RunCounts(su, states, n - 1);
      assert Step(su, states[n - 1], states[n - 1 + 1]);
      StepCounts(su, states[n - 1], states[n]);
    }
  }

  /** Among n parties there are at most 2 * rounds * n^2 sends and receives, and n stops, whatever the keys are. */
  lemma EveryRunEnds(su: Setup, states: seq<State>)
    requires Committed(su) && Run(su, states)
    ensures |states| - 1 <= |su.ids| * (|su.ids| * (2 * Rounds(su.v))) + |su.ids|
    ensures NoZeroKey(su) ==> |states| - 1 <= |su.ids| * (|su.ids| * (2 * Rounds(su.v)))
  {
    var s := states[|states| - 1];
    RunCounts(su, states, |states| - 1);
    RunKeepsInv(su, states);
    TableBound(su, s, |su.ids|);
    SubsetSize(s.stopped, su.all);
    ListSize(su.ids, su.all);
  }

  // ------------------------------------------------------------------ program order

  /**
    What i has done with j, within its program order. First variant: one task per peer alternates, and group keys go
    out after all tasks are done. Second variant: each round is sent to everybody in list order after everything of
    the round before has been received, and received after it was sent to everybody; the reports in list order.
  */
  ghost predicate OrderedWith(su: Setup, s: State, i: int, j: int)
    requires Shaped(su, s) && Pair(su, i, j)
  {
    var sent, heard := s.sent[(i, j)], |s.heard[(i, j)]|;
    && heard <= sent <= Rounds(su.v)
    && if su.v.SemiHonest? then (sent >= 2 ==> heard >= 1) && (sent >= 3 ==> HeardAll(su, s, i, 2))
       else
         && (sent >= 2 ==> HeardAll(su, s, i, sent - 1) && SentBefore(su, s, i, j, sent))
         && (heard >= 2 ==> SentAll(su, s, i, heard) && HeardBefore(su, s, i, j, 2))
  }

  ghost predicate ProgramOrder(su: Setup, s: State) {
    Shaped(su, s) && forall i, j :: Pair(su, i, j) ==> OrderedWith(su, s, i, j)
  }

  ghost predicate NoLess(su: Setup, s: State, s': State) {
    && Shaped(su, s) && Shaped(su, s')
    && forall i, j :: Pair(su, i, j) ==> s.sent[(i, j)] <= s'.sent[(i, j)] && |s.heard[(i, j)]| <= |s'.heard[(i, j)]|
  }

  lemma OtherPairsStayOrdered(su: Setup, s: State, s': State, i: int, j: int)
    requires NoLess(su, s, s') && Pair(su, i, j) && OrderedWith(su, s, i, j)
    requires s'.sent[(i, j)] == s.sent[(i, j)] && |s'.heard[(i, j)]| == |s.heard[(i, j)]|
    ensures OrderedWith(su, s', i, j)
  {
  }

  lemma SendStaysOrdered(su: Setup, s: State, s': State, i: int, j: int)
    requires Committed(su) && ProgramOrder(su, s) && SendStep(su, s, s', i, j)
    ensures Shaped(su, s') && NoLess(su, s, s') && OrderedWith(su, s', i, j)
    ensures forall x, y :: Pair(su, x, y) && (x, y) != (i, j) ==>
      s'.sent[(x, y)] == s.sent[(x, y)] && s'.heard[(x, y)] == s.heard[(x, y)]
  {
    assert OrderedWith(su, s, i, j);
  }

  lemma ReceiveStaysOrdered(su: Setup, s: State, s': State, i: int, j: int)
    requires Committed(su) && ProgramOrder(su, s) && RecvStep(su, s, s', i, j)
    ensures Shaped(su, s') && NoLess(su, s, s') && OrderedWith(su, s', i, j)
    ensures forall x, y :: Pair(su, x, y) && (x, y) != (i, j) ==>
      s'.sent[(x, y)] == s.sent[(x, y)] && s'.heard[(x, y)] == s.heard[(x, y)]
  {
    assert OrderedWith(su, s, i, j);
  }

  lemma StepStaysOrdered(su: Setup, s: State, s': State)
    requires Committed(su) && ProgramOrder(su, s) && Step(su, s, s')
    ensures ProgramOrder(su, s')
  {
    var i, j :| SendStep(su, s, s', i, j) || RecvStep(su, s, s', i, j);
    if SendStep(su, s, s', i, j) {
      SendStaysOrdered(su, s, s', i, j);
    } else {
      ReceiveStaysOrdered(su, s, s', i, j);
    }
    forall x, y | Pair(su, x, y) ensures OrderedWith(su, s', x, y) {
      if (x, y) != (i, j) {
        OtherPairsStayOrdered(su, s, s', x, y);
      }
    }
  }

  /** In every run every party keeps its program order: nobody goes on before it has received what it waits for. */
  lemma {:induction false} RunKeepsProgramOrder(su: Setup, states: seq<State>, n: nat)
    requires Committed(su) && Run(su, states) && n < |states|
    ensures ProgramOrder(su, states[n])
  {
    if n > 0 {
      RunKeepsProgramOrder(su, states, n - 1);
      assert Step(su, states[n - 1], states[n - 1 + 1]);
      StepStaysOrdered(su, states[n - 1], states[n]);
    }
  }
}
