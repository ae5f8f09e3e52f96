/**
  The queue of contract commands: two database tables, written by the contract listener and read by the loop
  that carries the commands out.

  Both ways of finishing a command delete its row: the wrapper that is named after updating the time sends the
  same request as the one for deletion.
*/
module CommandQueue {
  import opened Collections

  datatype Row = Row(va: int, num: nat, command: string, time: int)

  /** `contract_commands`, by primary key, `contract_cmd_sequence`, and the next automatic key. */
  datatype Table = Table(rows: map<nat, Row>, sequences: map<int, nat>, nextId: nat)

  predicate LeastTime(rows: map<nat, Row>, i: nat) {
    i in rows && forall j :: j in rows ==> rows[i].time <= rows[j].time
  }

  /** i is the queued command of its validator or initiator with the smallest number. */
  predicate First(rows: map<nat, Row>, i: nat) {
    i in rows && forall j :: j in rows && rows[j].va == rows[i].va ==> rows[i].num <= rows[j].num
  }

  /** The two-level query can return row i; m is what the inner query found. */
  predicate Chosen(rows: map<nat, Row>, m: nat, i: nat) {
    LeastTime(rows, m) && First(rows, i) && rows[i].va == rows[m].va
  }

  function Number(t: Table, va: int): (n: nat) {
    if va in t.sequences then t.sequences[va] else 0
  }

  function Inserted(t: Table, va: int, command: string, now: int): (r: Table) {
    var n := Number(t, va) + 1;
    Table(t.rows[t.nextId := Row(va, n, command, now)], t.sequences[va := n], t.nextId + 1)
  }

  function Touched(t: Table, i: nat, now: int): (r: Table)
    requires i in t.rows
  {
    t.(rows := t.rows[i := t.rows[i].(time := now)])
  }

  function Deleted(t: Table, i: nat): (r: Table) {
    t.(rows := t.rows - {i})
  }

  lemma {:induction false} SomeLeast(rows: map<nat, Row>)
    requires rows != map[]
    ensures exists i :: LeastTime(rows, i)
    decreases |rows|
  {
    assert rows.Keys != {};
    var i :| i in rows;
    var rest := rows - {i};
    if rest == map[] {
      forall j | j in rows ensures j == i {
        assert j !in rest;
      }
      assert LeastTime(rows, i);
    } else {
      SomeLeast(rest);
      var j :| LeastTime(rest, j);
      assert forall k :: k in rows ==> k == i || k in rest;
      assert LeastTime(rows, if rows[i].time <= rows[j].time then i else j);
    }
  }

  lemma {:induction false} SomeFirst(rows: map<nat, Row>, va: int, m: nat)
    requires m in rows && rows[m].va == va
    ensures exists i :: First(rows, i) && rows[i].va == va
    decreases rows[m].num
  {
    if j :| j in rows && rows[j].va == va && rows[j].num < rows[m].num {
      SomeFirst(rows, va, j);
    } else {
      assert First(rows, m);
    }
  }

  class Queue {
    var rows: map<nat, Row>
    var sequences: map<int, nat>
    var nextId: nat

    ghost function Value(): (t: Table)
      reads this
    {
      Table(rows, sequences, nextId)
    }

    /** Automatic keys start at 1 and are never used again. */
    ghost predicate Valid()
      reads this
    {
      1 <= nextId && forall i :: i in rows ==> 1 <= i < nextId
    }

    constructor ()
      ensures Valid() && Value() == Table(map[], map[], 1)
    {
      rows, sequences, nextId := map[], map[], 1;
    }

    method IncreaseSequence(va: int) returns (n: nat)
      modifies `sequences
      ensures n == Number(old(Value()), va) + 1 && sequences == old(sequences)[va := n]
    {
      n := 0;
      if va in sequences {
        n := sequences[va];
      }
      n := n + 1;
      sequences := sequences[va := n];
    }

    method Insert(va: int, command: string, now: int)
      requires Valid()
      modifies this
      ensures Valid() && nextId - 1 !in old(rows)
      ensures Value() == Inserted(old(Value()), va, command, now)
      ensures exists n :: rows == old(rows)[old(nextId) := Row(va, n, command, now)]
    {
      var n := IncreaseSequence(va);
      rows := rows[nextId := Row(va, n, command, now)];
      nextId := nextId + 1;
    }

    /** Returns key 0 from an empty table. The choice among equally old rows is free. */
    method Get(now: int) returns (command: string, id: nat)
      requires Valid()
      modifies `rows
      ensures Valid()
      ensures id == 0 <==> old(rows) == map[]
      ensures id == 0 ==> Value() == old(Value()) && command == ""
      ensures id != 0 ==> (exists m :: Chosen(old(rows), m, id)) && command == old(rows)[id].command
      ensures id != 0 ==> Value() == Touched(old(Value()), id, now)
    {
      if rows == map[] {
        return "", 0;
      }
      SomeLeast(rows);
      var m :| m in rows && forall j :: j in rows ==> rows[m].time <= rows[j].time;
      SomeFirst(rows, rows[m].va, m);
      id :| id in rows && rows[id].va == rows[m].va && forall j :: j in rows && rows[j].va == rows[id].va ==>
        rows[id].num <= rows[j].num;
      assert Chosen(rows, m, id);
      command := rows[id].command;
      rows := rows[id := rows[id].(time := now)];
    }

    method Delete(id: nat)
      requires Valid()
      modifies `rows
      ensures Valid()
      ensures Value() == Deleted(old(Value()), id)
    {
      rows := rows - {id};
    }

    /** The wrapper meant to postpone a failed command: it deletes the row as well. */
    method UpdateTime(id: nat)
      requires Valid()
      modifies `rows
      ensures Valid()
      ensures Value() == Deleted(old(Value()), id)
    {
      Delete(id);
    }

    /** One round of `process_contract_command`: whether the command succeeds or fails, its row is gone. */
    method ProcessNext(now: int, succeeds: bool) returns (id: nat)
      requires Valid()
      modifies `rows
      ensures Valid()
      ensures id == 0 <==> old(rows) == map[]
      ensures id != 0 ==> (exists m :: Chosen(old(rows), m, id)) && rows == old(rows) - {id}
      ensures id == 0 ==> rows == map[]
    {
      var command;
      command, id := Get(now);
      if id == 0 {
        return;
      }
      if succeeds {
        Delete(id);
      } else {
        UpdateTime(id);
      }
    }
  }

  // ------------------------------------------------------------------ runs

  datatype Op =
    | Insert(va: int, command: string, now: int)
    | Poll(now: int, m: nat, id: nat)
    | PollEmpty
    | Delete(id: nat)
    | Restart

  /** The table, the row handed out and not finished, if any, and all rows ever inserted. */
  datatype State = State(t: Table, held: set<nat>, log: map<nat, Row>)

  ghost predicate Init(s: State) {
    s == State(Table(map[], map[], 1), {}, map[])
  }

  /** Any interleaving: rows may be deleted at any time, and a restart forgets what was handed out. */
  ghost predicate Step(s: State, op: Op, s': State) {
    match op
    case Insert(va, command, now) =>
      var t := Inserted(s.t, va, command, now);
      s' == State(t, s.held, s.log[s.t.nextId := t.rows[s.t.nextId]])
    case Poll(now, m, id) => Chosen(s.t.rows, m, id) && s' == State(Touched(s.t, id, now), {id}, s.log)
    case PollEmpty => s.t.rows == map[] && s' == s
    case Delete(id) => s' == State(Deleted(s.t, id), s.held - {id}, s.log)
    case Restart => s' == s.(held := {})
  }

  ghost predicate Run(states: seq<State>, ops: seq<Op>) {
    && |states| == |ops| + 1 && Init(states[0])
    && forall i :: 0 <= i < |ops| ==> Step(states[i], ops[i], states[i + 1])
  }

  /** The commands of va that were inserted before the one with key i. */
  ghost function Earlier(log: map<nat, Row>, va: int, i: nat): (r: set<nat>) {
    set j | j in log && j < i && log[j].va == va
  }

  ghost predicate KeysUpTo(log: map<nat, Row>, n: nat) {
    1 <= n && forall i :: i in log <==> 1 <= i < n
  }

  /** The commands of each validator or initiator are numbered 1, 2, 3, ... in the order of insertion. */
  ghost predicate NumberedInOrder(log: map<nat, Row>) {
    forall i :: i in log ==> log[i].num == |Earlier(log, log[i].va, i)| + 1
  }

  ghost predicate Counted(t: Table, log: map<nat, Row>) {
    forall va :: Number(t, va) == |Earlier(log, va, t.nextId)|
  }

  ghost predicate Logged(t: Table, log: map<nat, Row>) {
    forall i :: i in t.rows ==> i in log && t.rows[i] == log[i].(time := t.rows[i].time)
  }

  ghost predicate Numbered(s: State) {
    KeysUpTo(s.log, s.t.nextId) && NumberedInOrder(s.log) && Counted(s.t, s.log) && Logged(s.t, s.log)
  }

  lemma EarlierGrows(log: map<nat, Row>, n: nat, row: Row, va: int, i: nat)
    requires i <= n + 1 && forall j :: j in log ==> j < n
    ensures Earlier(log[n := row], va, i) == Earlier(log, va, i) + if i == n + 1 && va == row.va then {n} else {}
    ensures |Earlier(log[n := row], va, i)| == |Earlier(log, va, i)| + if i == n + 1 && va == row.va then 1 else 0
    ensures Earlier(log, va, n + 1) == Earlier(log, va, n)
  {
  }

  lemma InsertKeepsOrder(log: map<nat, Row>, n: nat, row: Row)
    requires KeysUpTo(log, n) && NumberedInOrder(log) && row.num == |Earlier(log, row.va, n)| + 1
    ensures NumberedInOrder(log[n := row])
  {
    var log' := log[n := row];
    forall i | i in log' ensures log'[i].num == |Earlier(log', log'[i].va, i)| + 1 {
      EarlierGrows(log, n, row, log'[i].va, i);
    }
  }

  lemma InsertKeepsCount(t: Table, log: map<nat, Row>, va: int, command: string, now: int)
    requires KeysUpTo(log, t.nextId) && Counted(t, log)
    ensures var t' := Inserted(t, va, command, now); Counted(t', log[t.nextId := t'.rows[t.nextId]])
  {
    var t', n := Inserted(t, va, command, now), t.nextId;
    forall v ensures Number(t', v) == |Earlier(log[n := t'.rows[n]], v, n + 1)| {
      EarlierGrows(log, n, t'.rows[n], v, n + 1);
      assert Number(t, v) == |Earlier(log, v, n)|;
    }
  }

  lemma InsertKeepsNumbered(s: State, va: int, command: string, now: int, s': State)
    requires Numbered(s) && Step(s, Insert(va, command, now), s')
    ensures Numbered(s')
  {
    assert Number(s.t, va) == |Earlier(s.log, va, s.t.nextId)|;
    InsertKeepsOrder(s.log, s.t.nextId, s'.t.rows[s.t.nextId]);
    InsertKeepsCount(s.t, s.log, va, command, now);
  }

  lemma {:induction false} RunNumbered(states: seq<State>, ops: seq<Op>)
    requires Run(states, ops)
    ensures Numbered(states[|ops|])
  {
    var n := |ops|;
    if n == 0 {
      assert forall va :: Earlier(states[0].log, va, 1) == {};
    } else {
      RunNumbered(states[..n], ops[..n - 1]);
      var op := ops[n - 1];
      assert Step(states[n - 1], op, states[n]);
      if op.Insert? {
        InsertKeepsNumbered(states[n - 1], op.va, op.command, op.now, states[n]);
      }
    }
  }

  // ------------------------------------------------------------------ what is handed out is what was inserted

  /** Before position n, operation k inserted this row, and it got key i. */
  ghost predicate CameAs(states: seq<State>, ops: seq<Op>, k: int, n: nat, i: nat, row: Row) {
    && 0 <= k < n <= |ops| && |states| == |ops| + 1 && states[k].t.nextId == i && ops[k].Insert?
    && row.va == ops[k].va && row.command == ops[k].command && row.time == ops[k].now
  }

  lemma {:induction false} LogIsInserted(states: seq<State>, ops: seq<Op>, n: nat, i: nat) returns (k: nat)
    requires Run(states, ops) && n <= |ops| && i in states[n].log
    ensures CameAs(states, ops, k, n, i, states[n].log[i])
  {
    k := n - 1;
    var s, op := states[k], ops[k];
    assert Step(s, op, states[n]);
    if !(op.Insert? && s.t.nextId == i) {
      k := LogIsInserted(states, ops, n - 1, i);
    }
  }

  /** The command handed out, and the validator or initiator it is for, are those of the insertion that got the key. */
  lemma HandedOutAsInserted(states: seq<State>, ops: seq<Op>, n: nat) returns (k: nat)
    requires Run(states, ops) && n < |ops| && ops[n].Poll?
    ensures k < n && states[k].t.nextId == ops[n].id && ops[k].Insert? && ops[n].id in states[n].t.rows
    ensures states[n].t.rows[ops[n].id].command == ops[k].command && states[n].t.rows[ops[n].id].va == ops[k].va
  {
    assert Step(states[n], ops[n], states[n + 1]);
    RunLogged(states, ops, n);
    k := LogIsInserted(states, ops, n, ops[n].id);
  }

  // ------------------------------------------------------------------ commands of one id are handed out in order

  lemma LaterHasLargerNumber(s: State, i: nat, j: nat)
    requires Numbered(s) && i in s.log && j in s.log && i < j && s.log[i].va == s.log[j].va
    ensures s.log[i].num < s.log[j].num
  {
    var va := s.log[i].va;
    var before, after := Earlier(s.log, va, i), Earlier(s.log, va, j);
    assert before + {i} <= after;
    SubsetSize(before + {i}, after);
  }

  ghost predicate NumbersGrow(log: map<nat, Row>) {
    forall i, j :: i in log && j in log && i < j && log[i].va == log[j].va ==> log[i].num < log[j].num
  }

  lemma RunLogged(states: seq<State>, ops: seq<Op>, n: nat)
    requires Run(states, ops) && n <= |ops|
    ensures var s := states[n]; KeysUpTo(s.log, s.t.nextId) && Logged(s.t, s.log) && NumbersGrow(s.log)
  {
    RunNumbered(states[..n + 1], ops[..n]);
    var s := states[n];
    forall i, j | i in s.log && j in s.log && i < j && s.log[i].va == s.log[j].va ensures s.log[i].num < s.log[j].num {
      LaterHasLargerNumber(s, i, j);
    }
  }

  /** In every run: whatever is handed out, no earlier command of the same id is still queued. */
  lemma HandedOutInOrder(states: seq<State>, ops: seq<Op>, n: nat, j: nat)
    requires Run(states, ops) && n < |ops| && ops[n].Poll?
    requires var s := states[n]; j in s.log && ops[n].id in s.log && j < ops[n].id && s.log[j].va == s.log[ops[n].id].va
    ensures j !in states[n].t.rows
  {
    RunLogged(states, ops, n);
    assert Step(states[n], ops[n], states[n + 1]);
  }

  // ------------------------------------------------------------------ the oldest command is handed out first

  predicate Timed(op: Op) {
    op.Insert? || op.Poll?
  }

  ghost predicate ClockForward(ops: seq<Op>) {
    forall i, j :: 0 <= i < j < |ops| && Timed(ops[i]) && Timed(ops[j]) ==> ops[i].now <= ops[j].now
  }

  ghost predicate InTimeOrder(log: map<nat, Row>) {
    forall i, j :: i in log && j in log && i < j ==> log[i].time <= log[j].time
  }

  ghost predicate NotAfter(log: map<nat, Row>, now: int) {
    forall i :: i in log ==> log[i].time <= now
  }

  lemma {:induction false} LogInTime(states: seq<State>, ops: seq<Op>, n: nat)
    requires Run(states, ops) && ClockForward(ops) && n <= |ops|
    ensures InTimeOrder(states[n].log)
    ensures forall k :: n <= k < |ops| && Timed(ops[k]) ==> NotAfter(states[n].log, ops[k].now)
  {
    if n > 0 {
      LogInTime(states, ops, n - 1);
      RunLogged(states, ops, n - 1);
      assert Step(states[n - 1], ops[n - 1], states[n]);
    }
  }

  /** Row i was handed out by operation k, before position n. */
  ghost predicate HandedOut(ops: seq<Op>, n: nat, i: nat, k: int) {
    0 <= k < n && k < |ops| && ops[k].Poll? && ops[k].id == i
  }

  /**
    The time of a row is that of its insertion or of one of the polls that handed it out, and not before any of them.
  */
  ghost predicate TimeExplained(ops: seq<Op>, n: nat, i: nat, inserted: int, time: int) {
    && inserted <= time
    && (time == inserted || exists k :: HandedOut(ops, n, i, k) && ops[k].now == time)
    && forall k :: HandedOut(ops, n, i, k) ==> ops[k].now <= time
  }

  ghost predicate TimesExplained(ops: seq<Op>, n: nat, s: State) {
    && (forall i :: i in s.t.rows ==> i in s.log && TimeExplained(ops, n, i, s.log[i].time, s.t.rows[i].time))
    && forall k :: 0 <= k < n && k < |ops| && ops[k].Poll? ==> ops[k].id in s.log
  }

  lemma ExplainedLater(ops: seq<Op>, n: nat, i: nat, inserted: int, time: int)
    requires n < |ops| && TimeExplained(ops, n, i, inserted, time) && !(ops[n].Poll? && ops[n].id == i)
    ensures TimeExplained(ops, n + 1, i, inserted, time)
  {
    forall k | HandedOut(ops, n + 1, i, k) ensures HandedOut(ops, n, i, k) {
    }
    if k :| HandedOut(ops, n, i, k) && ops[k].now == time {
      assert HandedOut(ops, n + 1, i, k);
    }
  }

  lemma ExplainedByPoll(ops: seq<Op>, n: nat, i: nat, inserted: int)
    requires ClockForward(ops) && n < |ops| && ops[n].Poll? && ops[n].id == i && inserted <= ops[n].now
    ensures TimeExplained(ops, n + 1, i, inserted, ops[n].now)
  {
    assert HandedOut(ops, n + 1, i, n);
  }

  lemma PollExplained(ops: seq<Op>, n: nat, s: State, s': State)
    requires ClockForward(ops) && n < |ops| && ops[n].Poll? && Step(s, ops[n], s') && TimesExplained(ops, n, s) &&
      NotAfter(s.log, ops[n].now)
    ensures TimesExplained(ops, n + 1, s')
  {
    forall i | i in s'.t.rows ensures i in s'.log && TimeExplained(ops, n + 1, i, s'.log[i].time, s'.t.rows[i].time) {
      if i == ops[n].id {
        ExplainedByPoll(ops, n, i, s.log[i].time);
      } else {
        ExplainedLater(ops, n, i, s.log[i].time, s.t.rows[i].time);
      }
    }
  }

  lemma InsertExplained(ops: seq<Op>, n: nat, s: State, s': State)
    requires n < |ops| && ops[n].Insert? && Step(s, ops[n], s') && TimesExplained(ops, n, s) &&
      KeysUpTo(s.log, s.t.nextId)
    ensures TimesExplained(ops, n + 1, s')
  {
    var next, n' := s.t.nextId, n + 1;
    assert forall k :: !HandedOut(ops, n', next, k);
    forall i | i in s'.t.rows ensures i in s'.log && TimeExplained(ops, n + 1, i, s'.log[i].time, s'.t.rows[i].time) {
      if i != s.t.nextId {
        ExplainedLater(ops, n, i, s.log[i].time, s.t.rows[i].time);
      }
    }
  }

  lemma RestExplained(ops: seq<Op>, n: nat, s: State, s': State)
    requires n < |ops| && !ops[n].Insert? && !ops[n].Poll? && Step(s, ops[n], s') && TimesExplained(ops, n, s)
    ensures TimesExplained(ops, n + 1, s')
  {
    forall i | i in s'.t.rows ensures i in s'.log && TimeExplained(ops, n + 1, i, s'.log[i].time, s'.t.rows[i].time) {
      ExplainedLater(ops, n, i, s.log[i].time, s.t.rows[i].time);
    }
  }

  lemma {:induction false} RunExplained(states: seq<State>, ops: seq<Op>, n: nat)
    requires Run(states, ops) && ClockForward(ops) && n <= |ops|
    ensures TimesExplained(ops, n, states[n])
  {
    if n > 0 {
      RunExplained(states, ops, n - 1);
      RunLogged(states, ops, n - 1);
      LogInTime(states, ops, n - 1);
      assert Step(states[n - 1], ops[n - 1], states[n]);
      if ops[n - 1].Poll? {
        PollExplained(ops, n - 1, states[n - 1], states[n]);
      } else if ops[n - 1].Insert? {
        InsertExplained(ops, n - 1, states[n - 1], states[n]);
      } else {
        RestExplained(ops, n - 1, states[n - 1], states[n]);
      }
    }
  }

  /** A row that was handed out before, later than the time that some queued row has. */
  ghost predicate Overtaken(ops: seq<Op>, n: nat, rows: map<nat, Row>, i: nat) {
    exists k, j :: HandedOut(ops, n, i, k) && j in rows && rows[j].time < ops[k].now
  }

  lemma ChosenIsOldestIff(ops: seq<Op>, n: nat, s: State, m: nat, i: nat)
    requires NumbersGrow(s.log) && Logged(s.t, s.log) && InTimeOrder(s.log) && TimesExplained(ops, n, s)
    requires Chosen(s.t.rows, m, i)
    ensures LeastTime(s.t.rows, i) <==> !Overtaken(ops, n, s.t.rows, i)
  {
    assert i <= m && s.log[i].time <= s.log[m].time <= s.t.rows[m].time;
    if s.t.rows[m].time < s.t.rows[i].time {
      var k :| HandedOut(ops, n, i, k) && ops[k].now == s.t.rows[i].time;
      assert Overtaken(ops, n, s.t.rows, i);
    } else {
      assert LeastTime(s.t.rows, i);
    }
  }

  /**
    In every run with a clock that does not go back, whatever was interrupted: what is handed out has a least
    update time in the whole table, unless it was handed out before, later than the time of some queued row.
  */
  lemma OldestFirstIff(states: seq<State>, ops: seq<Op>, n: nat)
    requires Run(states, ops) && ClockForward(ops) && n < |ops| && ops[n].Poll?
    ensures LeastTime(states[n].t.rows, ops[n].id) <==> !Overtaken(ops, n, states[n].t.rows, ops[n].id)
  {
    RunExplained(states, ops, n);
    LogInTime(states, ops, n);
    RunLogged(states, ops, n);
    assert Step(states[n], ops[n], states[n + 1]);
    ChosenIsOldestIff(ops, n, states[n], ops[n].m, ops[n].id);
  }

  // ------------------------------------------------------------------ a loop that finishes its commands

  /**
    From position a to n the loop finishes what it was handed before it polls again, and is not restarted in between.
  */
  ghost predicate FinishesFirst(states: seq<State>, ops: seq<Op>, a: nat, n: nat)
    requires |states| == |ops| + 1 && n <= |ops|
  {
    forall i :: a <= i < n ==>
      && (ops[i].Poll? || ops[i].Restart? ==> states[i].held == {})
      && (ops[i].Delete? ==> ops[i].id in states[i].held)
  }

  /** The rows in `out` have left the table unless one is being worked on. */
  ghost predicate Gone(s: State, out: set<nat>) {
    forall i :: i in out && i in s.t.rows ==> i in s.held
  }

  function Served(ops: seq<Op>, a: nat, n: nat): (r: set<nat>)
    requires a <= n <= |ops|
  {
    if a == n then {} else Served(ops, a, n - 1) + if ops[n - 1].Poll? then {ops[n - 1].id} else {}
  }

  function Polls(ops: seq<Op>, a: nat, n: nat): (k: nat)
    requires a <= n <= |ops|
  {
    if a == n then 0 else Polls(ops, a, n - 1) + if ops[n - 1].Poll? then 1 else 0
  }

  /**
    `out` was being worked on when we began to look, `served` was handed out by `polls` polls since then:
    all of it has left the table unless it is being worked on, and nothing was handed out twice.
  */
  ghost predicate ServedOk(s: State, out: set<nat>, served: set<nat>, polls: nat) {
    && Gone(s, out + served) && (forall i :: i in out + served ==> i < s.t.nextId)
    && |served| == polls && out !! served
  }

  lemma ServeNext(s: State, op: Op, s': State, out: set<nat>, served: set<nat>, polls: nat)
    requires Step(s, op, s') && (op.Poll? || op.Restart? ==> s.held == {}) && ServedOk(s, out, served, polls)
    requires forall i :: i in s.t.rows ==> i < s.t.nextId
    ensures op.Poll? ==> op.id !in out && ServedOk(s', out, served + {op.id}, polls + 1)
    ensures !op.Poll? ==> ServedOk(s', out, served, polls)
  {
  }

  lemma KeysBelow(states: seq<State>, ops: seq<Op>, n: nat)
    requires Run(states, ops) && n <= |ops|
    ensures forall i :: i in states[n].t.rows ==> i < states[n].t.nextId
  {
    RunLogged(states, ops, n);
  }

  lemma {:induction false} ServedOnce(states: seq<State>, ops: seq<Op>, a: nat, n: nat)
    requires Run(states, ops) && a <= n <= |ops| && FinishesFirst(states, ops, a, n)
    requires forall i :: i in states[a].held ==> i < states[a].t.nextId
    ensures ServedOk(states[n], states[a].held, Served(ops, a, n), Polls(ops, a, n))
  {
    if a < n {
      ServedOnce(states, ops, a, n - 1);
      KeysBelow(states, ops, n - 1);
      var s, op, s' := states[n - 1], ops[n - 1], states[n];
      assert Step(s, op, s');
      ServeNext(s, op, s', states[a].held, Served(ops, a, n - 1), Polls(ops, a, n - 1));
      if !op.Poll? {
        assert Served(ops, a, n) == Served(ops, a, n - 1);
      }
    }
  }

  lemma {:induction false} HandedOutIsServed(ops: seq<Op>, a: nat, n: nat, k: nat)
    requires a <= k < n <= |ops| && ops[k].Poll?
    ensures ops[k].id in Served(ops, a, n)
  {
    if k < n - 1 {
      HandedOutIsServed(ops, a, n - 1, k);
    }
  }

  /** If the loop always finishes first, what is handed out has a least update time in the whole table. */
  lemma OldestFirst(states: seq<State>, ops: seq<Op>, n: nat)
    requires Run(states, ops) && ClockForward(ops) && n < |ops| && FinishesFirst(states, ops, 0, n + 1) && ops[n].Poll?
    ensures LeastTime(states[n].t.rows, ops[n].id)
  {
    ServedOnce(states, ops, 0, n);
    OldestFirstIff(states, ops, n);
    assert Step(states[n], ops[n], states[n + 1]);
    forall k ensures !HandedOut(ops, n, ops[n].id, k) {
      if HandedOut(ops, n, ops[n].id, k) {
        HandedOutIsServed(ops, 0, n, k);
      }
    }
  }

  // ------------------------------------------------------------------ how long a command waits

  /** x is queued, and not handed out, from position a to n. */
  ghost predicate Waits(states: seq<State>, ops: seq<Op>, a: nat, n: nat, x: nat)
    requires a <= n <= |ops| && |states| == |ops| + 1
  {
    && (forall k :: a <= k <= n ==> x in states[k].t.rows)
    && forall k :: a <= k < n && ops[k].Poll? ==> ops[k].id != x
  }

  /**
    The other commands inserted no later than `time` that can still be handed out after the state s: those waiting
    in its table, and those inserted since.
  */
  ghost function Ahead(s: State, log: map<nat, Row>, x: nat, time: int): (r: set<nat>) {
    set i | i in log && i != x && log[i].time <= time && (s.t.nextId <= i || (i in s.t.rows && i !in s.held))
  }

  /**
    The other rows at position a that were handed out before and are not being worked on: their commands were
    interrupted.
  */
  ghost function Interrupted(ops: seq<Op>, a: nat, s: State, x: nat): (r: set<nat>) {
    set i | i in s.t.rows && i != x && i !in s.held && exists k :: HandedOut(ops, a, i, k)
  }

  /** A row whose key was in use at a was there at a. */
  lemma {:induction false} OldRowsStay(states: seq<State>, ops: seq<Op>, a: nat, n: nat, i: nat)
    requires Run(states, ops) && a <= n <= |ops| && i in states[n].t.rows && i < states[a].t.nextId
    ensures i in states[a].t.rows && states[a].t.nextId <= states[n].t.nextId
  {
    if a < n {
      assert Step(states[n - 1], ops[n - 1], states[n]);
      KeysGrow(states, ops, a, n - 1);
      OldRowsStay(states, ops, a, n - 1, i);
    }
  }

  lemma {:induction false} KeysGrow(states: seq<State>, ops: seq<Op>, a: nat, n: nat)
    requires Run(states, ops) && a <= n <= |ops|
    ensures states[a].t.nextId <= states[n].t.nextId
    ensures forall i :: i in states[a].log ==> i in states[n].log && states[n].log[i] == states[a].log[i]
  {
    if a < n {
      KeysGrow(states, ops, a, n - 1);
      RunLogged(states, ops, n - 1);
      assert Step(states[n - 1], ops[n - 1], states[n]);
    }
  }

  lemma {:induction false} WaitingKeepsTime(states: seq<State>, ops: seq<Op>, a: nat, n: nat, x: nat)
    requires Run(states, ops) && a <= n <= |ops| && Waits(states, ops, a, n, x)
    ensures states[n].t.rows[x].time == states[a].t.rows[x].time
  {
    if a < n {
      WaitingKeepsTime(states, ops, a, n - 1, x);
      RunLogged(states, ops, n - 1);
      assert Step(states[n - 1], ops[n - 1], states[n]);
    }
  }

  /** What is handed out while x waits is no later than x, or was interrupted before. */
  lemma ServedWhileWaiting(states: seq<State>, ops: seq<Op>, a: nat, n: nat, k: nat, x: nat)
    requires Run(states, ops) && ClockForward(ops) && a <= k < n <= |ops| && ops[k].Poll?
    requires FinishesFirst(states, ops, a, n) && Waits(states, ops, a, n, x)
    requires forall i :: i in states[a].held ==> i < states[a].t.nextId
    ensures var i := ops[k].id;
      i in Ahead(states[a], states[k].log, x, states[a].t.rows[x].time) || i in Interrupted(ops, a, states[a], x)
  {
    var i := ops[k].id;
    assert Step(states[k], ops[k], states[k + 1]);
    assert FinishesFirst(states, ops, a, k) && Waits(states, ops, a, k, x);
    ServedOnce(states, ops, a, k);
    WaitingKeepsTime(states, ops, a, k, x);
    RunExplained(states, ops, k);
    assert i in states[k].t.rows && i !in states[a].held;
    if i < states[a].t.nextId {
      OldRowsStay(states, ops, a, k, i);
    }
    if j :| HandedOut(ops, k, i, j) {
      if a <= j {
        HandedOutIsServed(ops, a, k, j);
        assert false;
      }
      assert HandedOut(ops, a, i, j);
      RunExplained(states, ops, a);
      RunLogged(states, ops, a);
    } else {
      OldestFirstIff(states, ops, k);
    }
  }

  lemma {:induction false} AllServedWhileWaiting(states: seq<State>, ops: seq<Op>, a: nat, m: nat, n: nat, x: nat)
    requires Run(states, ops) && ClockForward(ops) && a <= m <= n <= |ops|
    requires FinishesFirst(states, ops, a, n) && Waits(states, ops, a, n, x)
    requires forall i :: i in states[a].held ==> i < states[a].t.nextId
    ensures Served(ops, a, m) <= Ahead(states[a], states[n].log, x, states[a].t.rows[x].time) +
      Interrupted(ops, a, states[a], x)
  {
    if a < m {
      AllServedWhileWaiting(states, ops, a, m - 1, n, x);
      if ops[m - 1].Poll? {
        ServedWhileWaiting(states, ops, a, n, m - 1, x);
        KeysGrow(states, ops, m - 1, n);
      }
    }
  }

  /**
    Whatever was interrupted earlier: while the loop finishes what it is handed, a command waits for at most as
    many polls as there are other commands with no later time, waiting at its beginning or inserted since, and rows
    whose command was interrupted.
  */
  lemma WaitIsBounded(states: seq<State>, ops: seq<Op>, a: nat, n: nat, x: nat)
    requires Run(states, ops) && ClockForward(ops) && a <= n <= |ops|
    requires FinishesFirst(states, ops, a, n) && Waits(states, ops, a, n, x)
    ensures var ahead := Ahead(states[a], states[n].log, x, states[a].t.rows[x].time);
      Polls(ops, a, n) <= |ahead + Interrupted(ops, a, states[a], x)|
  {
    HeldIsKnown(states, ops, a);
    ServedOnce(states, ops, a, n);
    AllServedWhileWaiting(states, ops, a, n, n, x);
    var ahead := Ahead(states[a], states[n].log, x, states[a].t.rows[x].time);
    SubsetSize(Served(ops, a, n), ahead + Interrupted(ops, a, states[a], x));
  }

  lemma {:induction false} HeldIsKnown(states: seq<State>, ops: seq<Op>, n: nat)
    requires Run(states, ops) && n <= |ops|
    ensures forall i :: i in states[n].held ==> i < states[n].t.nextId
  {
    if n > 0 {
      HeldIsKnown(states, ops, n - 1);
      RunLogged(states, ops, n - 1);
      assert Step(states[n - 1], ops[n - 1], states[n]);
    }
  }

  /**
    If the loop has always finished first, nothing was interrupted, and a command that was not handed out has the
    time of its insertion.
  */
  lemma NothingInterrupted(states: seq<State>, ops: seq<Op>, a: nat, x: nat)
    requires Run(states, ops) && ClockForward(ops) && a <= |ops| && FinishesFirst(states, ops, 0, a)
    ensures Interrupted(ops, a, states[a], x) == {}
    ensures x in states[a].t.rows && x !in states[a].held ==>
      x in states[a].log && states[a].t.rows[x].time == states[a].log[x].time
  {
    ServedOnce(states, ops, 0, a);
    RunExplained(states, ops, a);
    forall i, k | i in states[a].t.rows && HandedOut(ops, a, i, k) ensures i in states[a].held {
      HandedOutIsServed(ops, 0, a, k);
    }
  }

  // ------------------------------------------------------------------ an interrupted command

  /**
    If the node is restarted between the two, the row handed out stays in the table with a new time. Then
    the next poll hands it out again although another row is older.
  */
  lemma RestartBreaksOrder() returns (states: seq<State>, ops: seq<Op>)
    ensures Run(states, ops) && ClockForward(ops) && |ops| == 5 && ops[2].Poll? && ops[3] == Restart && ops[4].Poll?
    ensures ops[4].id == ops[2].id && !LeastTime(states[4].t.rows, ops[4].id)
  {
    var s0 := State(Table(map[], map[], 1), {}, map[]);
    var t1 := Inserted(s0.t, 7, "a", 1);
    var s1 := State(t1, {}, map[1 := t1.rows[1]]);
    var t2 := Inserted(t1, 7, "b", 2);
    var s2 := State(t2, {}, s1.log[2 := t2.rows[2]]);
    var s3 := State(Touched(t2, 1, 5), {1}, s2.log);
    var s4 := s3.(held := {});
    var s5 := State(Touched(s4.t, 1, 6), {1}, s2.log);
    states := [s0, s1, s2, s3, s4, s5];
    ops := [Insert(7, "a", 1), Insert(7, "b", 2), Poll(5, 1, 1), Restart, Poll(6, 2, 1)];
    assert s4.t.rows[2].time == 2 && s4.t.rows[1].time == 5;
    assert Chosen(s2.t.rows, 1, 1) && Chosen(s4.t.rows, 2, 1);
  }
}
