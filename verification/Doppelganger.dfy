/**
  The doppelganger service: before a validator may sign, its key must have been seen idle on the network for
  long enough.

  Epochs and slots are 64-bit and their arithmetic saturates.
*/
module Doppelganger {
  import Field
  import opened Collections

  const MAX: nat := 0xffff_ffff_ffff_ffff

  function SatAdd(a: nat, b: nat): (r: nat) {
    if a + b > MAX then MAX else a + b
  }

  function SatSub(a: nat, b: nat): (r: nat) {
    if a < b then 0 else a - b
  }

  function SatMul(a: nat, b: nat): (r: nat) {
    if a * b > MAX then MAX else a * b
  }

  function EpochOf(slot: nat, spe: nat): (e: nat)
    requires spe > 0
  {
    slot / spe
  }

  /** The last slot of an epoch. */
  function EndSlot(epoch: nat, spe: nat): (s: nat)
    requires spe > 0
  {
    SatAdd(SatMul(epoch, spe), spe - 1)
  }

  const DEFAULT_REMAINING_DETECTION_EPOCHS: nat := 1

  /** The progress of one validator: the next epoch to be checked, and how many are left. */
  datatype Progress = Progress(next: nat, remaining: nat) {
    predicate RequiresFurtherChecks() {
      remaining > 0
    }

    function Complete(epoch: nat): (r: Progress) {
      Progress(SatAdd(epoch, 1), SatSub(remaining, 1))
    }
  }

  function Registered(current: nat, genesis: nat): (r: Progress) {
    Progress(SatAdd(current, 1), if current <= genesis then 0 else DEFAULT_REMAINING_DETECTION_EPOCHS)
  }

  datatype Response = Response(index: int, epoch: nat, isLive: bool)

  datatype Status = SigningEnabled | SigningDisabled | UnknownToDoppelganger

  datatype Outcome = Ok | UnexpectedEpoch(epoch: nat) | UnknownIndex(index: int) | UnknownState(validator: int)

  /** What a liveness query is about: the slot of the request, and the indices that were asked for. */
  datatype Query = Query(slot: nat, spe: nat, indices: map<int, int>) {
    ghost predicate Valid() {
      spe > 0 && slot <= MAX
    }

    function Previous(): (e: nat)
      requires spe > 0
    {
      SatSub(EpochOf(slot, spe), 1)
    }

    /** It is late enough not to expect more messages of the previous epoch. */
    predicate Satisfied()
      requires spe > 0
    {
      slot >= EndSlot(SatAdd(Previous(), 1), spe)
    }
  }

  // ------------------------------------------------------------------ what the answers mean

  /** The answer shows an asked validator active in an epoch in which it should have been idle. */
  predicate Violates(states: map<int, Progress>, indices: map<int, int>, r: Response) {
    && r.isLive && r.index in indices && indices[r.index] in states
    && states[indices[r.index]].next <= r.epoch
  }

  predicate AnyViolates(states: map<int, Progress>, indices: map<int, int>, rs: seq<Response>) {
    exists i :: 0 <= i < |rs| && Violates(states, indices, rs[i])
  }

  function Check(states: map<int, Progress>, q: Query, r: Response): (o: Outcome)
    requires q.spe > 0
  {
    if r.epoch != q.Previous() then UnexpectedEpoch(r.epoch)
    else if r.index !in q.indices then UnknownIndex(r.index)
    else if q.indices[r.index] !in states then UnknownState(q.indices[r.index])
    else Ok
  }

  /** The first k answers about the previous epoch are in order. */
  predicate WellFormed(states: map<int, Progress>, q: Query, rs: seq<Response>, k: nat)
    requires q.spe > 0 && k <= |rs|
  {
    forall i :: 0 <= i < k ==> Check(states, q, rs[i]) == Ok
  }

  /** The answer lets the validator complete the previous epoch. */
  predicate Clears(p: Progress, q: Query, r: Response)
    requires q.spe > 0
  {
    !r.isLive && q.Satisfied() && q.Previous() >= p.next
  }

  /** v is answered for among the first k answers. */
  predicate Answered(q: Query, rs: seq<Response>, k: nat, v: int)
    requires k <= |rs|
  {
    exists i :: 0 <= i < k && Concerns(q, rs[i], v)
  }

  predicate Concerns(q: Query, r: Response, v: int) {
    r.index in q.indices && q.indices[r.index] == v
  }

  /** The answer says that v was live in an epoch from `next` on. */
  predicate LiveFrom(q: Query, r: Response, v: int, next: nat) {
    r.isLive && Concerns(q, r, v) && r.epoch >= next
  }

  /** Some of the first k answers, about v, says that it was idle. */
  predicate AnsweredIdle(q: Query, rs: seq<Response>, k: nat, v: int)
    requires k <= |rs|
  {
    exists i :: 0 <= i < k && Concerns(q, rs[i], v) && !rs[i].isLive
  }

  /** What the first k answers about the previous epoch make of the progress p of validator v. */
  function Progressed(p: Progress, q: Query, violated: bool, rs: seq<Response>, k: nat, v: int): (r: Progress)
    requires q.spe > 0 && k <= |rs|
  {
    if violated then (if Answered(q, rs, k, v) then p.(remaining := MAX) else p)
    else if AnsweredIdle(q, rs, k, v) && q.Satisfied() && q.Previous() >= p.next then p.Complete(q.Previous())
    else p
  }

  /**
    The answers before the first bad one, at k, have had their effect; k is their number if there is none.
  */
  ghost predicate Processed(before: map<int, Progress>, q: Query, previous: seq<Response>, current: seq<Response>,
                            k: int, after: map<int, Progress>)
  {
    && q.Valid() && 0 <= k <= |previous| && WellFormed(before, q, previous, k)
    && (k == |previous| || Check(before, q, previous[k]) != Ok)
    && after.Keys == before.Keys
    && forall v :: v in after ==>
        after[v] == Progressed(before[v], q, AnyViolates(before, q.indices, previous + current), previous, k, v)
  }

  /** A further answer, about v, changes v at most, and completes an epoch at most once. */
  lemma StepProgress(before: map<int, Progress>, now: map<int, Progress>, q: Query, violated: bool, rs: seq<Response>,
                     i: nat, v: int)
    requires q.Valid() && i < |rs| && Concerns(q, rs[i], v) && v in before && before.Keys == now.Keys
    requires forall x :: x in now ==> now[x] == Progressed(before[x], q, violated, rs, i, x)
    ensures forall x :: x in now && x != v ==> now[x] == Progressed(before[x], q, violated, rs, i + 1, x)
    ensures violated ==> Progressed(before[v], q, violated, rs, i + 1, v) == now[v].(remaining := MAX)
    ensures !violated ==>
      Progressed(before[v], q, violated, rs, i + 1, v) ==
        if Clears(now[v], q, rs[i]) then now[v].Complete(q.Previous()) else now[v]
  {
    forall x | x in now
      ensures Answered(q, rs, i + 1, x) <==> Answered(q, rs, i, x) || x == v
      ensures AnsweredIdle(q, rs, i + 1, x) <==> AnsweredIdle(q, rs, i, x) || (x == v && !rs[i].isLive)
    {
    }
    PreviousBelowMax(q);
  }

  lemma PreviousBelowMax(q: Query)
    requires q.Valid()
    ensures q.Previous() < MAX
  {
    assert q.slot / q.spe <= q.slot;
  }

  class Service {
    var states: map<int, Progress>

    constructor ()
      ensures states == map[]
    {
      states := map[];
    }

    method ValidatorStatus(v: int) returns (r: Status)
      ensures r == SigningEnabled <==> v in states && states[v].remaining == 0
      ensures r == UnknownToDoppelganger <==> v !in states
    {
      if v in states {
        r := if states[v].RequiresFurtherChecks() then SigningDisabled else SigningEnabled;
      } else {
        r := UnknownToDoppelganger;
      }
    }

    method RegisterNewValidator(v: int, current: nat, genesis: nat)
      modifies this
      ensures states == old(states)[v := Registered(current, genesis)]
      ensures states[v].remaining == 0 <==> current <= genesis
      ensures current < MAX ==> states[v].next == current + 1
    {
      var remaining := DEFAULT_REMAINING_DETECTION_EPOCHS;
      if current <= genesis {
        remaining := 0;
      }
      states := states[v := Progress(SatAdd(current, 1), remaining)];
    }

    /** Among validators with the same index, an arbitrary one stays in the map. */
    method ComputeDetectionIndices(index: map<int, int>) returns (indices: map<int, int>)
      ensures forall i :: i in indices ==>
        var v := indices[i]; v in states && states[v].remaining > 0 && v in index && index[v] == i
      ensures forall v :: v in states && states[v].remaining > 0 && v in index ==> index[v] in indices
    {
      indices := map[];
      var todo := set v | v in states && states[v].RequiresFurtherChecks();
      while todo != {}
        invariant forall v :: v in todo ==> v in states && states[v].remaining > 0
        invariant forall i :: i in indices ==>
          var v := indices[i]; v in states && states[v].remaining > 0 && v in index && index[v] == i
        invariant forall v :: v in states && states[v].remaining > 0 && v in index ==> v in todo || index[v] in indices
      {
        Inhabited(todo);
        var v :| v in todo;
        if v in index {
          indices := indices[index[v] := v];
        }
        todo := todo - {v};
      }
    }

    /** The first loop, over the answers about both epochs. */
    method FindViolators(indices: map<int, int>, rs: seq<Response>) returns (violators: set<int>)
      ensures violators != {} <==> AnyViolates(states, indices, rs)
      ensures forall x :: x in violators ==>
        exists i :: 0 <= i < |rs| && rs[i].index == x && Violates(states, indices, rs[i])
    {
      violators := {};
      var i := 0;
      while i < |rs|
        invariant 0 <= i <= |rs|
        invariant forall x :: x in violators ==>
          exists j :: 0 <= j < i && rs[j].index == x && Violates(states, indices, rs[j])
        invariant forall j :: 0 <= j < i && Violates(states, indices, rs[j]) ==> rs[j].index in violators
      {
        var r := rs[i];
        if r.isLive && r.index in indices && indices[r.index] in states && states[indices[r.index]].next <= r.epoch {
          violators := violators + {r.index};
        }
        i := i + 1;
      }
      if violators != {} {
        Inhabited(violators);
      }
    }

    /**
      The shutdown fires exactly once if there is a violation and all answers are in order. It does not fire
      if some answer about the previous epoch is bad, even if there is a violation.
    */
    method ProcessLivenessResponses(q: Query, previous: seq<Response>, current: seq<Response>)
      returns (o: Outcome, shutdowns: nat, ghost k: nat)
      requires q.Valid()
      modifies this
      ensures Processed(old(states), q, previous, current, k, states)
      ensures o == if k == |previous| then Ok else Check(old(states), q, previous[k])
      ensures o == Ok <==> WellFormed(old(states), q, previous, |previous|)
      ensures shutdowns == if o == Ok && AnyViolates(old(states), q.indices, previous + current) then 1 else 0
      ensures var rs := previous + current;
        var caught := exists i, v :: 0 <= i < |rs| && v in old(states) && LiveFrom(q, rs[i], v, old(states)[v].next);
        shutdowns == if o == Ok && caught then 1 else 0
      ensures shutdowns == 1 ==>
        forall v :: v in states && Answered(q, previous, |previous|, v) ==> states[v].remaining == MAX
    {
      var epoch := q.Previous();
      var violators := FindViolators(q.indices, previous + current);
      var violated := violators != {};
      var satisfied := q.Satisfied();
      ghost var before := states;
      var i := 0;
      while i < |previous|
        invariant 0 <= i <= |previous| && WellFormed(before, q, previous, i)
        invariant states.Keys == before.Keys
        invariant forall v :: v in states ==> states[v] == Progressed(before[v], q, violated, previous, i, v)
      {
        var r := previous[i];
        if r.epoch != epoch {
          return UnexpectedEpoch(r.epoch), 0, i;
        }
        if r.index !in q.indices {
          return UnknownIndex(r.index), 0, i;
        }
        var v := q.indices[r.index];
        if v !in states {
          return UnknownState(v), 0, i;
        }
        StepProgress(before, states, q, violated, previous, i, v);
        if violated {
          states := states[v := states[v].(remaining := MAX)];
        } else if !r.isLive && satisfied && epoch >= states[v].next {
          states := states[v := states[v].Complete(epoch)];
        }
        i := i + 1;
      }
      return Ok, if violated then 1 else 0, i;
    }
  }

  // ------------------------------------------------------------------ one query

  /**
    After a violation and answers that are all in order, everybody is disabled if and only if everybody
    either was disabled or is answered for.
  */
  lemma ViolationDisables(before: map<int, Progress>, q: Query, previous: seq<Response>, current: seq<Response>,
                          after: map<int, Progress>)
    requires Processed(before, q, previous, current, |previous|, after)
    requires AnyViolates(before, q.indices, previous + current)
    ensures forall v :: v in after && Answered(q, previous, |previous|, v) ==> after[v].remaining == MAX
    ensures (forall v :: v in after ==> after[v].remaining > 0) <==>
            (forall v :: v in before ==> before[v].remaining > 0 || Answered(q, previous, |previous|, v))
  {
  }

  // ------------------------------------------------------------------ one answer at a time

  /**
    A batch of answers being worked through: first all are looked at, then those about the previous epoch have their
    effect.
  */
  datatype Task =
    | Idle
    | Looking(q: Query, previous: seq<Response>, current: seq<Response>, i: nat, violated: bool)
    | Applying(q: Query, previous: seq<Response>, current: seq<Response>, i: nat, violated: bool)

  datatype World = World(progress: map<int, Progress>, task: Task)

  /** The service takes its lock once for each answer, so everything else may happen in between. */
  datatype Event =
    | Register(v: int, epoch: nat, genesis: nat)
    | Start(q: Query, previous: seq<Response>, current: seq<Response>)
    | Look
    | Apply
    | Other

  /** What a good answer about a validator makes of its progress. */
  function Applied(p: Progress, q: Query, violated: bool, r: Response): (p': Progress)
    requires q.spe > 0
  {
    if violated then p.(remaining := MAX) else if Clears(p, q, r) then p.Complete(q.Previous()) else p
  }

  ghost predicate Looks(before: World, after: World) {
    && before.task.Looking?
    && var t := before.task;
      var all := t.previous + t.current;
      after == before.(task :=
        if t.i < |all| then
          Looking(t.q, t.previous, t.current, t.i + 1, t.violated || Violates(before.progress, t.q.indices, all[t.i]))
        else
          Applying(t.q, t.previous, t.current, 0, t.violated))
  }

  ghost predicate Applies(before: World, after: World) {
    && before.task.Applying? && before.task.q.spe > 0
    && var t := before.task;
      if t.i < |t.previous| && Check(before.progress, t.q, t.previous[t.i]) == Ok then
        var v := t.q.indices[t.previous[t.i].index];
        && after.progress == before.progress[v := Applied(before.progress[v], t.q, t.violated, t.previous[t.i])]
        && after.task == Applying(t.q, t.previous, t.current, t.i + 1, t.violated)
      else
        after == before.(task := Idle)
  }

  ghost predicate Happens(before: World, e: Event, after: World) {
    match e
    case Register(v, epoch, genesis) => after == before.(progress := before.progress[v := Registered(epoch, genesis)])
    case Start(q, previous, current) =>
      before.task.Idle? && q.Valid() && after == before.(task := Looking(q, previous, current, 0, false))
    case Look => Looks(before, after)
    case Apply => Applies(before, after)
    case Other => after == before
  }

  /** Queries may repeat, overlap and go back in time; the indices asked for and the answers are arbitrary. */
  ghost predicate Run(states: seq<World>, events: seq<Event>) {
    && |states| == |events| + 1 && states[0] == World(map[], Idle)
    && forall i :: 0 <= i < |events| ==> Happens(states[i], events[i], states[i + 1])
  }

  // ------------------------------------------------------------------ an undisturbed batch

  /** Where the batch stands if nobody was registered since it began, with the progress `before`. */
  ghost predicate Undisturbed(before: map<int, Progress>, q: Query, previous: seq<Response>, current: seq<Response>,
                              w: World)
    requires q.Valid()
  {
    match w.task
    case Idle => exists k :: Processed(before, q, previous, current, k, w.progress)
    case Looking(q', p', c', i, violated) =>
      && q' == q && p' == previous && c' == current && w.progress == before
      && i <= |previous + current| && (violated <==> AnyViolates(before, q.indices, (previous + current)[..i]))
    case Applying(q', p', c', i, violated) =>
      && q' == q && p' == previous && c' == current && w.progress.Keys == before.Keys
      && violated == AnyViolates(before, q.indices, previous + current)
      && i <= |previous| && WellFormed(before, q, previous, i)
      && forall v :: v in w.progress ==> w.progress[v] == Progressed(before[v], q, violated, previous, i, v)
  }

  lemma LookUndisturbed(before: map<int, Progress>, q: Query, previous: seq<Response>, current: seq<Response>, w: World,
                        w': World)
    requires q.Valid() && Undisturbed(before, q, previous, current, w) && Looks(w, w')
    ensures Undisturbed(before, q, previous, current, w')
  {
    var all, i := previous + current, w.task.i;
    if i < |all| {
      assert all[..i + 1] == all[..i] + [all[i]];
      if w'.task.violated {
        if w.task.violated {
          var j :| 0 <= j < i && Violates(before, q.indices, all[..i][j]);
          assert Violates(before, q.indices, all[..i + 1][j]);
        } else {
          assert Violates(before, q.indices, all[..i + 1][i]);
        }
      }
    } else {
      assert all[..i] == all;
    }
  }

  lemma ApplyUndisturbed(before: map<int, Progress>, q: Query, previous: seq<Response>, current: seq<Response>,
                         w: World, w': World)
    requires q.Valid() && Undisturbed(before, q, previous, current, w) && Applies(w, w')
    ensures Undisturbed(before, q, previous, current, w')
  {
    var t := w.task;
    if t.i < |previous| && Check(w.progress, q, previous[t.i]) == Ok {
      StepProgress(before, w.progress, q, t.violated, previous, t.i, q.indices[previous[t.i].index]);
    } else {
      assert Processed(before, q, previous, current, t.i, w'.progress);
    }
  }

  /** Without a registration in between, the steps of a batch have the effect of `ProcessLivenessResponses`. */
  lemma {:induction false} BatchIsProcessed(states: seq<World>, events: seq<Event>, a: nat, n: nat)
    requires Run(states, events) && a < n <= |events| && events[a].Start?
    requires forall i :: a < i < n ==> events[i].Look? || events[i].Apply? || events[i].Other?
    ensures events[a].q.Valid() &&
      Undisturbed(states[a].progress, events[a].q, events[a].previous, events[a].current, states[n])
  {
    assert Happens(states[n - 1], events[n - 1], states[n]);
    if a < n - 1 {
      BatchIsProcessed(states, events, a, n - 1);
      var s := events[a];
      if events[n - 1].Look? {
        LookUndisturbed(states[a].progress, s.q, s.previous, s.current, states[n - 1], states[n]);
      } else if events[n - 1].Apply? {
        ApplyUndisturbed(states[a].progress, s.q, s.previous, s.current, states[n - 1], states[n]);
      }
    }
  }

  /** Batches follow each other: the next one starts when the last one has ended. */
  lemma OneBatchAtATime(states: seq<World>, events: seq<Event>, a: nat, b: nat)
    requires Run(states, events) && a < b < |events| && events[a].Start? && events[b].Start?
    ensures exists n :: a < n <= b && states[n].task.Idle?
  {
    assert Happens(states[b], events[b], states[b + 1]);
  }

  // ------------------------------------------------------------------ runs

  /** v is registered by event i, and not again before position n. */
  ghost predicate LastRegistered(events: seq<Event>, i: nat, n: nat, v: int) {
    && i < n <= |events| && events[i].Register? && events[i].v == v
    && NotRegistered(events, i + 1, n, v)
  }

  ghost predicate NotRegistered(events: seq<Event>, i: nat, n: nat, v: int) {
    forall j :: i <= j < n && j < |events| && events[j].Register? ==> events[j].v != v
  }

  ghost predicate TaskValid(w: World) {
    !w.task.Idle? ==> w.task.q.Valid()
  }

  lemma {:induction false} RunTaskValid(states: seq<World>, events: seq<Event>, n: nat)
    requires Run(states, events) && n <= |events|
    ensures TaskValid(states[n])
  {
    if n > 0 {
      RunTaskValid(states, events, n - 1);
      assert Happens(states[n - 1], events[n - 1], states[n]);
    }
  }

  /** The answer that is next to have its effect is about v, and in order. */
  ghost predicate AppliesTo(w: World, e: Event, v: int) {
    && e.Apply? && w.task.Applying? && w.task.q.Valid() && w.task.i < |w.task.previous|
    && Check(w.progress, w.task.q, w.task.previous[w.task.i]) == Ok && Concerns(w.task.q, w.task.previous[w.task.i], v)
  }

  /**
    e completes the checks of v for the epoch before the one it was asked in: the epoch is over, and v was idle in
    it.
  */
  ghost predicate Completes(w: World, e: Event, w': World, v: int) {
    && AppliesTo(w, e, v) && v in w.progress && v in w'.progress
    && w.task.q.Satisfied() && !w.task.previous[w.task.i].isLive
    && w.progress[v].next <= w.task.q.Previous()
    && w'.progress[v] == Progress(w.task.q.Previous() + 1, SatSub(w.progress[v].remaining, 1))
  }

  /** What one event does to a validator it does not register. */
  lemma Effect(before: World, e: Event, after: World, v: int)
    requires Happens(before, e, after) && TaskValid(before) && v in before.progress && !(e.Register? && e.v == v)
    ensures v in after.progress && before.progress[v].next <= after.progress[v].next
    ensures after.progress[v].next > before.progress[v].next ==> Completes(before, e, after, v)
    ensures after.progress[v].next == before.progress[v].next ==>
      after.progress[v].remaining == before.progress[v].remaining || after.progress[v].remaining == MAX
  {
    if e.Apply? {
      PreviousBelowMax(before.task.q);
    }
  }

  lemma {:induction false} NextGrows(states: seq<World>, events: seq<Event>, i: nat, n: nat, v: int)
    requires Run(states, events) && i <= n <= |events| && v in states[i].progress && NotRegistered(events, i, n, v)
    ensures v in states[n].progress && states[i].progress[v].next <= states[n].progress[v].next
  {
    if i < n {
      NextGrows(states, events, i, n - 1, v);
      RunTaskValid(states, events, n - 1);
      Effect(states[n - 1], events[n - 1], states[n], v);
    }
  }

  ghost predicate Lowers(states: seq<World>, i: nat, v: int)
    requires i + 1 < |states|
  {
    v in states[i].progress && v in states[i + 1].progress &&
      states[i + 1].progress[v].remaining < states[i].progress[v].remaining
  }

  lemma LoweringCompletes(states: seq<World>, events: seq<Event>, i: nat, v: int)
    requires Run(states, events) && i < |events| && NotRegistered(events, i, i + 1, v) && Lowers(states, i, v)
    ensures Completes(states[i], events[i], states[i + 1], v)
  {
    RemainingBounded(states, events, i, v);
    RunTaskValid(states, events, i);
    Effect(states[i], events[i], states[i + 1], v);
  }

  /**
    Only completing an epoch lowers what remains, and no epoch is completed twice between two registrations,
    whatever is answered how often and in which order, and whatever happens between two answers of a batch.
  */
  lemma EachEpochCountsOnce(states: seq<World>, events: seq<Event>, i: nat, j: nat, v: int)
    requires Run(states, events) && i < j < |events| && NotRegistered(events, i, j + 1, v)
    requires Lowers(states, i, v) && Lowers(states, j, v)
    ensures Completes(states[i], events[i], states[i + 1], v) && Completes(states[j], events[j], states[j + 1], v)
    ensures states[i].task.q.Previous() < states[j].task.q.Previous()
  {
    LoweringCompletes(states, events, i, v);
    LoweringCompletes(states, events, j, v);
    NextGrows(states, events, i + 1, j, v);
  }

  lemma {:induction false} RemainingBounded(states: seq<World>, events: seq<Event>, n: nat, v: int)
    requires Run(states, events) && n <= |events| && v in states[n].progress
    ensures states[n].progress[v].remaining <= MAX && 1 <= states[n].progress[v].next <= MAX
  {
    if n > 0 {
      var e := events[n - 1];
      assert Happens(states[n - 1], e, states[n]);
      if !(e.Register? && e.v == v) {
        RemainingBounded(states, events, n - 1, v);
        RunTaskValid(states, events, n - 1);
        Effect(states[n - 1], e, states[n], v);
        if e.Apply? {
          PreviousBelowMax(states[n - 1].task.q);
        }
      }
    }
  }

  /**
    A run in which a validator that needs no checks is not asked about, and stays enabled after a violation by
    another one.
  */
  lemma ViolationCanSpareSomebody() returns (states: seq<World>, events: seq<Event>)
    ensures Run(states, events) && |events| == 6 && states[5].task.Applying? && states[5].task.violated
    ensures AppliesTo(states[5], events[5], 2) && states[6].progress[2].remaining == MAX
    ensures 1 in states[6].progress && states[6].progress[1].remaining == 0
  {
    var s1 := map[1 := Registered(0, 0)];
    var s2 := s1[2 := Registered(6, 0)];
    var q := Query(256, 32, map[20 := 2]);
    var rs := [Response(20, 7, true)];
    assert rs + [] == rs;
    var s3 := s2[2 := Progress(7, MAX)];
    states := [World(map[], Idle), World(s1, Idle), World(s2, Idle), World(s2, Looking(q, rs, [], 0, false)),
               World(s2, Looking(q, rs, [], 1, true)), World(s2, Applying(q, rs, [], 0, true)),
               World(s3, Applying(q, rs, [], 1, true))];
    events := [Register(1, 0, 0), Register(2, 6, 0), Start(q, rs, []), Look, Look, Apply];
    assert s2[2] == Progress(7, 1) && s2[1] == Progress(1, 0);
    assert Happens(states[0], events[0], states[1]) && Happens(states[1], events[1], states[2]);
    assert Happens(states[2], events[2], states[3]) && Happens(states[3], events[3], states[4]);
    assert Happens(states[4], events[4], states[5]) && Happens(states[5], events[5], states[6]);
  }

  // ------------------------------------------------------------------ nobody signs too early

  lemma EndSlotGrows(a: nat, b: nat, spe: nat)
    requires spe > 0 && a <= b
    ensures EndSlot(a, spe) <= EndSlot(b, spe)
  {
    assert a * spe <= b * spe;
  }

  /**
    Some answer from i on was asked for in or after the last slot of epoch e + 2, and says that v was idle in an
    epoch after e.
  */
  ghost predicate Waited(states: seq<World>, events: seq<Event>, i: nat, n: nat, e: nat, v: int, spe: nat)
    requires n <= |events| < |states|
  {
    exists j :: i <= j < n && WaitedAt(states[j], events[j], e, v, spe)
  }

  ghost predicate WaitedAt(w: World, x: Event, e: nat, v: int, spe: nat) {
    && AppliesTo(w, x, v) && w.task.q.spe == spe && !w.task.previous[w.task.i].isLive
    && w.task.q.slot >= EndSlot(SatAdd(SatAdd(e, 1), 1), spe) && w.task.q.Previous() >= SatAdd(e, 1)
  }

  lemma CompletingWaits(w: World, x: Event, w': World, v: int, e: nat)
    requires Completes(w, x, w', v) && w.progress[v].next >= SatAdd(e, 1)
    ensures WaitedAt(w, x, e, v, w.task.q.spe)
  {
    EndSlotGrows(SatAdd(SatAdd(e, 1), 1), SatAdd(w.task.q.Previous(), 1), w.task.q.spe);
  }

  ghost predicate OneClock(events: seq<Event>, spe: nat) {
    forall j :: 0 <= j < |events| && events[j].Start? ==> events[j].q.spe == spe
  }

  lemma {:induction false} TaskClock(states: seq<World>, events: seq<Event>, n: nat, spe: nat)
    requires Run(states, events) && n <= |events| && OneClock(events, spe)
    ensures !states[n].task.Idle? ==> states[n].task.q.spe == spe
  {
    if n > 0 {
      TaskClock(states, events, n - 1, spe);
      assert Happens(states[n - 1], events[n - 1], states[n]);
    }
  }

  /** A validator registered in an epoch e after genesis is not enabled before the last slot of epoch e + 2. */
  lemma {:induction false} NeverEnabledEarly(states: seq<World>, events: seq<Event>, i: nat, n: nat, v: int, spe: nat)
    requires Run(states, events) && LastRegistered(events, i, n, v) && events[i].epoch > events[i].genesis &&
      OneClock(events, spe)
    ensures v in states[n].progress && states[n].progress[v].next >= SatAdd(events[i].epoch, 1)
    ensures states[n].progress[v].remaining == 0 ==> Waited(states, events, i + 1, n, events[i].epoch, v, spe)
  {
    assert Happens(states[n - 1], events[n - 1], states[n]);
    if i < n - 1 {
      NeverEnabledEarly(states, events, i, n - 1, v, spe);
      RunTaskValid(states, events, n - 1);
      TaskClock(states, events, n - 1, spe);
      Effect(states[n - 1], events[n - 1], states[n], v);
      if states[n].progress[v].next > states[n - 1].progress[v].next {
        CompletingWaits(states[n - 1], events[n - 1], states[n], v, events[i].epoch);
      }
    }
  }

  lemma EpochOfEndSlot(e: nat, spe: nat)
    requires spe > 0 && e * spe + spe - 1 <= MAX
    ensures EndSlot(e, spe) == e * spe + spe - 1 && EpochOf(EndSlot(e, spe), spe) == e
  {
    Field.QuotientUnique(e * spe + spe - 1, spe, e, spe - 1);
  }

  /** And it is enabled in that very slot, if it is then reported idle, all answers are in order and nobody violates. */
  lemma EnabledOnTime(before: map<int, Progress>, q: Query, previous: seq<Response>, current: seq<Response>, k: int,
                      after: map<int, Progress>, v: int, e: nat, genesis: nat)
    requires Processed(before, q, previous, current, k, after) && v in before && before[v] == Registered(e, genesis)
    requires (e + 2) * q.spe + q.spe - 1 <= MAX && q.slot == EndSlot(e + 2, q.spe)
    requires WellFormed(before, q, previous, |previous|) && !AnyViolates(before, q.indices, previous + current)
    requires AnsweredIdle(q, previous, |previous|, v)
    ensures after[v].remaining == 0
  {
    EpochOfEndSlot(e + 2, q.spe);
    PreviousBelowMax(q);
    assert k == |previous|;
    assert q.Previous() == e + 1 && q.Satisfied();
  }

  // ------------------------------------------------------------------ a live validator is not enabled

  /** What was noticed of the batch started by e, when v was in the state p: everything looked at so far. */
  ghost predicate Noticed(p: Progress, e: Event, w: World, v: int)
    requires e.Start?
  {
    var all := e.previous + e.current;
    match w.task
    case Idle => true
    case Looking(q, previous, current, i, violated) =>
      && q == e.q && previous == e.previous && current == e.current && i <= |all|
      && v in w.progress && w.progress[v] == p
      && (violated || forall j :: 0 <= j < i ==> !LiveFrom(q, all[j], v, p.next))
    case Applying(q, previous, current, i, violated) =>
      && q == e.q && previous == e.previous && current == e.current
      && (violated || forall j :: 0 <= j < |all| ==> !LiveFrom(q, all[j], v, p.next))
  }

  /** No batch is started between positions i and n. */
  ghost predicate NoStart(events: seq<Event>, i: nat, n: nat) {
    forall j :: i <= j < n && j < |events| ==> !events[j].Start?
  }

  lemma StepNotices(p: Progress, e: Event, w: World, x: Event, w': World, v: int)
    requires e.Start? && Noticed(p, e, w, v) && Happens(w, x, w') && !x.Start? && !(x.Register? && x.v == v)
    ensures Noticed(p, e, w', v)
  {
  }

  lemma {:induction false} LiveIsNoticed(states: seq<World>, events: seq<Event>, a: nat, n: nat, v: int)
    requires Run(states, events) && a < n <= |events| && events[a].Start? && v in states[a].progress
    requires NoStart(events, a + 1, n) && NotRegistered(events, a, n, v)
    ensures Noticed(states[a].progress[v], events[a], states[n], v)
  {
    assert Happens(states[n - 1], events[n - 1], states[n]);
    if a < n - 1 {
      LiveIsNoticed(states, events, a, n - 1, v);
      StepNotices(states[a].progress[v], events[a], states[n - 1], events[n - 1], states[n], v);
    }
  }

  /**
    In every run: if an answer of the batch started by event a brings v closer to being enabled, then no answer of the
    batch, about whichever epoch, says that v was live in an epoch it was still to be checked in.
  */
  lemma LiveValidatorNotEnabled(states: seq<World>, events: seq<Event>, a: nat, n: nat, v: int, r: Response)
    requires Run(states, events) && a < n < |events| && events[a].Start? && v in states[a].progress
    requires NoStart(events, a + 1, n) && NotRegistered(events, a, n + 1, v) && Lowers(states, n, v)
    requires r in events[a].previous + events[a].current && r.isLive && Concerns(events[a].q, r, v)
    ensures r.epoch < states[a].progress[v].next
  {
    LiveIsNoticed(states, events, a, n, v);
    LoweringCompletes(states, events, n, v);
    assert Happens(states[n], events[n], states[n + 1]);
    assert !states[n].task.violated;
    var all := events[a].previous + events[a].current;
    var j :| 0 <= j < |all| && all[j] == r;
    assert !LiveFrom(events[a].q, all[j], v, states[a].progress[v].next);
  }

  // ------------------------------------------------------------------ a violation is for ever

  /** Completing an epoch lowers what remains by one and raises the next epoch by at least one. */
  lemma {:induction false} DisabledFrom(states: seq<World>, events: seq<Event>, i: nat, n: nat, v: int)
    requires Run(states, events) && i <= n <= |events| && v in states[i].progress &&
      states[i].progress[v].remaining == MAX
    requires NotRegistered(events, i, n, v)
    ensures v in states[n].progress
    ensures states[n].progress[v].remaining + states[n].progress[v].next >= MAX + states[i].progress[v].next
    ensures states[n].progress[v].remaining > 0
  {
    RemainingBounded(states, events, i, v);
    if i < n {
      DisabledFrom(states, events, i, n - 1, v);
      NextGrows(states, events, i, n, v);
      RunTaskValid(states, events, n - 1);
      Effect(states[n - 1], events[n - 1], states[n], v);
      RemainingBounded(states, events, n, v);
    }
  }

  /**
    An answer that has its effect in a batch with a violation disables its validator in every continuation,
    however long, in which it is not registered again.
  */
  lemma DisabledForEver(states: seq<World>, events: seq<Event>, i: nat, n: nat, v: int)
    requires Run(states, events) && i < n <= |events| && AppliesTo(states[i], events[i], v) && states[i].task.violated
    requires NotRegistered(events, i + 1, n, v)
    ensures v in states[n].progress && states[n].progress[v].remaining > 0
  {
    assert Happens(states[i], events[i], states[i + 1]);
    DisabledFrom(states, events, i + 1, n, v);
  }
}
