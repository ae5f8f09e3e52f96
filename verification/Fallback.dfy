/**
  Asking several beacon nodes: `first_success` returns the first answer, `run_on_all` asks everybody.

  The status of a node can change at any time. What is read, at each of the three places where the code
  looks, and what the nodes answer are parameters; a candidate is its position in the list.
*/
module Fallback {

  datatype Status = Ready | Uninitialized | Offline | Incompatible | NotSynced

  /** The status read in the first pass and in the third, the result of a refresh, and whether a request succeeds. */
  datatype Env = Env(first: nat -> Status, later: nat -> Status, refreshed: nat -> Status, succeeds: nat -> bool)

  datatype Reason = Unavailable(status: Status) | RequestFailed

  datatype Report = Report(candidate: nat, reason: Reason)

  datatype Outcome = Success(candidate: nat) | Errors(errors: seq<Report>)

  /** What a call has done so far: whom it has asked, whom it has marked as offline, and what it will report. */
  datatype Progress = Progress(asked: seq<nat>, offline: set<nat>, errors: seq<Report>) {
    function Failed(i: nat, mark: bool): (p: Progress) {
      Progress(asked + [i], offline + (if mark then {i} else {}), errors + [Report(i, RequestFailed)])
    }

    function Answered(i: nat): (p: Progress) {
      this.(asked := asked + [i])
    }

    function Skipped(i: nat, s: Status): (p: Progress) {
      this.(errors := errors + [Report(i, Unavailable(s))])
    }
  }

  /** `status(require_synced)` is ok. */
  predicate Suits(s: Status, synced: bool) {
    s == Ready || (s == NotSynced && !synced)
  }

  // ------------------------------------------------------------------ the order of asking

  predicate AtOnce(env: Env, synced: bool, i: nat) {
    env.first(i) == Ready
  }

  predicate Unsynced(env: Env, synced: bool, i: nat) {
    env.first(i) == NotSynced && !synced
  }

  predicate Retried(env: Env, synced: bool, i: nat) {
    !Suits(env.first(i), synced)
  }

  /** The status a candidate has when the code decides about it for the last time. */
  function LastSeen(env: Env, synced: bool, i: nat): (s: Status) {
    if Suits(env.first(i), synced) then env.first(i)
    else if Suits(env.later(i), synced) then env.later(i)
    else env.refreshed(i)
  }

  predicate Usable(env: Env, synced: bool, i: nat) {
    Suits(LastSeen(env, synced, i), synced)
  }

  predicate Answers(env: Env, synced: bool, i: nat) {
    Usable(env, synced, i) && env.succeeds(i)
  }

  datatype Group = Now | Next | Last

  predicate In(env: Env, synced: bool, g: Group, i: nat) {
    match g
    case Now => AtOnce(env, synced, i)
    case Next => Unsynced(env, synced, i)
    case Last => Retried(env, synced, i)
  }

  /** The candidates below n of one group, in list order. */
  function Those(env: Env, synced: bool, g: Group, n: nat): (l: seq<nat>)
    ensures forall k :: 0 <= k < |l| ==> l[k] < n && In(env, synced, g, l[k])
  {
    if n == 0 then [] else Those(env, synced, g, n - 1) + if In(env, synced, g, n - 1) then [n - 1] else []
  }

  /** Ready candidates, then unsynced ones where they are allowed, then the others, each in list order. */
  function Schedule(env: Env, synced: bool, n: nat): (l: seq<nat>) {
    Those(env, synced, Now, n) + Those(env, synced, Next, n) + Those(env, synced, Last, n)
  }

  /** The candidates in l that are asked. */
  function Asked(env: Env, synced: bool, l: seq<nat>): (r: seq<nat>)
    ensures forall k :: 0 <= k < |r| ==> Usable(env, synced, r[k])
  {
    if l == [] then []
    else Asked(env, synced, l[..|l| - 1]) + if Usable(env, synced, l[|l| - 1]) then [l[|l| - 1]] else []
  }

  ghost predicate NoAnswer(env: Env, synced: bool, l: seq<nat>) {
    forall k :: 0 <= k < |l| ==> !Answers(env, synced, l[k])
  }

  /** Of the candidates that failed, those that are now marked as offline. */
  function MarkedOffline(env: Env, synced: bool, l: seq<nat>): (r: set<nat>) {
    set k | 0 <= k < |l| && Usable(env, synced, l[k]) && !env.succeeds(l[k]) :: l[k]
  }

  ghost predicate Distinct(l: seq<nat>) {
    forall j, k :: 0 <= j < k < |l| ==> l[j] != l[k]
  }

  ghost predicate Contains(l: seq<nat>, i: nat) {
    exists k :: 0 <= k < |l| && l[k] == i
  }

  lemma ContainsAppend(a: seq<nat>, b: seq<nat>, i: nat)
    ensures Contains(a + b, i) <==> Contains(a, i) || Contains(b, i)
  {
    if Contains(a, i) {
      var k :| 0 <= k < |a| && a[k] == i;
      assert (a + b)[k] == i;
    }
    if Contains(b, i) {
      var k :| 0 <= k < |b| && b[k] == i;
      assert (a + b)[|a| + k] == i;
    }
  }

  lemma {:induction false} ThoseComplete(env: Env, synced: bool, g: Group, n: nat, i: nat)
    requires i < n && In(env, synced, g, i)
    ensures Contains(Those(env, synced, g, n), i)
  {
    var rest := Those(env, synced, g, n - 1);
    if i == n - 1 {
      assert [i][0] == i;
      ContainsAppend(rest, [i], i);
    } else {
      ThoseComplete(env, synced, g, n - 1, i);
      ContainsAppend(rest, if In(env, synced, g, n - 1) then [n - 1] else [], i);
    }
  }

  function Rank(env: Env, synced: bool, i: nat): (k: nat) {
    if AtOnce(env, synced, i) then 0 else if Unsynced(env, synced, i) then 1 else 2
  }

  /** i comes before j: by group, and by the list within a group. */
  predicate Before(env: Env, synced: bool, i: nat, j: nat) {
    Rank(env, synced, i) < Rank(env, synced, j) || (Rank(env, synced, i) == Rank(env, synced, j) && i < j)
  }

  ghost predicate InOrder(env: Env, synced: bool, l: seq<nat>) {
    forall j, k :: 0 <= j < k < |l| ==> Before(env, synced, l[j], l[k])
  }

  lemma {:induction false} ThoseInOrder(env: Env, synced: bool, g: Group, n: nat)
    ensures InOrder(env, synced, Those(env, synced, g, n))
    ensures forall k :: 0 <= k < |Those(env, synced, g, n)| ==>
      Rank(env, synced, Those(env, synced, g, n)[k]) == if g == Now then 0 else if g == Next then 1 else 2
  {
    if n > 0 {
      ThoseInOrder(env, synced, g, n - 1);
      var rest, l := Those(env, synced, g, n - 1), Those(env, synced, g, n);
      forall j, k | 0 <= j < k < |l| ensures Before(env, synced, l[j], l[k]) {
        assert l[j] == rest[j] && rest[j] < n - 1;
        assert k < |rest| ==> l[k] == rest[k];
      }
    }
  }

  lemma ScheduleInOrder(env: Env, synced: bool, n: nat)
    ensures InOrder(env, synced, Schedule(env, synced, n))
  {
    ThoseInOrder(env, synced, Now, n);
    ThoseInOrder(env, synced, Next, n);
    ThoseInOrder(env, synced, Last, n);
  }

  /** Every candidate is in the schedule exactly once. */
  lemma ScheduledOnce(env: Env, synced: bool, n: nat, i: nat)
    ensures Distinct(Schedule(env, synced, n))
    ensures Contains(Schedule(env, synced, n), i) <==> i < n
  {
    var a, b, c := Those(env, synced, Now, n), Those(env, synced, Next, n), Those(env, synced, Last, n);
    ContainsAppend(a + b, c, i);
    ContainsAppend(a, b, i);
    if i < n {
      var g := if In(env, synced, Now, i) then Now else if In(env, synced, Next, i) then Next else Last;
      ThoseComplete(env, synced, g, n, i);
    }
    ScheduleInOrder(env, synced, n);
    OrderedIsDistinct(env, synced, Schedule(env, synced, n));
  }

  lemma OrderedIsDistinct(env: Env, synced: bool, l: seq<nat>)
    requires InOrder(env, synced, l)
    ensures Distinct(l)
  {
    forall j, k | 0 <= j < k < |l| ensures l[j] != l[k] {
      assert Before(env, synced, l[j], l[k]);
    }
  }

  // ------------------------------------------------------------------ going through the schedule

  lemma {:induction false} ThosePrefix(env: Env, synced: bool, g: Group, i: nat, n: nat)
    requires i <= n
    ensures Those(env, synced, g, i) <= Those(env, synced, g, n)
  {
    if i < n {
      ThosePrefix(env, synced, g, i, n - 1);
    }
  }

  /** Candidate i is the next of the ready ones. */
  lemma NextNow(env: Env, synced: bool, i: nat, n: nat)
    requires i < n && AtOnce(env, synced, i)
    ensures var k := |Those(env, synced, Now, i)|; k < |Schedule(env, synced, n)| && Schedule(env, synced, n)[k] == i
  {
    ThosePrefix(env, synced, Now, i + 1, n);
  }

  /** How far a call has come: the first k candidates of the schedule l are dealt with, and nobody has answered. */
  ghost predicate Come(env: Env, synced: bool, mark: bool, l: seq<nat>, k: nat, p: Progress) {
    && k <= |l| && p.asked == Asked(env, synced, l[..k]) && NoAnswer(env, synced, l[..k])
    && p.offline == if mark then MarkedOffline(env, synced, l[..k]) else {}
  }

  lemma ComeFurther(env: Env, synced: bool, mark: bool, l: seq<nat>, k: nat, p: Progress)
    requires Come(env, synced, mark, l, k, p) && k < |l|
    ensures Answers(env, synced, l[k]) ==> FirstAnswer(env, synced, mark, l, l[k], p.Answered(l[k]))
    ensures Usable(env, synced, l[k]) && !env.succeeds(l[k]) ==> Come(env, synced, mark, l, k + 1, p.Failed(l[k], mark))
    ensures forall s :: !Usable(env, synced, l[k]) ==> Come(env, synced, mark, l, k + 1, p.Skipped(l[k], s))
  {
    assert l[..k + 1][..k] == l[..k];
    assert forall j :: 0 <= j < k ==> l[..k + 1][j] == l[..k][j];
    assert Asked(env, synced, l[..k + 1]) == p.asked + if Usable(env, synced, l[k]) then [l[k]] else [];
    assert Answers(env, synced, l[k]) ==> AnswersAt(env, synced, mark, l, k, p.Answered(l[k]));
    var asks := Usable(env, synced, l[k]);
    if !Answers(env, synced, l[k]) {
      var more := if asks then {l[k]} else {};
      assert MarkedOffline(env, synced, l[..k + 1]) == MarkedOffline(env, synced, l[..k]) + more by {
        assert l[..k + 1][k] == l[k];
      }
    }
  }

  // ------------------------------------------------------------------ what is reported when nobody answers

  /** What the first pass reports: a failed request to a ready candidate, the status of any other one. */
  function FirstReports(env: Env, n: nat): (r: seq<Report>) {
    seq(n, i requires 0 <= i < n =>
      Report(i, if env.first(i) == Ready then RequestFailed else Unavailable(env.first(i))))
  }

  /** What the second pass reports. */
  function Failures(l: seq<nat>): (r: seq<Report>) {
    seq(|l|, k requires 0 <= k < |l| => Report(l[k], RequestFailed))
  }

  /** What the third pass reports: a failed request, or the status after the refresh. */
  function LastReports(env: Env, synced: bool, l: seq<nat>): (r: seq<Report>) {
    seq(|l|, k requires 0 <= k < |l| =>
      Report(l[k], if Usable(env, synced, l[k]) then RequestFailed else Unavailable(env.refreshed(l[k]))))
  }

  /** Candidate i has answered after everybody before it in the schedule was asked in vain or passed over. */
  ghost predicate FirstAnswer(env: Env, synced: bool, mark: bool, l: seq<nat>, i: nat, p: Progress) {
    exists k :: 0 <= k < |l| && l[k] == i && AnswersAt(env, synced, mark, l, k, p)
  }

  ghost predicate AnswersAt(env: Env, synced: bool, mark: bool, l: seq<nat>, k: nat, p: Progress)
    requires k < |l|
  {
    && Answers(env, synced, l[k]) && NoAnswer(env, synced, l[..k])
    && p.asked == Asked(env, synced, l[..k + 1])
    && p.offline == if mark then MarkedOffline(env, synced, l[..k]) else {}
  }

  lemma NextFirstReport(env: Env, i: nat)
    ensures FirstReports(env, i + 1) == FirstReports(env, i)
      + [Report(i, if env.first(i) == Ready then RequestFailed else Unavailable(env.first(i)))]
  {
  }

  lemma PassReady(env: Env, synced: bool, mark: bool, n: nat, i: nat, p: Progress)
    requires i < n && AtOnce(env, synced, i)
    requires Come(env, synced, mark, Schedule(env, synced, n), |Those(env, synced, Now, i)|, p)
    ensures env.succeeds(i) ==> FirstAnswer(env, synced, mark, Schedule(env, synced, n), i, p.Answered(i))
    ensures !env.succeeds(i) ==>
      Come(env, synced, mark, Schedule(env, synced, n), |Those(env, synced, Now, i + 1)|, p.Failed(i, mark))
  {
    NextNow(env, synced, i, n);
    ComeFurther(env, synced, mark, Schedule(env, synced, n), |Those(env, synced, Now, i)|, p);
  }

  lemma PassOther(env: Env, synced: bool, mark: bool, n: nat, i: nat, p: Progress, s: Status)
    requires i < n && !AtOnce(env, synced, i)
    requires Come(env, synced, mark, Schedule(env, synced, n), |Those(env, synced, Now, i)|, p)
    ensures Come(env, synced, mark, Schedule(env, synced, n), |Those(env, synced, Now, i + 1)|, p.Skipped(i, s))
  {
    assert Those(env, synced, Now, i + 1) == Those(env, synced, Now, i);
  }

  /** The first pass asks the ready candidates, and sorts the others. */
  method FirstPass(n: nat, synced: bool, mark: bool, env: Env)
    returns (r: Outcome, p: Progress, unsynced: seq<nat>, retry: seq<nat>)
    ensures r.Success? ==> FirstAnswer(env, synced, mark, Schedule(env, synced, n), r.candidate, p)
    ensures r.Errors? ==> unsynced == Those(env, synced, Next, n) && retry == Those(env, synced, Last, n)
    ensures r.Errors? ==> Come(env, synced, mark, Schedule(env, synced, n), |Those(env, synced, Now, n)|, p)
    ensures r.Errors? ==> p.errors == FirstReports(env, n)
  {
    p, unsynced, retry := Progress([], {}, []), [], [];
    ghost var l := Schedule(env, synced, n);
    for i := 0 to n
      invariant unsynced == Those(env, synced, Next, i) && retry == Those(env, synced, Last, i)
      invariant Come(env, synced, mark, l, |Those(env, synced, Now, i)|, p) && p.errors == FirstReports(env, i)
    {
      var status := env.first(i);
      NextFirstReport(env, i);
      if status == Ready {
        PassReady(env, synced, mark, n, i, p);
        if env.succeeds(i) {
          return Success(i), p.Answered(i), unsynced, retry;
        }
        p := p.Failed(i, mark);
      } else {
        if status == NotSynced && !synced {
          unsynced := unsynced + [i];
        } else {
          retry := retry + [i];
        }
        PassOther(env, synced, mark, n, i, p, status);
        p := p.Skipped(i, status);
      }
    }
    return Errors([]), p, unsynced, retry;
  }

  /** Candidates k, k + 1, ... of the schedule l are those in todo. */
  ghost predicate NextAre(l: seq<nat>, k: nat, todo: seq<nat>) {
    k + |todo| <= |l| && l[k..k + |todo|] == todo
  }

  /** The second pass asks the unsynced candidates, whatever has become of them. */
  method SecondPass(todo: seq<nat>, synced: bool, mark: bool, env: Env, before: Progress, ghost l: seq<nat>,
                    ghost k: nat)
    returns (r: Outcome, p: Progress)
    requires NextAre(l, k, todo) && forall j :: 0 <= j < |todo| ==> Unsynced(env, synced, todo[j])
    requires Come(env, synced, mark, l, k, before)
    ensures r.Success? ==> FirstAnswer(env, synced, mark, l, r.candidate, p)
    ensures r.Errors? ==> Come(env, synced, mark, l, k + |todo|, p) && p.errors == before.errors + Failures(todo)
  {
    p := before;
    for j := 0 to |todo|
      invariant Come(env, synced, mark, l, k + j, p) && p.errors == before.errors + Failures(todo[..j])
    {
      var i := todo[j];
      assert l[k + j] == i;
      ComeFurther(env, synced, mark, l, k + j, p);
      if env.succeeds(i) {
        return Success(i), p.Answered(i);
      }
      assert Failures(todo[..j + 1]) == Failures(todo[..j]) + [Report(i, RequestFailed)];
      p := p.Failed(i, mark);
    }
    assert todo[..|todo|] == todo;
    return Errors([]), p;
  }

  lemma NextReport(env: Env, synced: bool, todo: seq<nat>, j: nat)
    requires j < |todo|
    ensures LastReports(env, synced, todo[..j + 1]) == LastReports(env, synced, todo[..j])
      + [Report(todo[j], if Usable(env, synced, todo[j]) then RequestFailed else Unavailable(env.refreshed(todo[j])))]
  {
  }

  /** The third pass looks again at the others, refreshing those that do not suit, and asks those that do. */
  method ThirdPass(todo: seq<nat>, synced: bool, mark: bool, env: Env, before: Progress, ghost l: seq<nat>,
                   ghost k: nat)
    returns (r: Outcome, p: Progress)
    requires NextAre(l, k, todo) && forall j :: 0 <= j < |todo| ==> Retried(env, synced, todo[j])
    requires Come(env, synced, mark, l, k, before)
    ensures r.Success? ==> FirstAnswer(env, synced, mark, l, r.candidate, p)
    ensures r.Errors? ==> Come(env, synced, mark, l, k + |todo|, p)
    ensures r.Errors? ==> r.errors == p.errors == before.errors + LastReports(env, synced, todo)
  {
    p := before;
    for j := 0 to |todo|
      invariant Come(env, synced, mark, l, k + j, p) && p.errors == before.errors + LastReports(env, synced, todo[..j])
    {
      var i := todo[j];
      assert l[k + j] == i;
      ComeFurther(env, synced, mark, l, k + j, p);
      NextReport(env, synced, todo, j);
      var status := env.later(i);
      if !Suits(status, synced) {
        status := env.refreshed(i);
      }
      if Suits(status, synced) {
        if env.succeeds(i) {
          return Success(i), p.Answered(i);
        }
        p := p.Failed(i, mark);
      } else {
        p := p.Skipped(i, status);
      }
    }
    assert todo[..|todo|] == todo;
    return Errors(p.errors), p;
  }

  /** The candidate suits at one of the three looks and its request succeeds. */
  predicate CanAnswer(env: Env, synced: bool, i: nat) {
    env.succeeds(i) && (Suits(env.first(i), synced) || Suits(env.later(i), synced) || Suits(env.refreshed(i), synced))
  }

  /**
    Asks the candidates of the schedule that are usable, one after the other, until one succeeds. Fails if and only
    if no candidate that suits at one of the three looks succeeds, and then reports on every candidate in each pass.
  */
  method FirstSuccess(n: nat, synced: bool, mark: bool, env: Env) returns (r: Outcome, p: Progress)
    ensures r.Success? ==> FirstAnswer(env, synced, mark, Schedule(env, synced, n), r.candidate, p)
    ensures r.Errors? ==> Come(env, synced, mark, Schedule(env, synced, n), |Schedule(env, synced, n)|, p)
    ensures r.Errors? ==> r.errors == FirstReports(env, n) + Failures(Those(env, synced, Next, n))
                                    + LastReports(env, synced, Those(env, synced, Last, n))
    ensures r.Success? ==> r.candidate < n && CanAnswer(env, synced, r.candidate)
    ensures r.Errors? ==> forall i: nat :: i < n ==> !CanAnswer(env, synced, i)
    ensures OfflineExact(env, mark, p)
  {
    ghost var l := Schedule(env, synced, n);
    ghost var k := |Those(env, synced, Now, n)|;
    var unsynced, retry;
    r, p, unsynced, retry := FirstPass(n, synced, mark, env);
    if r.Success? {
      AnsweredMeans(env, synced, mark, n, r.candidate, p);
      return;
    }
    if !synced {
      r, p := SecondPass(unsynced, synced, mark, env, p, l, k);
      if r.Success? {
        AnsweredMeans(env, synced, mark, n, r.candidate, p);
        return;
      }
    } else {
      NoneUnsynced(env, n);
    }
    r, p := ThirdPass(retry, synced, mark, env, p, l, k + |unsynced|);
    if r.Success? {
      AnsweredMeans(env, synced, mark, n, r.candidate, p);
    } else {
      FailedMeans(env, synced, mark, n, p);
    }
  }

  /** Exactly those that were asked and failed are marked as offline, if they are to be marked. */
  ghost predicate OfflineExact(env: Env, mark: bool, p: Progress) {
    forall i :: i in p.offline <==> mark && i in p.asked && !env.succeeds(i)
  }

  lemma {:induction false} AskedMeans(env: Env, synced: bool, l: seq<nat>, i: nat)
    ensures i in Asked(env, synced, l) <==> i in l && Usable(env, synced, i)
  {
    if l != [] {
      AskedMeans(env, synced, l[..|l| - 1], i);
      assert l == l[..|l| - 1] + [l[|l| - 1]];
    }
  }

  lemma OfflineMeans(env: Env, synced: bool, l: seq<nat>, i: nat)
    ensures i in MarkedOffline(env, synced, l) <==> i in Asked(env, synced, l) && !env.succeeds(i)
  {
    AskedMeans(env, synced, l, i);
  }

  lemma AnsweredMeans(env: Env, synced: bool, mark: bool, n: nat, i: nat, p: Progress)
    requires FirstAnswer(env, synced, mark, Schedule(env, synced, n), i, p)
    ensures i < n && CanAnswer(env, synced, i)
    ensures OfflineExact(env, mark, p)
  {
    var l := Schedule(env, synced, n);
    var k :| 0 <= k < |l| && l[k] == i && AnswersAt(env, synced, mark, l, k, p);
    ScheduledOnce(env, synced, n, i);
    OfflineAtAnswer(env, synced, mark, l, k, p);
  }

  lemma OfflineAtAnswer(env: Env, synced: bool, mark: bool, l: seq<nat>, k: nat, p: Progress)
    requires k < |l| && AnswersAt(env, synced, mark, l, k, p)
    ensures OfflineExact(env, mark, p)
  {
    var done := l[..k];
    assert l[..k + 1] == done + [l[k]];
    assert Asked(env, synced, done + [l[k]]) == Asked(env, synced, done) + [l[k]] by {
      assert (done + [l[k]])[..k] == done;
    }
    forall j ensures j in p.offline <==> mark && j in p.asked && !env.succeeds(j) {
      if j >= 0 {
        OfflineMeans(env, synced, done, j);
      }
    }
  }

  lemma FailedMeans(env: Env, synced: bool, mark: bool, n: nat, p: Progress)
    requires Come(env, synced, mark, Schedule(env, synced, n), |Schedule(env, synced, n)|, p)
    ensures forall i: nat :: i < n ==> !CanAnswer(env, synced, i)
    ensures OfflineExact(env, mark, p)
  {
    var l := Schedule(env, synced, n);
    assert l[..|l|] == l;
    FailsIff(env, synced, n);
    forall j ensures j in p.offline <==> mark && j in p.asked && !env.succeeds(j) {
      if j >= 0 {
        OfflineMeans(env, synced, l, j);
      }
    }
    forall i: nat | i < n ensures !CanAnswer(env, synced, i) {
      assert CanAnswer(env, synced, i) ==> Answers(env, synced, i);
    }
  }

  lemma {:induction false} NoneUnsynced(env: Env, n: nat)
    ensures Those(env, true, Next, n) == []
  {
    if n > 0 {
      NoneUnsynced(env, n - 1);
    }
  }

  // ------------------------------------------------------------------ what that means

  lemma {:induction false} AskedInOrder(env: Env, synced: bool, l: seq<nat>)
    requires InOrder(env, synced, l)
    ensures InOrder(env, synced, Asked(env, synced, l))
    ensures forall k :: 0 <= k < |Asked(env, synced, l)| ==> Contains(l, Asked(env, synced, l)[k])
  {
    if l != [] {
      var rest, last := l[..|l| - 1], l[|l| - 1];
      AskedInOrder(env, synced, rest);
      var a, b := Asked(env, synced, rest), Asked(env, synced, l);
      forall k | 0 <= k < |a| ensures Contains(l, a[k]) && Before(env, synced, a[k], last) {
        var j :| 0 <= j < |rest| && rest[j] == a[k];
        assert l[j] == a[k];
      }
      assert l[|l| - 1] == last;
      assert forall k :: 0 <= k < |a| ==> b[k] == a[k];
    }
  }

  predicate SeenReady(env: Env, i: nat) {
    env.first(i) == Ready || env.later(i) == Ready || env.refreshed(i) == Ready
  }

  /** The order in which candidates are asked, by the status at the first look: i before j. */
  predicate AskedBefore(env: Env, synced: bool, i: nat, j: nat) {
    && (env.first(j) == Ready ==> env.first(i) == Ready)
    && (env.first(j) == NotSynced && !synced ==> env.first(i) == Ready || env.first(i) == NotSynced)
    && (env.first(i) == env.first(j) ==> i < j)
    && (synced && env.first(i) != Ready && env.first(j) != Ready ==> i < j)
  }

  /**
    Whatever the statuses do: each candidate is asked at most once, ready ones before unsynced ones before
    refreshed ones, each group in list order; and nobody who was not last seen ready is asked when sync is
    required.
  */
  lemma AskedProperly(env: Env, synced: bool, n: nat, k: nat)
    requires k <= |Schedule(env, synced, n)|
    ensures var asked := Asked(env, synced, Schedule(env, synced, n)[..k]);
      && InOrder(env, synced, asked) && Distinct(asked)
      && (forall j :: 0 <= j < |asked| ==> asked[j] < n && (synced ==> SeenReady(env, asked[j])))
      && forall j, m :: 0 <= j < m < |asked| ==> AskedBefore(env, synced, asked[j], asked[m])
  {
    var l := Schedule(env, synced, n);
    ScheduleInOrder(env, synced, n);
    AskedInOrder(env, synced, l[..k]);
    var asked := Asked(env, synced, l[..k]);
    OrderedIsDistinct(env, synced, asked);
    forall j | 0 <= j < |asked| ensures asked[j] < n {
      var m :| 0 <= m < k && l[..k][m] == asked[j];
      assert l[m] == asked[j];
      ScheduledOnce(env, synced, n, asked[j]);
    }
    forall j, m | 0 <= j < m < |asked| ensures AskedBefore(env, synced, asked[j], asked[m]) {
      assert Before(env, synced, asked[j], asked[m]);
    }
  }

  ghost predicate SomebodyAnswers(env: Env, synced: bool, n: nat) {
    exists i: nat :: i < n && Answers(env, synced, i)
  }

  /** Nobody in the schedule answers if and only if every candidate is unusable or fails. */
  lemma FailsIff(env: Env, synced: bool, n: nat)
    ensures NoAnswer(env, synced, Schedule(env, synced, n)) <==> !SomebodyAnswers(env, synced, n)
  {
    var l := Schedule(env, synced, n);
    if i: nat :| i < n && Answers(env, synced, i) {
      ScheduledOnce(env, synced, n, i);
      var k :| 0 <= k < |l| && l[k] == i;
    }
    if !NoAnswer(env, synced, l) {
      var k :| 0 <= k < |l| && Answers(env, synced, l[k]);
      ScheduledOnce(env, synced, n, l[k]);
    }
  }

  // ------------------------------------------------------------------ asking everybody

  datatype Result = Done | Undone(reason: Reason)

  datatype Entry = Entry(candidate: nat, result: Result)

  /** What becomes of a candidate when everybody is asked. */
  function ResultOf(env: Env, synced: bool, i: nat): (r: Result) {
    if !Usable(env, synced, i) then Undone(Unavailable(LastSeen(env, synced, i)))
    else if env.succeeds(i) then Done
    else Undone(RequestFailed)
  }

  /** Done if it suits at one of the three looks and succeeds; else failed, or unavailable with the refreshed status. */
  lemma ResultMeans(env: Env, synced: bool, i: nat)
    ensures ResultOf(env, synced, i) == Done <==> CanAnswer(env, synced, i)
    ensures ResultOf(env, synced, i) == Undone(Unavailable(env.refreshed(i))) <==>
      !Suits(env.first(i), synced) && !Suits(env.later(i), synced) && !Suits(env.refreshed(i), synced)
    ensures ResultOf(env, synced, i) in {Done, Undone(RequestFailed), Undone(Unavailable(env.refreshed(i)))}
  {
  }

  function Entries(env: Env, synced: bool, l: seq<nat>): (r: seq<Entry>) {
    seq(|l|, k requires 0 <= k < |l| => Entry(l[k], ResultOf(env, synced, l[k])))
  }

  /** The candidates in l have been dealt with. */
  ghost predicate Ran(env: Env, synced: bool, mark: bool, l: seq<nat>, results: seq<Entry>, offline: set<nat>) {
    results == Entries(env, synced, l) && offline == if mark then MarkedOffline(env, synced, l) else {}
  }

  lemma RanFurther(env: Env, synced: bool, mark: bool, l: seq<nat>, i: nat, results: seq<Entry>, offline: set<nat>)
    requires Ran(env, synced, mark, l, results, offline)
    ensures Ran(env, synced, mark, l + [i], results + [Entry(i, ResultOf(env, synced, i))],
                offline + if mark && ResultOf(env, synced, i) == Undone(RequestFailed) then {i} else {})
  {
    var more := l + [i];
    assert more[|l|] == i && forall k :: 0 <= k < |l| ==> more[k] == l[k];
    assert MarkedOffline(env, synced, more) ==
      MarkedOffline(env, synced, l) + if ResultOf(env, synced, i) == Undone(RequestFailed) then {i} else {};
  }

  method Ask(env: Env, mark: bool, i: nat, offline: set<nat>) returns (r: Result, marked: set<nat>)
    ensures r == if env.succeeds(i) then Done else Undone(RequestFailed)
    ensures marked == offline + if mark && !env.succeeds(i) then {i} else {}
  {
    if env.succeeds(i) {
      return Done, offline;
    }
    marked := offline;
    if mark {
      marked := marked + {i};
    }
    return Undone(RequestFailed), marked;
  }

  /** The first pass: the ready candidates. */
  method RunOnReady(n: nat, synced: bool, mark: bool, env: Env)
    returns (results: seq<Entry>, offline: set<nat>, unsynced: seq<nat>, retry: seq<nat>)
    ensures unsynced == Those(env, synced, Next, n) && retry == Those(env, synced, Last, n)
    ensures Ran(env, synced, mark, Those(env, synced, Now, n), results, offline)
  {
    results, offline, unsynced, retry := [], {}, [], [];
    for i := 0 to n
      invariant unsynced == Those(env, synced, Next, i) && retry == Those(env, synced, Last, i)
      invariant Ran(env, synced, mark, Those(env, synced, Now, i), results, offline)
    {
      var status := env.first(i);
      assert Those(env, synced, Now, i) + [] == Those(env, synced, Now, i);
      if status == NotSynced && !synced {
        unsynced := unsynced + [i];
      } else if status != Ready {
        retry := retry + [i];
      } else {
        RanFurther(env, synced, mark, Those(env, synced, Now, i), i, results, offline);
        var r;
        r, offline := Ask(env, mark, i, offline);
        results := results + [Entry(i, r)];
      }
    }
  }

  /** The second pass: the unsynced candidates. */
  method RunOnUnsynced(todo: seq<nat>, synced: bool, mark: bool, env: Env, before: seq<Entry>, marked: set<nat>,
                       ghost l: seq<nat>)
    returns (results: seq<Entry>, offline: set<nat>)
    requires Ran(env, synced, mark, l, before, marked) && forall j :: 0 <= j < |todo| ==> Unsynced(env, synced, todo[j])
    ensures Ran(env, synced, mark, l + todo, results, offline)
  {
    results, offline := before, marked;
    assert l + todo[..0] == l;
    for j := 0 to |todo|
      invariant Ran(env, synced, mark, l + todo[..j], results, offline)
    {
      RanFurther(env, synced, mark, l + todo[..j], todo[j], results, offline);
      assert l + todo[..j] + [todo[j]] == l + todo[..j + 1];
      var r;
      r, offline := Ask(env, mark, todo[j], offline);
      results := results + [Entry(todo[j], r)];
    }
    assert todo[..|todo|] == todo;
  }

  /** The third pass: the others, refreshed where needed. */
  method RunOnOthers(todo: seq<nat>, synced: bool, mark: bool, env: Env, before: seq<Entry>, marked: set<nat>,
                     ghost l: seq<nat>)
    returns (results: seq<Entry>, offline: set<nat>)
    requires Ran(env, synced, mark, l, before, marked) && forall j :: 0 <= j < |todo| ==> Retried(env, synced, todo[j])
    ensures Ran(env, synced, mark, l + todo, results, offline)
  {
    results, offline := before, marked;
    assert l + todo[..0] == l;
    for j := 0 to |todo|
      invariant Ran(env, synced, mark, l + todo[..j], results, offline)
    {
      var i := todo[j];
      RanFurther(env, synced, mark, l + todo[..j], i, results, offline);
      assert l + todo[..j] + [i] == l + todo[..j + 1];
      var status := env.later(i);
      if !Suits(status, synced) {
        status := env.refreshed(i);
      }
      var r := Undone(Unavailable(status));
      if Suits(status, synced) {
        r, offline := Ask(env, mark, i, offline);
      }
      results := results + [Entry(i, r)];
    }
    assert todo[..|todo|] == todo;
  }

  /** Exactly one result for every candidate, in the order of the schedule; ok if and only if all are done. */
  method RunOnAll(n: nat, synced: bool, mark: bool, env: Env) returns (ok: bool, results: seq<Entry>, offline: set<nat>)
    ensures Ran(env, synced, mark, Schedule(env, synced, n), results, offline)
    ensures ok <==> forall k :: 0 <= k < |results| ==> results[k].result == Done
    ensures ok <==> forall i: nat :: i < n ==> CanAnswer(env, synced, i)
  {
    var unsynced, retry;
    results, offline, unsynced, retry := RunOnReady(n, synced, mark, env);
    ghost var l := Those(env, synced, Now, n);
    if !synced {
      results, offline := RunOnUnsynced(unsynced, synced, mark, env, results, offline, l);
    } else {
      NoneUnsynced(env, n);
      assert l + unsynced == l;
    }
    results, offline := RunOnOthers(retry, synced, mark, env, results, offline, l + unsynced);
    ok := true;
    for k := 0 to |results|
      invariant ok <==> forall m :: 0 <= m < k ==> results[m].result == Done
    {
      if results[k].result != Done {
        ok := false;
      }
    }
    AllDoneMeans(env, synced, n);
  }

  lemma AllDoneMeans(env: Env, synced: bool, n: nat)
    ensures var results := Entries(env, synced, Schedule(env, synced, n));
      (forall k :: 0 <= k < |results| ==> results[k].result == Done) <==>
      (forall i: nat :: i < n ==> CanAnswer(env, synced, i))
  {
    var l := Schedule(env, synced, n);
    var results := Entries(env, synced, l);
    if forall k :: 0 <= k < |results| ==> results[k].result == Done {
      forall i: nat | i < n ensures CanAnswer(env, synced, i) {
        ScheduledOnce(env, synced, n, i);
        var k :| 0 <= k < |l| && l[k] == i;
        assert results[k].result == Done;
        ResultMeans(env, synced, i);
      }
    }
    if forall i: nat :: i < n ==> CanAnswer(env, synced, i) {
      forall k | 0 <= k < |results| ensures results[k].result == Done {
        ScheduledOnce(env, synced, n, l[k]);
        ResultMeans(env, synced, l[k]);
      }
    }
  }
}
