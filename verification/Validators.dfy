/**
  The validators a node runs, beside the list of definitions they are made from.

  Starting a validator reads keystores and committee files; what comes of it is a parameter, the key that the
  started validator answers to. So is whether the files that an update reads before it starts anything can be
  opened. Saving the definitions is taken to succeed.
*/
module Validators {
  import opened Collections

  datatype Kind = LocalKeystore | DistributedKeystore | Web3Signer

  datatype Definition = Definition(key: int, enabled: bool, kind: Kind, fee: Option<int>, gas: Option<int>,
                                   builder: Option<bool>)

  datatype Validator = Validator(fee: Option<int>, gas: Option<int>, builder: Option<bool>)

  /** A started validator carries the fields of its definition. */
  function FromDefinition(d: Definition): (v: Validator) {
    Validator(d.fee, d.gas, d.builder)
  }

  datatype Start = Failed | Started(key: int)

  /**
    What the files come out as: whether the key cache can be locked and opened, whether the keystore of a local
    definition can be opened, and what starting a definition gives.
  */
  datatype Boot = Boot(ready: bool, opens: Definition -> bool, start: Definition -> Start)

  /** What `from_definition` returns, when reading the files comes out as `boot` says. */
  function Initialize(d: Definition, boot: Boot): (r: Start) {
    match d.kind
    case LocalKeystore => if boot.start(d) == Started(d.key) then boot.start(d) else Failed
    case DistributedKeystore => boot.start(d)
    case Web3Signer => Failed
  }

  predicate Starts(d: Definition, boot: Boot) {
    Initialize(d, boot) == Started(d.key)
  }

  datatype Result =
    | Ok
    | NotFound
    | DuplicatePublicKey
    | InvalidActionOnRemoteValidator
    | UnableToOpen
    | UnableToInitialize

  /** The errors of an update. */
  predicate UpdateFailed(r: Result) {
    r == UnableToOpen || r == UnableToInitialize
  }

  // ------------------------------------------------------------------ definitions and validators in agreement

  ghost predicate Unique(defs: seq<Definition>) {
    forall i, j :: 0 <= i < j < |defs| ==> defs[i].key != defs[j].key
  }

  predicate Enabled(defs: seq<Definition>, k: int) {
    exists i :: 0 <= i < |defs| && defs[i].key == k && defs[i].enabled
  }

  /** As Consistent, but the fields of the validator with key x may be other ones. */
  ghost predicate ConsistentBut(defs: seq<Definition>, validators: map<int, Validator>, x: Option<int>) {
    && Unique(defs)
    && (forall k :: k in validators ==> Enabled(defs, k))
    && forall i :: 0 <= i < |defs| && defs[i].key in validators && x != Some(defs[i].key) ==>
        validators[defs[i].key] == FromDefinition(defs[i])
  }

  /** Unique definitions; every validator belongs to an enabled one and agrees with it field by field. */
  ghost predicate Consistent(defs: seq<Definition>, validators: map<int, Validator>) {
    ConsistentBut(defs, validators, None)
  }

  ghost predicate AllRun(defs: seq<Definition>, validators: map<int, Validator>) {
    forall i :: 0 <= i < |defs| && defs[i].enabled ==> defs[i].key in validators
  }

  /** Moreover, every enabled definition has its validator: exactly the enabled definitions run. */
  ghost predicate Synced(defs: seq<Definition>, validators: map<int, Validator>) {
    Consistent(defs, validators) && AllRun(defs, validators)
  }

  // ------------------------------------------------------------------ the update

  /** What one round of the loop makes of the validators, if it goes on. */
  function Next(d: Definition, now: map<int, Validator>, boot: Boot): (r: map<int, Validator>) {
    if !d.enabled then now - {d.key}
    else if d.kind != Web3Signer && d.key in now then now
    else
      match Initialize(d, boot)
      case Failed => now
      case Started(k) => now[k := FromDefinition(d)]
  }

  /** The loop stops at d: it is neither running nor distributed, and cannot be started. */
  predicate StopsAt(d: Definition, now: map<int, Validator>, boot: Boot) {
    d.enabled && d.kind != DistributedKeystore && (d.kind == Web3Signer || d.key !in now) &&
      Initialize(d, boot) == Failed
  }

  /** The validators after n rounds. */
  function After(defs: seq<Definition>, before: map<int, Validator>, boot: Boot, n: nat): (r: map<int, Validator>)
    requires n <= |defs|
  {
    if n == 0 then before else Next(defs[n - 1], After(defs, before, boot, n - 1), boot)
  }

  /** The loop gets through the first n definitions. */
  ghost predicate NoStop(defs: seq<Definition>, before: map<int, Validator>, boot: Boot, n: nat)
    requires n <= |defs|
  {
    n > 0 ==> NoStop(defs, before, boot, n - 1) && !StopsAt(defs[n - 1], After(defs, before, boot, n - 1), boot)
  }

  predicate Opens(d: Definition, boot: Boot) {
    d.enabled && d.kind == LocalKeystore ==> boot.opens(d)
  }

  /** The cache can be opened, and the keystore of every enabled local definition, whether it runs already or not. */
  ghost predicate Begins(defs: seq<Definition>, boot: Boot) {
    boot.ready && forall i :: 0 <= i < |defs| ==> Opens(defs[i], boot)
  }

  /**
    The update changes nothing if it cannot begin. Otherwise it has gone through k definitions: through all of
    them, or up to one where it stops.
  */
  ghost predicate Updates(defs: seq<Definition>, before: map<int, Validator>, boot: Boot, r: Result, k: int,
                          after: map<int, Validator>)
  {
    && 0 <= k <= |defs| && NoStop(defs, before, boot, k) && after == After(defs, before, boot, k)
    && match r
       case Ok => Begins(defs, boot) && k == |defs|
       case UnableToOpen => !Begins(defs, boot) && k == 0
       case UnableToInitialize => Begins(defs, boot) && k < |defs| && StopsAt(defs[k], after, boot)
       case _ => false
  }

  /** The distributed keystores that have to be started fail, or start under the key of their definition. */
  ghost predicate OwnKeys(defs: seq<Definition>, before: map<int, Validator>, boot: Boot) {
    forall i :: 0 <= i < |defs| && defs[i].enabled && defs[i].kind == DistributedKeystore && defs[i].key !in before ==>
      boot.start(defs[i]) == Failed || boot.start(defs[i]) == Started(defs[i].key)
  }

  /** An enabled remote signer, or an enabled local keystore that is not running and cannot be started. */
  predicate Fatal(d: Definition, before: map<int, Validator>, boot: Boot) {
    && d.enabled
    && (d.kind == Web3Signer || (d.kind == LocalKeystore && d.key !in before && boot.start(d) != Started(d.key)))
  }

  ghost predicate SomeFatal(defs: seq<Definition>, before: map<int, Validator>, boot: Boot) {
    exists i :: 0 <= i < |defs| && Fatal(defs[i], before, boot)
  }

  /** The keystore of an enabled local definition cannot be opened. */
  ghost predicate SomeLocked(defs: seq<Definition>, boot: Boot) {
    exists i :: 0 <= i < |defs| && defs[i].enabled && defs[i].kind == LocalKeystore && !boot.opens(defs[i])
  }

  /** How an update ends, in terms of what it finds. */
  ghost predicate EndsAs(defs: seq<Definition>, before: map<int, Validator>, boot: Boot, r: Result) {
    && (r == UnableToOpen <==> !boot.ready || SomeLocked(defs, boot))
    && (r == UnableToInitialize <==> r != UnableToOpen && SomeFatal(defs, before, boot))
  }

  /** Every enabled definition that is not running starts under its own key. */
  ghost predicate AllStart(defs: seq<Definition>, before: map<int, Validator>, boot: Boot) {
    forall i :: 0 <= i < |defs| && defs[i].enabled && defs[i].key !in before ==> Starts(defs[i], boot)
  }

  predicate Mentioned(defs: seq<Definition>, n: nat, k: int)
    requires n <= |defs|
  {
    exists i :: 0 <= i < n && defs[i].key == k
  }

  /**
    A disabled validator goes, a running one stays as it is, and another one comes if it starts, with the fields of
    d.
  */
  predicate Settled(d: Definition, before: map<int, Validator>, now: map<int, Validator>, boot: Boot) {
    if !d.enabled then d.key !in now
    else if d.key in before then d.key in now && now[d.key] == before[d.key]
    else if Starts(d, boot) then d.key in now && now[d.key] == FromDefinition(d)
    else d.key !in now
  }

  ghost predicate SettledTo(defs: seq<Definition>, before: map<int, Validator>, now: map<int, Validator>, boot: Boot,
                            n: nat)
    requires n <= |defs|
  {
    && (forall i :: 0 <= i < n ==> Settled(defs[i], before, now, boot))
    && forall k :: !Mentioned(defs, n, k) ==> (k in now <==> k in before) && (k in now ==> now[k] == before[k])
  }

  lemma NextSettles(defs: seq<Definition>, before: map<int, Validator>, now: map<int, Validator>, boot: Boot, i: nat)
    requires i < |defs| && Unique(defs) && OwnKeys(defs, before, boot) && SettledTo(defs, before, now, boot, i)
    requires !StopsAt(defs[i], now, boot)
    ensures SettledTo(defs, before, Next(defs[i], now, boot), boot, i + 1)
    ensures !Fatal(defs[i], before, boot)
  {
    assert !Mentioned(defs, i, defs[i].key);
  }

  lemma {:induction false} AfterSettles(defs: seq<Definition>, before: map<int, Validator>, boot: Boot, n: nat)
    requires n <= |defs| && Unique(defs) && OwnKeys(defs, before, boot) && NoStop(defs, before, boot, n)
    ensures SettledTo(defs, before, After(defs, before, boot, n), boot, n)
    ensures forall i :: 0 <= i < n ==> !Fatal(defs[i], before, boot)
  {
    if n > 0 {
      AfterSettles(defs, before, boot, n - 1);
      NextSettles(defs, before, After(defs, before, boot, n - 1), boot, n - 1);
    }
  }

  lemma StopIsFatal(defs: seq<Definition>, before: map<int, Validator>, boot: Boot, i: nat)
    requires i < |defs| && Unique(defs) && OwnKeys(defs, before, boot) && NoStop(defs, before, boot, i)
    requires StopsAt(defs[i], After(defs, before, boot, i), boot)
    ensures Fatal(defs[i], before, boot)
  {
    AfterSettles(defs, before, boot, i);
    assert !Mentioned(defs, i, defs[i].key);
  }

  /**
    When the update fails: exactly if the cache or a local keystore cannot be opened, or a definition that is not
    distributed has to be started and cannot.
  */
  lemma UpdateFailsIff(defs: seq<Definition>, before: map<int, Validator>, boot: Boot, r: Result, k: int,
                       after: map<int, Validator>)
    requires Unique(defs) && OwnKeys(defs, before, boot) && Updates(defs, before, boot, r, k, after)
    ensures EndsAs(defs, before, boot, r)
  {
    AfterSettles(defs, before, boot, k);
    if r == UnableToInitialize {
      StopIsFatal(defs, before, boot, k);
    }
  }

  /** The definitions are unique and name all validators, which agree with them but for the fields of x. */
  ghost predicate Covers(defs: seq<Definition>, before: map<int, Validator>, x: Option<int>) {
    && Unique(defs) && (forall k :: k in before ==> Mentioned(defs, |defs|, k))
    && forall i :: 0 <= i < |defs| && defs[i].key in before && x != Some(defs[i].key) ==>
      before[defs[i].key] == FromDefinition(defs[i])
  }

  lemma ConsistentCovers(defs: seq<Definition>, before: map<int, Validator>)
    requires Consistent(defs, before)
    ensures Covers(defs, before, None)
  {
    forall k | k in before ensures Mentioned(defs, |defs|, k) {
      assert Enabled(defs, k);
    }
  }

  lemma SettledIsConsistent(defs: seq<Definition>, before: map<int, Validator>, now: map<int, Validator>, boot: Boot,
                            x: Option<int>)
    requires Covers(defs, before, x) && SettledTo(defs, before, now, boot, |defs|)
    ensures ConsistentBut(defs, now, x)
    ensures AllRun(defs, now) <==> AllStart(defs, before, boot)
  {
    forall k | k in now ensures Enabled(defs, k) {
      assert Mentioned(defs, |defs|, k);
      var i :| 0 <= i < |defs| && defs[i].key == k;
      assert Settled(defs[i], before, now, boot);
    }
    forall i | 0 <= i < |defs| && defs[i].key in now && x != Some(defs[i].key)
      ensures now[defs[i].key] == FromDefinition(defs[i])
    {
      assert Settled(defs[i], before, now, boot);
    }
    forall i | 0 <= i < |defs| && defs[i].enabled
      ensures defs[i].key in now <==> defs[i].key in before || Starts(defs[i], boot)
    {
      assert Settled(defs[i], before, now, boot);
    }
  }

  /**
    After an update that succeeds, an enabled definition runs exactly if it ran before or starts now. So one that
    failed to start is tried again by every later update.
  */
  lemma UpdateKeepsConsistent(defs: seq<Definition>, before: map<int, Validator>, boot: Boot,
                              after: map<int, Validator>, x: Option<int>)
    requires Covers(defs, before, x) && OwnKeys(defs, before, boot) && Updates(defs, before, boot, Ok, |defs|, after)
    ensures ConsistentBut(defs, after, x) && SettledTo(defs, before, after, boot, |defs|)
    ensures AllRun(defs, after) <==> AllStart(defs, before, boot)
  {
    AfterSettles(defs, before, boot, |defs|);
    SettledIsConsistent(defs, before, after, boot, x);
  }

  // ------------------------------------------------------------------ one definition that does not start

  ghost predicate OthersRun(defs: seq<Definition>, validators: map<int, Validator>, i: int) {
    forall j :: 0 <= j < |defs| && j != i && defs[j].enabled ==> defs[j].key in validators
  }

  /** Definition i alone is enabled and not running, and does not start under its own key. */
  ghost predicate FailsAlone(defs: seq<Definition>, validators: map<int, Validator>, boot: Boot, i: int) {
    && 0 <= i < |defs| && defs[i].enabled && defs[i].key !in validators && OthersRun(defs, validators, i)
    && !Starts(defs[i], boot)
  }

  lemma NextFails(defs: seq<Definition>, now: map<int, Validator>, boot: Boot, i: nat, j: int)
    requires i < |defs| && Unique(defs) && FailsAlone(defs, now, boot, j) && !StopsAt(defs[i], now, boot)
    ensures FailsAlone(defs, Next(defs[i], now, boot), boot, j)
  {
  }

  /** It is missing after the update, under whatever other key it may have started. */
  lemma {:induction false} AfterFails(defs: seq<Definition>, before: map<int, Validator>, boot: Boot, n: nat, j: int)
    requires n <= |defs| && Unique(defs) && NoStop(defs, before, boot, n) && FailsAlone(defs, before, boot, j)
    ensures FailsAlone(defs, After(defs, before, boot, n), boot, j)
  {
    if n > 0 {
      AfterFails(defs, before, boot, n - 1, j);
      NextFails(defs, After(defs, before, boot, n - 1), boot, n - 1, j);
    }
  }

  /** An enabled distributed keystore fails to start: the update succeeds, and the validator is missing. */
  lemma FailedStartIsPassedOver() returns (defs: seq<Definition>, boot: Boot)
    ensures Consistent(defs, map[]) && Enabled(defs, 1)
    ensures Updates(defs, map[], boot, Ok, |defs|, map[]) && !Synced(defs, map[])
  {
    var d := Definition(1, true, DistributedKeystore, None, None, None);
    defs, boot := [d], Boot(true, (x: Definition) => true, (x: Definition) => Failed);
    assert defs[0] == d && After(defs, map[], boot, 0) == map[] && !StopsAt(d, map[], boot);
    assert After(defs, map[], boot, 1) == map[] && NoStop(defs, map[], boot, 0);
  }

  // ------------------------------------------------------------------ changing definitions

  /** The first definition with key k, or the number of definitions. */
  function Locate(defs: seq<Definition>, k: int): (i: nat)
    ensures i <= |defs| && (i < |defs| ==> defs[i].key == k)
    ensures forall j :: 0 <= j < i ==> defs[j].key != k
  {
    if |defs| == 0 || defs[0].key == k then 0 else 1 + Locate(defs[1..], k)
  }

  /** The first definition with key k becomes d, if there is one. */
  function Put(defs: seq<Definition>, k: int, d: Definition): (r: seq<Definition>) {
    var i := Locate(defs, k);
    if i == |defs| then defs else defs[i := d]
  }

  function First(defs: seq<Definition>, k: int): (d: Definition) {
    var i := Locate(defs, k);
    if i == |defs| then Definition(k, false, LocalKeystore, None, None, None) else defs[i]
  }

  function WithFields(d: Definition, enabled: Option<bool>, gas: Option<int>, builder: Option<bool>): (r: Definition) {
    d.(enabled := if enabled.Some? then enabled.value else d.enabled,
       gas := if gas.Some? then gas else d.gas,
       builder := if builder.Some? then builder else d.builder)
  }

  function Given(v: Validator, gas: Option<int>, builder: Option<bool>): (r: Validator) {
    v.(gas := if gas.Some? then gas else v.gas, builder := if builder.Some? then builder else v.builder)
  }

  /** The validator k, if it runs, gets the given fields. */
  function Assign(validators: map<int, Validator>, k: int, gas: Option<int>,
                  builder: Option<bool>): (r: map<int, Validator>)
  {
    if k in validators then validators[k := Given(validators[k], gas, builder)] else validators
  }

  datatype Drop = WithKey(k: int) | DisabledWithKey(k: int)

  predicate Drops(c: Drop, d: Definition) {
    d.key == c.k && (c.WithKey? || !d.enabled)
  }

  /** The definitions that are not dropped, in order. */
  function Retain(defs: seq<Definition>, c: Drop): (r: seq<Definition>)
    ensures forall d :: d in r <==> d in defs && !Drops(c, d)
  {
    if |defs| == 0 then []
    else
      assert defs == [defs[0]] + defs[1..];
      (if Drops(c, defs[0]) then [] else [defs[0]]) + Retain(defs[1..], c)
  }

  /** The definitions that are not dropped from what follows the first one. */
  lemma RetainFirst(defs: seq<Definition>, d: Definition, rest: seq<Definition>, c: Drop)
    requires defs == [d] + rest
    ensures Retain(defs, c) == (if Drops(c, d) then [] else [d]) + Retain(rest, c)
  {
    assert defs[0] == d && defs[1..] == rest;
  }

  /** What is kept stays in order, part by part. */
  lemma {:induction false} RetainInOrder(a: seq<Definition>, b: seq<Definition>, c: Drop)
    ensures Retain(a + b, c) == Retain(a, c) + Retain(b, c)
  {
    if |a| == 0 {
      assert a + b == b && Retain(a, c) == [];
    } else {
      var d, rest := a[0], a[1..];
      assert a == [d] + rest && a + b == [d] + (rest + b);
      RetainFirst(a, d, rest, c);
      RetainFirst(a + b, d, rest + b, c);
      RetainInOrder(rest, b, c);
      Regroup(if Drops(c, d) then [] else [d], Retain(rest, c), Retain(b, c));
    }
  }

  lemma Regroup(x: seq<Definition>, y: seq<Definition>, z: seq<Definition>)
    ensures x + (y + z) == (x + y) + z
  {
  }

  /** One definition goes if it has the key, and when only disabled ones are to go, if it is disabled as well. */
  lemma RetainOne(d: Definition, k: int)
    ensures Retain([d], WithKey(k)) == if d.key != k then [d] else []
    ensures Retain([d], DisabledWithKey(k)) == if d.key != k || d.enabled then [d] else []
  {
    RetainFirst([d], d, [], WithKey(k));
    RetainFirst([d], d, [], DisabledWithKey(k));
  }

  lemma {:induction false} RetainUnique(defs: seq<Definition>, c: Drop)
    requires Unique(defs)
    ensures Unique(Retain(defs, c))
  {
    if |defs| > 0 {
      RetainUnique(defs[1..], c);
      var rest := Retain(defs[1..], c);
      forall j | 0 <= j < |rest| ensures rest[j].key != defs[0].key {
        assert rest[j] in defs[1..];
      }
    }
  }

  /** Disabling a definition before it is dropped makes no difference to the others. */
  lemma {:induction false} RetainSame(a: seq<Definition>, b: seq<Definition>, c: Drop)
    requires |a| == |b| && forall i :: 0 <= i < |a| ==> a[i] == b[i] || (Drops(c, a[i]) && Drops(c, b[i]))
    ensures Retain(a, c) == Retain(b, c)
  {
    if |a| > 0 {
      RetainSame(a[1..], b[1..], c);
    }
  }

  lemma EnabledSet(defs: seq<Definition>, i: nat, d: Definition, k: int)
    requires Unique(defs) && i < |defs| && d.key == defs[i].key
    ensures Enabled(defs[i := d], k) <==> if k == d.key then d.enabled else Enabled(defs, k)
  {
    var defs' := defs[i := d];
    if k == d.key {
      assert defs'[i] == d;
    } else if Enabled(defs, k) {
      var j :| 0 <= j < |defs| && defs[j].key == k && defs[j].enabled;
      assert defs'[j] == defs[j];
    }
  }

  lemma DisableKeeps(defs: seq<Definition>, validators: map<int, Validator>, i: nat)
    requires Consistent(defs, validators) && i < |defs|
    ensures var defs', rest := defs[i := defs[i].(enabled := false)], validators - {defs[i].key};
      Consistent(defs', rest) && (AllRun(defs, validators) ==> AllRun(defs', rest))
  {
    var d := defs[i].(enabled := false);
    forall k | k in validators && k != d.key ensures Enabled(defs[i := d], k) {
      EnabledSet(defs, i, d, k);
    }
  }

  lemma RetainKeeps(defs: seq<Definition>, validators: map<int, Validator>, c: Drop)
    requires Consistent(defs, validators) && forall i :: 0 <= i < |defs| && Drops(c, defs[i]) ==> !defs[i].enabled
    ensures Consistent(Retain(defs, c), validators) &&
      (AllRun(defs, validators) ==> AllRun(Retain(defs, c), validators))
  {
    var rest := Retain(defs, c);
    RetainUnique(defs, c);
    forall k | k in validators ensures Enabled(rest, k) {
      var i :| 0 <= i < |defs| && defs[i].key == k && defs[i].enabled;
      assert defs[i] in rest;
    }
    forall j | 0 <= j < |rest| ensures exists i :: 0 <= i < |defs| && defs[i] == rest[j] {
      assert rest[j] in defs;
    }
  }

  /** d changes fields only, and the validator, if it runs, changes with it. */
  lemma FieldKeeps(defs: seq<Definition>, validators: map<int, Validator>, i: nat, d: Definition)
    requires Consistent(defs, validators) && i < |defs| && d.key == defs[i].key && d.enabled == defs[i].enabled
    ensures var vs := if d.key in validators then validators[d.key := FromDefinition(d)] else validators;
      Consistent(defs[i := d], vs) && (AllRun(defs, validators) ==> AllRun(defs[i := d], vs))
  {
    forall k | k in validators ensures Enabled(defs[i := d], k) {
      EnabledSet(defs, i, d, k);
      EnabledSet(defs, i, defs[i], k);
      assert defs[i := defs[i]] == defs;
    }
  }

  lemma NotNamed(defs: seq<Definition>, validators: map<int, Validator>, k: int)
    requires Consistent(defs, validators) && Locate(defs, k) == |defs|
    ensures k !in validators
  {
  }

  // ------------------------------------------------------------------ adding and setting

  lemma AddCovers(defs: seq<Definition>, before: map<int, Validator>, d: Definition)
    requires Consistent(defs, before) && Locate(defs, d.key) == |defs|
    ensures Covers(defs + [d], before, None) && d.key !in before
  {
    var more := defs + [d];
    NotNamed(defs, before, d.key);
    forall k | k in before ensures Mentioned(more, |more|, k) {
      var i :| 0 <= i < |defs| && defs[i].key == k && defs[i].enabled;
      assert more[i].key == k;
    }
  }

  lemma AddedAlone(defs: seq<Definition>, validators: map<int, Validator>, d: Definition, boot: Boot)
    requires Synced(defs, validators) && d.key !in validators
    ensures var more := defs + [d];
      if d.enabled ==> Starts(d, boot) then AllStart(more, validators, boot) && OwnKeys(more, validators, boot)
      else FailsAlone(more, validators, boot, |defs|)
  {
    var more := defs + [d];
    assert more[|defs|] == d && forall i :: 0 <= i < |defs| ==> more[i] == defs[i];
  }

  lemma SetCovers(defs: seq<Definition>, before: map<int, Validator>, i: nat, d: Definition)
    requires Consistent(defs, before) && i < |defs| && d.key == defs[i].key
    ensures Covers(defs[i := d], before, Some(d.key))
  {
    var defs' := defs[i := d];
    forall k | k in before ensures Mentioned(defs', |defs'|, k) {
      var j :| 0 <= j < |defs| && defs[j].key == k && defs[j].enabled;
      assert defs'[j].key == k;
    }
  }

  lemma SetAlone(defs: seq<Definition>, validators: map<int, Validator>, i: nat, d: Definition, boot: Boot)
    requires Synced(defs, validators) && i < |defs| && d.key == defs[i].key
    ensures var defs' := defs[i := d];
      if d.enabled && d.key !in validators ==> Starts(d, boot)
      then AllStart(defs', validators, boot) && OwnKeys(defs', validators, boot)
      else FailsAlone(defs', validators, boot, i)
  {
    var defs' := defs[i := d];
    assert defs'[i] == d && forall j :: 0 <= j < |defs| && j != i ==> defs'[j] == defs[j];
  }

  /** The given fields, set after the update, bring the validator in line with its definition. */
  lemma SetFieldsInLine(defs: seq<Definition>, before: map<int, Validator>, i: nat, enabled: Option<bool>,
                        gas: Option<int>, builder: Option<bool>,
                        boot: Boot, now: map<int, Validator>)
    requires Consistent(defs, before) && i < |defs|
    requires var d := WithFields(defs[i], enabled, gas, builder); var defs' := defs[i := d];
      ConsistentBut(defs', now, Some(d.key)) && SettledTo(defs', before, now, boot, |defs'|)
    ensures var d := WithFields(defs[i], enabled, gas, builder);
      Consistent(defs[i := d], Assign(now, d.key, gas, builder))
  {
    var d := WithFields(defs[i], enabled, gas, builder);
    var defs' := defs[i := d];
    assert Settled(defs'[i], before, now, boot);
  }

  /** Definition i is given these fields; everything else stays. */
  ghost predicate GivenTo(was: seq<Definition>, now: seq<Definition>, i: nat, enabled: Option<bool>, gas: Option<int>,
                          builder: Option<bool>)
  {
    && i < |was| == |now| && (forall j :: 0 <= j < |was| && j != i ==> now[j] == was[j])
    && now[i].key == was[i].key && now[i].kind == was[i].kind && now[i].fee == was[i].fee
    && (enabled == None ==> now[i].enabled == was[i].enabled) && (enabled.Some? ==> now[i].enabled == enabled.value)
    && now[i].gas == (if gas.Some? then gas else was[i].gas)
    && now[i].builder == (if builder.Some? then builder else was[i].builder)
  }

  /** What setting fields does to the validator k itself, if the update succeeds. */
  ghost predicate SetValidator(d: Definition, before: map<int, Validator>, after: map<int, Validator>, boot: Boot,
                               gas: Option<int>, builder: Option<bool>)
  {
    && (d.key in after <==> d.enabled && (d.key in before || Starts(d, boot)))
    && (d.key in after && gas.Some? ==> after[d.key].gas == gas)
    && (d.key in after && builder.Some? ==> after[d.key].builder == builder)
    && (d.key in after && d.key in before ==> after[d.key].fee == before[d.key].fee)
    && (d.key in after && d.key in before && gas == None ==> after[d.key].gas == before[d.key].gas)
    && (d.key in after && d.key in before && builder == None ==> after[d.key].builder == before[d.key].builder)
  }

  lemma GivenEnabled(was: seq<Definition>, now: seq<Definition>, i: nat, enabled: Option<bool>, gas: Option<int>,
                     builder: Option<bool>)
    requires Unique(was) && GivenTo(was, now, i, enabled, gas, builder)
    ensures Enabled(now, now[i].key) <==> if enabled.Some? then enabled.value else Enabled(was, was[i].key)
  {
  }

  /** What setting fields means for k: whether it is enabled and runs, and with which fields. */
  ghost predicate SetsValidator(defs: seq<Definition>, before: map<int, Validator>, k: int, enabled: Option<bool>,
                                gas: Option<int>, builder: Option<bool>, boot: Boot, r: Result,
                                defs': seq<Definition>, after: map<int, Validator>)
  {
    var i := Locate(defs, k);
    i < |defs| && Unique(defs) ==>
      && (Enabled(defs', k) <==> if enabled.Some? then enabled.value else Enabled(defs, k))
      && (r == Ok && i < |defs'| && OwnKeys(defs', before, boot) ==>
        SetValidator(defs'[i], before, after, boot, gas, builder))
  }

  lemma SetOutcome(defs: seq<Definition>, before: map<int, Validator>, k: int, enabled: Option<bool>,
                   gas: Option<int>, builder: Option<bool>, boot: Boot, r: Result, n: int,
                   defs': seq<Definition>, now: map<int, Validator>)
    requires var i := Locate(defs, k); i < |defs| ==> GivenTo(defs, defs', i, enabled, gas, builder)
    requires Updates(defs', before, boot, r, n, now)
    ensures SetsValidator(defs, before, k, enabled, gas, builder, boot, r, defs',
                          if r == Ok then Assign(now, k, gas, builder) else now)
  {
    var i := Locate(defs, k);
    if i < |defs| && Unique(defs) {
      GivenEnabled(defs, defs', i, enabled, gas, builder);
      if r == Ok && OwnKeys(defs', before, boot) {
        AfterSettles(defs', before, boot, |defs'|);
        assert Settled(defs'[i], before, now, boot);
      }
    }
  }

  /** What it means for agreement. */
  ghost predicate SetsInLine(defs: seq<Definition>, before: map<int, Validator>, k: int, boot: Boot, r: Result,
                             defs': seq<Definition>, after: map<int, Validator>)
  {
    && (Unique(defs) ==> Unique(defs'))
    && (Unique(defs) && OwnKeys(defs', before, boot) ==> EndsAs(defs', before, boot, r))
    && (Consistent(defs, before) && r == Ok && OwnKeys(defs', before, boot) ==>
      Consistent(defs', after) && (Synced(defs', after) <==> AllStart(defs', before, boot)))
    && (Synced(defs, before) && r == Ok ==> (Synced(defs', after) <==> StartsIfNew(defs', before, boot, k)))
  }

  /** If k is enabled and was not running, it starts under its own key. */
  ghost predicate StartsIfNew(defs: seq<Definition>, before: map<int, Validator>, boot: Boot, k: int) {
    forall i :: 0 <= i < |defs| && defs[i].key == k && defs[i].enabled && k !in before ==> Starts(defs[i], boot)
  }

  /** Whatever is started fails or answers to the key of its definition. */
  ghost predicate NamesOwnKeys(boot: Boot) {
    forall d :: boot.start(d) == Failed || boot.start(d) == Started(d.key)
  }

  ghost predicate AlwaysBoots(boot: Boot) {
    forall d :: boot.start(d) == Started(d.key)
  }

  ghost predicate AllOwnKeys(boot: seq<Boot>) {
    forall i :: 0 <= i < |boot| ==> NamesOwnKeys(boot[i])
  }

  ghost predicate AllBoot(boot: seq<Boot>) {
    forall i :: 0 <= i < |boot| ==> AlwaysBoots(boot[i])
  }

  ghost predicate NoneFailed(results: seq<Result>) {
    forall i :: 0 <= i < |results| ==> !UpdateFailed(results[i])
  }

  lemma ReplaceEnabled(defs: seq<Definition>, k: int)
    ensures var rest := Retain(defs, DisabledWithKey(k)); Locate(rest, k) < |rest| <==> Enabled(defs, k)
  {
    var rest := Retain(defs, DisabledWithKey(k));
    var j := Locate(rest, k);
    if j < |rest| {
      assert rest[j] in rest;
    }
    if Enabled(defs, k) {
      var i :| 0 <= i < |defs| && defs[i].key == k && defs[i].enabled;
      assert defs[i] in rest;
    }
  }

  lemma UpdateConsequences(defs: seq<Definition>, before: map<int, Validator>, boot: Boot, r: Result, k: int,
                           after: map<int, Validator>)
    requires Updates(defs, before, boot, r, k, after)
    ensures Unique(defs) && OwnKeys(defs, before, boot) ==> EndsAs(defs, before, boot, r)
    ensures Consistent(defs, before) && OwnKeys(defs, before, boot) && r == Ok ==>
      Consistent(defs, after) && (Synced(defs, after) <==> AllStart(defs, before, boot))
  {
    if Unique(defs) && OwnKeys(defs, before, boot) {
      UpdateFailsIff(defs, before, boot, r, k, after);
      if Consistent(defs, before) && r == Ok {
        ConsistentCovers(defs, before);
        UpdateKeepsConsistent(defs, before, boot, after, None);
      }
    }
  }

  lemma AddConsequences(defs: seq<Definition>, before: map<int, Validator>, d: Definition, boot: Boot, r: Result,
                        k: int, after: map<int, Validator>)
    requires Locate(defs, d.key) == |defs| && Updates(defs + [d], before, boot, r, k, after)
    ensures Unique(defs) ==> Unique(defs + [d])
    ensures Consistent(defs, before) && r == Ok && OwnKeys(defs + [d], before, boot) ==>
      Consistent(defs + [d], after) && (Synced(defs + [d], after) <==> AllStart(defs + [d], before, boot))
    ensures Synced(defs, before) && r == Ok ==> (Synced(defs + [d], after) <==> (d.enabled ==> Starts(d, boot)))
  {
    if Consistent(defs, before) && r == Ok {
      AddCovers(defs, before, d);
      if AllRun(defs, before) {
        AddedAlone(defs, before, d, boot);
      }
      if OwnKeys(defs + [d], before, boot) {
        UpdateKeepsConsistent(defs + [d], before, boot, after, None);
      } else if AllRun(defs, before) {
        AfterFails(defs + [d], before, boot, |defs| + 1, |defs|);
      }
      if AllRun(defs, before) && !(d.enabled ==> Starts(d, boot)) {
        AfterFails(defs + [d], before, boot, |defs| + 1, |defs|);
      }
    }
  }

  lemma SetConsequences(defs: seq<Definition>, before: map<int, Validator>, k: int, enabled: Option<bool>,
                        gas: Option<int>, builder: Option<bool>,
                        boot: Boot, defs': seq<Definition>, r: Result, n: int, now: map<int, Validator>)
    requires defs' == Put(defs, k, WithFields(First(defs, k), enabled, gas, builder)) &&
      Updates(defs', before, boot, r, n, now)
    ensures Unique(defs) ==> Unique(defs')
    ensures Consistent(defs, before) && r == Ok && OwnKeys(defs', before, boot) ==>
      && Consistent(defs', Assign(now, k, gas, builder))
      && (Synced(defs', Assign(now, k, gas, builder)) <==> AllStart(defs', before, boot))
    ensures Synced(defs, before) && r == Ok ==>
      (Synced(defs', Assign(now, k, gas, builder)) <==> StartsIfNew(defs', before, boot, k))
  {
    var i := Locate(defs, k);
    if Consistent(defs, before) && r == Ok {
      if i == |defs| {
        UnnamedSet(defs, before, k, gas, builder, boot, now);
      } else {
        NamedSet(defs, before, i, enabled, gas, builder, boot, now);
      }
    }
  }

  lemma UnnamedSet(defs: seq<Definition>, before: map<int, Validator>, k: int, gas: Option<int>, builder: Option<bool>,
                   boot: Boot, now: map<int, Validator>)
    requires Consistent(defs, before) && Locate(defs, k) == |defs| && Updates(defs, before, boot, Ok, |defs|, now)
    ensures OwnKeys(defs, before, boot) ==> Consistent(defs, Assign(now, k, gas, builder))
    ensures OwnKeys(defs, before, boot) ==>
      (AllRun(defs, Assign(now, k, gas, builder)) <==> AllStart(defs, before, boot))
    ensures AllRun(defs, before) ==>
      OwnKeys(defs, before, boot) && AllStart(defs, before, boot) && StartsIfNew(defs, before, boot, k)
  {
    if OwnKeys(defs, before, boot) {
      ConsistentCovers(defs, before);
      UpdateKeepsConsistent(defs, before, boot, now, None);
      NotNamed(defs, now, k);
    }
  }

  lemma NamedSet(defs: seq<Definition>, before: map<int, Validator>, i: nat, enabled: Option<bool>, gas: Option<int>,
                 builder: Option<bool>,
                 boot: Boot, now: map<int, Validator>)
    requires Consistent(defs, before) && i < |defs|
    requires var defs' := defs[i := WithFields(defs[i], enabled, gas, builder)];
      Updates(defs', before, boot, Ok, |defs'|, now)
    ensures var defs' := defs[i := WithFields(defs[i], enabled, gas, builder)];
      var after := Assign(now, defs[i].key, gas, builder);
      && (OwnKeys(defs', before, boot) ==> Consistent(defs', after))
      && (OwnKeys(defs', before, boot) ==> (AllRun(defs', after) <==> AllStart(defs', before, boot)))
      && (AllRun(defs, before) ==> (Synced(defs', after) <==> StartsIfNew(defs', before, boot, defs[i].key)))
  {
    var d := WithFields(defs[i], enabled, gas, builder);
    var defs' := defs[i := d];
    SetCovers(defs, before, i, d);
    if AllRun(defs, before) {
      SetAlone(defs, before, i, d, boot);
      StartsIfNewOnly(defs, i, d, before, boot);
    }
    if OwnKeys(defs', before, boot) {
      UpdateKeepsConsistent(defs', before, boot, now, Some(d.key));
      SetFieldsInLine(defs, before, i, enabled, gas, builder, boot, now);
    }
    if AllRun(defs, before) && !StartsIfNew(defs', before, boot, d.key) {
      AfterFails(defs', before, boot, |defs'|, i);
      assert defs'[i] == d;
    }
  }

  lemma StartsIfNewOnly(defs: seq<Definition>, i: nat, d: Definition, before: map<int, Validator>, boot: Boot)
    requires Unique(defs) && i < |defs| && d.key == defs[i].key
    ensures StartsIfNew(defs[i := d], before, boot, d.key) <==> (d.enabled && d.key !in before ==> Starts(d, boot))
  {
    assert defs[i := d][i] == d;
  }

  // ------------------------------------------------------------------ the operations

  datatype Op =
    | Add(d: Definition)
    | Replace(d: Definition)
    | Delete(k: int)
    | Disable(k: int)
    | Set(k: int, enabled: Option<bool>, newGas: Option<int>, builder: Option<bool>)
    | SetFee(k: int, fee: Option<int>)
    | SetGas(k: int, gas: Option<int>)

  datatype Stage = Stage(definitions: seq<Definition>, validators: map<int, Validator>)

  ghost predicate UpdatesTo(s: Stage, s': Stage, boot: Boot, r: Result) {
    exists k :: Updates(s'.definitions, s.validators, boot, r, k, s'.validators)
  }

  /** Setting fields: the update comes to `now`, and if it succeeds the validator gets the given fields. */
  ghost predicate SetsTo(s: Stage, s': Stage, k: int, gas: Option<int>, builder: Option<bool>, boot: Boot, r: Result) {
    exists n, now :: Updates(s'.definitions, s.validators, boot, r, n, now)
      && s'.validators == if r == Ok then Assign(now, k, gas, builder) else now
  }

  /** What can be disabled or deleted: known keys that are not of remote signers. */
  predicate Removes(defs: seq<Definition>, k: int, r: Result) {
    var i := Locate(defs, k);
    r == if i == |defs| then NotFound else if defs[i].kind == Web3Signer then InvalidActionOnRemoteValidator else Ok
  }

  /** What each operation does, and what it returns. */
  ghost predicate Effect(op: Op, boot: Boot, s: Stage, r: Result, s': Stage) {
    match op
    case Add(d) =>
      if Locate(s.definitions, d.key) < |s.definitions| then r == DuplicatePublicKey && s' == s
      else s'.definitions == s.definitions + [d] && UpdatesTo(s, s', boot, r)
    case Replace(d) =>
      var rest := Retain(s.definitions, DisabledWithKey(d.key));
      if Enabled(s.definitions, d.key) then r == DuplicatePublicKey && s' == s.(definitions := rest)
      else s'.definitions == rest + [d] && UpdatesTo(s, s', boot, r)
    case Delete(k) =>
      && Removes(s.definitions, k, r)
      && s' == if r == Ok then Stage(Retain(s.definitions, WithKey(k)), s.validators - {k}) else s
    case Disable(k) =>
      && Removes(s.definitions, k, r)
      && (r != Ok ==> s' == s)
      && (r == Ok ==> s'.definitions == Put(s.definitions, k, First(s.definitions, k).(enabled := false)))
      && (r == Ok ==> s'.validators == s.validators - {k})
    case Set(k, enabled, gas, builder) =>
      var i := Locate(s.definitions, k);
      && (if i == |s.definitions| then s'.definitions == s.definitions
          else GivenTo(s.definitions, s'.definitions, i, enabled, gas, builder))
      && SetsTo(s, s', k, gas, builder, boot, r)
    case SetFee(k, fee) =>
      && r == Ok && s'.definitions == Put(s.definitions, k, First(s.definitions, k).(fee := fee))
      && s'.validators == if k in s.validators then s.validators[k := s.validators[k].(fee := fee)] else s.validators
    case SetGas(k, gas) =>
      && r == Ok && s'.definitions == Put(s.definitions, k, First(s.definitions, k).(gas := gas))
      && s'.validators == if k in s.validators then s.validators[k := s.validators[k].(gas := gas)] else s.validators
  }

  /** The operations were carried out one after the other. */
  ghost predicate Trace(ops: seq<Op>, boot: seq<Boot>, stages: seq<Stage>, results: seq<Result>) {
    && |results| <= |ops| == |boot| && |stages| == |results| + 1
    && forall i :: 0 <= i < |results| ==> Effect(ops[i], boot[i], stages[i], results[i], stages[i + 1])
  }

  lemma TraceOn(ops: seq<Op>, boot: seq<Boot>, stages: seq<Stage>, results: seq<Result>, r: Result, s: Stage)
    requires Trace(ops, boot, stages, results) && |results| < |ops|
    requires Effect(ops[|results|], boot[|results|], stages[|results|], r, s)
    ensures Trace(ops, boot, stages + [s], results + [r])
  {
    var more, all := stages + [s], results + [r];
    forall i | 0 <= i < |all| ensures Effect(ops[i], boot[i], more[i], all[i], more[i + 1]) {
      if i < |results| {
        assert more[i] == stages[i] && more[i + 1] == stages[i + 1] && all[i] == results[i];
      }
    }
  }

  class Initialized {
    var definitions: seq<Definition>
    var validators: map<int, Validator>

    constructor (definitions: seq<Definition>)
      ensures this.definitions == definitions && validators == map[]
    {
      this.definitions := definitions;
      validators := map[];
    }

    /** One round of the update: a validator goes, stays or comes. */
    method UpdateOne(d: Definition, boot: Boot) returns (stop: bool)
      modifies `validators
      ensures stop <==> StopsAt(d, old(validators), boot)
      ensures validators == if stop then old(validators) else Next(d, old(validators), boot)
    {
      stop := false;
      if d.enabled {
        if d.kind == Web3Signer || d.key !in validators {
          var start := Initialize(d, boot);
          if start == Failed {
            stop := d.kind != DistributedKeystore;
          } else {
            validators := validators[start.key := FromDefinition(d)];
          }
        }
      } else {
        validators := validators - {d.key};
      }
    }

    /** The part of the update before the loop: the lock, the cache, and the keystores the cache may stand for. */
    method OpenKeystores(boot: Boot) returns (open: bool)
      ensures open <==> Begins(definitions, boot)
    {
      if !boot.ready {
        return false;
      }
      for i := 0 to |definitions|
        invariant forall j :: 0 <= j < i ==> Opens(definitions[j], boot)
      {
        if !Opens(definitions[i], boot) {
          return false;
        }
      }
      return true;
    }

    /**
      Stops at a definition of a local keystore or a remote signer that cannot be started. A distributed
      keystore that cannot be started is passed over.
    */
    method UpdateValidators(boot: Boot) returns (r: Result, ghost k: nat)
      modifies `validators
      ensures Updates(definitions, old(validators), boot, r, k, validators)
      ensures Unique(definitions) && OwnKeys(definitions, old(validators), boot) ==>
        EndsAs(definitions, old(validators), boot, r)
      ensures Consistent(definitions, old(validators)) && OwnKeys(definitions, old(validators), boot) && r == Ok ==>
        Consistent(definitions, validators) &&
          (Synced(definitions, validators) <==> AllStart(definitions, old(validators), boot))
    {
      ghost var before := validators;
      var open := OpenKeystores(boot);
      if !open {
        UpdateConsequences(definitions, before, boot, UnableToOpen, 0, validators);
        return UnableToOpen, 0;
      }
      var i := 0;
      while i < |definitions|
        invariant 0 <= i <= |definitions| && NoStop(definitions, before, boot, i)
        invariant validators == After(definitions, before, boot, i)
      {
        var stop := UpdateOne(definitions[i], boot);
        if stop {
          UpdateConsequences(definitions, before, boot, UnableToInitialize, i, validators);
          return UnableToInitialize, i;
        }
        i := i + 1;
      }
      UpdateConsequences(definitions, before, boot, Ok, i, validators);
      return Ok, i;
    }

    /** The file may hold any definitions. */
    static method FromDefinitions(definitions: seq<Definition>, boot: Boot)
      returns (r: Result, o: Initialized, ghost k: nat)
      ensures fresh(o) && o.definitions == definitions && Updates(definitions, map[], boot, r, k, o.validators)
      ensures Unique(definitions) && OwnKeys(definitions, map[], boot) ==>
        && EndsAs(definitions, map[], boot, r)
        && (r == Ok ==> Consistent(definitions, o.validators))
        && (r == Ok ==> (Synced(definitions, o.validators) <==> AllStart(definitions, map[], boot)))
    {
      o := new Initialized(definitions);
      assert Unique(definitions) ==> Consistent(definitions, map[]);
      r, k := o.UpdateValidators(boot);
    }

    method AddDefinition(d: Definition, boot: Boot) returns (r: Result, ghost k: nat)
      modifies this
      ensures r == DuplicatePublicKey <==> Locate(old(definitions), d.key) < |old(definitions)|
      ensures r == DuplicatePublicKey ==> definitions == old(definitions) && validators == old(validators)
      ensures r != DuplicatePublicKey ==>
        definitions == old(definitions) + [d] && Updates(definitions, old(validators), boot, r, k, validators)
      ensures Unique(old(definitions)) ==> Unique(definitions)
      ensures Unique(old(definitions)) && r != DuplicatePublicKey && OwnKeys(definitions, old(validators), boot) ==>
        EndsAs(definitions, old(validators), boot, r)
      ensures (Consistent(old(definitions), old(validators)) && r == Ok &&
        OwnKeys(definitions, old(validators), boot)) ==>
        Consistent(definitions, validators) &&
          (Synced(definitions, validators) <==> AllStart(definitions, old(validators), boot))
      ensures Synced(old(definitions), old(validators)) && r == Ok ==>
        (Synced(definitions, validators) <==> (d.enabled ==> Starts(d, boot)))
    {
      k := 0;
      if Locate(definitions, d.key) < |definitions| {
        return DuplicatePublicKey, 0;
      }
      ghost var defs, before := definitions, validators;
      definitions := definitions + [d];
      r, k := UpdateValidators(boot);
      AddConsequences(defs, before, d, boot, r, k, validators);
    }

    method AddReplacingDisabled(d: Definition, boot: Boot) returns (r: Result, ghost k: nat)
      modifies this
      ensures r == DuplicatePublicKey <==> Enabled(old(definitions), d.key)
      ensures var rest := Retain(old(definitions), DisabledWithKey(d.key));
        && (r == DuplicatePublicKey ==> definitions == rest && validators == old(validators))
        && (r != DuplicatePublicKey ==> definitions == rest + [d])
        && (r != DuplicatePublicKey ==> Updates(definitions, old(validators), boot, r, k, validators))
      ensures Unique(old(definitions)) ==> Unique(definitions)
      ensures Unique(old(definitions)) && r != DuplicatePublicKey && OwnKeys(definitions, old(validators), boot) ==>
        EndsAs(definitions, old(validators), boot, r)
      ensures (Consistent(old(definitions), old(validators)) &&
        (r == DuplicatePublicKey || (r == Ok && OwnKeys(definitions, old(validators), boot)))) ==>
        Consistent(definitions, validators)
      ensures Synced(old(definitions), old(validators)) && r == Ok ==>
        (Synced(definitions, validators) <==> (d.enabled ==> Starts(d, boot)))
      ensures Synced(old(definitions), old(validators)) && r == DuplicatePublicKey ==> Synced(definitions, validators)
    {
      ReplaceEnabled(definitions, d.key);
      if Unique(definitions) {
        RetainUnique(definitions, DisabledWithKey(d.key));
      }
      if Consistent(definitions, validators) {
        RetainKeeps(definitions, validators, DisabledWithKey(d.key));
      }
      definitions := Retain(definitions, DisabledWithKey(d.key));
      r, k := AddDefinition(d, boot);
    }

    /** The validator is gone from the map; the definition stays, disabled. */
    method DisableKeystore(k: int) returns (r: Result)
      modifies this
      ensures r == NotFound <==> Locate(old(definitions), k) == |old(definitions)|
      ensures r == InvalidActionOnRemoteValidator <==> r != NotFound && First(old(definitions), k).kind == Web3Signer
      ensures r == NotFound || r == InvalidActionOnRemoteValidator || r == Ok
      ensures r == Ok ==>
        definitions == Put(old(definitions), k, First(old(definitions), k).(enabled := false)) &&
          validators == old(validators) - {k}
      ensures r != Ok ==> definitions == old(definitions) && validators == old(validators)
      ensures Consistent(old(definitions), old(validators)) ==> Consistent(definitions, validators)
      ensures Synced(old(definitions), old(validators)) ==> Synced(definitions, validators)
    {
      var i := Locate(definitions, k);
      if i == |definitions| {
        return NotFound;
      }
      if definitions[i].kind == Web3Signer {
        return InvalidActionOnRemoteValidator;
      }
      if Consistent(definitions, validators) {
        DisableKeeps(definitions, validators, i);
      }
      definitions := definitions[i := definitions[i].(enabled := false)];
      validators := validators - {k};
      return Ok;
    }

    method DeleteDefinition(k: int) returns (r: Result)
      modifies this
      ensures r == NotFound <==> Locate(old(definitions), k) == |old(definitions)|
      ensures r == InvalidActionOnRemoteValidator <==> r != NotFound && First(old(definitions), k).kind == Web3Signer
      ensures r == NotFound || r == InvalidActionOnRemoteValidator || r == Ok
      ensures r == Ok ==> definitions == Retain(old(definitions), WithKey(k)) && validators == old(validators) - {k}
      ensures r != Ok ==> definitions == old(definitions) && validators == old(validators)
      ensures Unique(old(definitions)) ==> Unique(definitions)
      ensures Consistent(old(definitions), old(validators)) ==> Consistent(definitions, validators)
      ensures Synced(old(definitions), old(validators)) ==> Synced(definitions, validators)
    {
      ghost var before := definitions;
      r := DisableKeystore(k);
      if r == Ok {
        RetainSame(before, definitions, WithKey(k));
        if Unique(before) {
          RetainUnique(before, WithKey(k));
        }
        if Consistent(definitions, validators) {
          RetainKeeps(definitions, validators, WithKey(k));
        }
        definitions := Retain(definitions, WithKey(k));
      }
    }

    /** The first part of `set_validator_definition_fields`: fields that are not given stay as they are. */
    method GiveFields(k: int, enabled: Option<bool>, gas: Option<int>, builder: Option<bool>)
      modifies `definitions
      ensures definitions == Put(old(definitions), k, WithFields(First(old(definitions), k), enabled, gas, builder))
      ensures var i := Locate(old(definitions), k);
        if i == |old(definitions)| then definitions == old(definitions)
        else GivenTo(old(definitions), definitions, i, enabled, gas, builder)
    {
      var i := Locate(definitions, k);
      if i < |definitions| {
        var d := definitions[i];
        if enabled.Some? {
          d := d.(enabled := enabled.value);
        }
        if gas.Some? {
          d := d.(gas := gas);
        }
        if builder.Some? {
          d := d.(builder := builder);
        }
        definitions := definitions[i := d];
      }
    }

    /** Its last part. */
    method GiveToValidator(k: int, gas: Option<int>, builder: Option<bool>)
      modifies `validators
      ensures validators == Assign(old(validators), k, gas, builder)
    {
      if k in validators {
        var v := validators[k];
        if gas.Some? {
          v := v.(gas := gas);
        }
        if builder.Some? {
          v := v.(builder := builder);
        }
        validators := validators[k := v];
      }
    }

    /** `set_validator_definition_fields` */
    method SetFields(k: int, enabled: Option<bool>, gas: Option<int>, builder: Option<bool>, boot: Boot)
      returns (r: Result, ghost n: nat, ghost now: map<int, Validator>)
      modifies this
      ensures var i := Locate(old(definitions), k);
        if i == |old(definitions)| then definitions == old(definitions)
        else GivenTo(old(definitions), definitions, i, enabled, gas, builder)
      ensures Updates(definitions, old(validators), boot, r, n, now)
      ensures validators == if r == Ok then Assign(now, k, gas, builder) else now
      ensures SetsValidator(old(definitions), old(validators), k, enabled, gas, builder, boot, r,
                            definitions, validators)
      ensures SetsInLine(old(definitions), old(validators), k, boot, r, definitions, validators)
    {
      ghost var defs, before := definitions, validators;
      GiveFields(k, enabled, gas, builder);
      r, n := UpdateValidators(boot);
      now := validators;
      SetConsequences(defs, before, k, enabled, gas, builder, boot, definitions, r, n, now);
      SetOutcome(defs, before, k, enabled, gas, builder, boot, r, n, definitions, now);
      if r != Ok {
        return;
      }
      GiveToValidator(k, gas, builder);
    }

    /** `set_validator_fee_recipient`, and with none `delete_validator_fee_recipient`. */
    method SetFeeRecipient(k: int, fee: Option<int>)
      modifies this
      ensures definitions == Put(old(definitions), k, First(old(definitions), k).(fee := fee))
      ensures validators == if k in old(validators) then old(validators)[k := old(validators)[k].(fee := fee)]
        else old(validators)
      ensures Consistent(old(definitions), old(validators)) ==> Consistent(definitions, validators)
      ensures Synced(old(definitions), old(validators)) ==> Synced(definitions, validators)
    {
      var i := Locate(definitions, k);
      if Consistent(definitions, validators) {
        if i < |definitions| {
          FieldKeeps(definitions, validators, i, definitions[i].(fee := fee));
        } else {
          NotNamed(definitions, validators, k);
        }
      }
      if i < |definitions| {
        definitions := definitions[i := definitions[i].(fee := fee)];
      }
      if k in validators {
        validators := validators[k := validators[k].(fee := fee)];
      }
    }

    /** `set_validator_gas_limit`, and with none `delete_validator_gas_limit`. */
    method SetGasLimit(k: int, gas: Option<int>)
      modifies this
      ensures definitions == Put(old(definitions), k, First(old(definitions), k).(gas := gas))
      ensures validators == if k in old(validators) then old(validators)[k := old(validators)[k].(gas := gas)]
        else old(validators)
      ensures Consistent(old(definitions), old(validators)) ==> Consistent(definitions, validators)
      ensures Synced(old(definitions), old(validators)) ==> Synced(definitions, validators)
    {
      var i := Locate(definitions, k);
      if Consistent(definitions, validators) {
        if i < |definitions| {
          FieldKeeps(definitions, validators, i, definitions[i].(gas := gas));
        } else {
          NotNamed(definitions, validators, k);
        }
      }
      if i < |definitions| {
        definitions := definitions[i := definitions[i].(gas := gas)];
      }
      if k in validators {
        validators := validators[k := validators[k].(gas := gas)];
      }
    }

    ghost function Now(): (s: Stage)
      reads this
    {
      Stage(definitions, validators)
    }

    /** The operations that start nothing. */
    method PerformSimple(op: Op, ghost boot: Boot) returns (r: Result)
      requires op.Delete? || op.Disable? || op.SetFee? || op.SetGas?
      modifies this
      ensures Effect(op, boot, old(Now()), r, Now()) && !UpdateFailed(r)
      ensures Unique(old(definitions)) ==> Unique(definitions)
      ensures Consistent(old(definitions), old(validators)) ==> Consistent(definitions, validators)
      ensures Synced(old(definitions), old(validators)) ==> Synced(definitions, validators)
    {
      match op
      case Delete(key) => r := DeleteDefinition(key);
      case Disable(key) => r := DisableKeystore(key);
      case SetFee(key, fee) => SetFeeRecipient(key, fee); r := Ok;
      case SetGas(key, gas) => SetGasLimit(key, gas); r := Ok;
    }

    method Perform(op: Op, boot: Boot) returns (r: Result)
      modifies this
      ensures Effect(op, boot, old(Now()), r, Now())
      ensures Unique(old(definitions)) ==> Unique(definitions)
      ensures Consistent(old(definitions), old(validators)) && NamesOwnKeys(boot) && !UpdateFailed(r) ==>
        Consistent(definitions, validators)
      ensures Synced(old(definitions), old(validators)) && AlwaysBoots(boot) && !UpdateFailed(r) ==>
        Synced(definitions, validators)
    {
      ghost var k, now := 0, map[];
      match op
      case Add(d) => r, k := AddDefinition(d, boot);
      case Replace(d) => r, k := AddReplacingDisabled(d, boot);
      case Set(key, enabled, gas, builder) => r, k, now := SetFields(key, enabled, gas, builder, boot);
      case _ => r := PerformSimple(op, boot);
    }

    /**
      Any sequence of operations, up to the first update that fails: validators stay in line with the definitions,
      whichever distributed keystores fail to start, and complete if none does.
    */
    method PerformAll(ops: seq<Op>, boot: seq<Boot>) returns (results: seq<Result>, ghost stages: seq<Stage>)
      requires |boot| == |ops|
      modifies this
      ensures Trace(ops, boot, stages, results) && stages[0] == old(Now()) && stages[|results|] == Now()
      ensures |results| < |ops| ==> |results| > 0 && UpdateFailed(results[|results| - 1])
      ensures Unique(old(definitions)) ==> Unique(definitions)
      ensures NoneFailed(results) && Consistent(old(definitions), old(validators)) && AllOwnKeys(boot) ==>
        Consistent(definitions, validators)
      ensures NoneFailed(results) && Synced(old(definitions), old(validators)) && AllBoot(boot) ==>
        Synced(definitions, validators)
    {
      results, stages := [], [Now()];
      for i := 0 to |ops|
        invariant |results| == i && Trace(ops, boot, stages, results)
        invariant stages[0] == old(Now()) && stages[i] == Now()
        invariant Unique(old(definitions)) ==> Unique(definitions)
        invariant NoneFailed(results)
        invariant Consistent(old(definitions), old(validators)) && AllOwnKeys(boot) ==>
          Consistent(definitions, validators)
        invariant Synced(old(definitions), old(validators)) && AllBoot(boot) ==> Synced(definitions, validators)
      {
        var r := Perform(ops[i], boot[i]);
        TraceOn(ops, boot, stages, results, r, Now());
        results, stages := results + [r], stages + [Now()];
        if UpdateFailed(r) {
          return;
        }
      }
    }
  }
}
