/**
  The cache of decrypted keys: keys that were decrypted once, stored in one file that is encrypted with the
  passwords of all the keystores they came from, one after the other.

  Encryption is symbolic: a sealed text opens with exactly the password it was sealed with.
*/
module KeyCache {
  import opened Collections

  type Password = seq<int>

  datatype Keypair = Keypair(sk: int, pk: int)

  datatype Crypto = Crypto(password: Password, text: map<int, int>)

  /** What is written to the file; pairs and passwords are not. */
  datatype File = File(crypto: Crypto, uuids: seq<int>)

  datatype CacheState = NotDecrypted | DecryptedAndSaved | DecryptedWithUnsavedUpdates

  datatype DecryptResult = Decrypted | AlreadyDecrypted | UnableToDecrypt | PublicKeyMismatch | MissingUuidKey
    | UnableToParseKeyPair

  function Join(passwords: seq<Password>): (p: Password) {
    if passwords == [] then [] else passwords[0] + Join(passwords[1..])
  }

  lemma {:induction false} JoinAppend(passwords: seq<Password>, p: Password)
    ensures Join(passwords + [p]) == Join(passwords) + p
  {
    if passwords == [] {
      assert [p][1..] == [];
    } else {
      assert (passwords + [p])[1..] == passwords[1..] + [p];
      JoinAppend(passwords[1..], p);
    }
  }

  ghost predicate Distinct(l: seq<int>) {
    forall i, j :: 0 <= i < j < |l| ==> l[i] != l[j]
  }

  function Elements(l: seq<int>): (s: set<int>) {
    set i | 0 <= i < |l| :: l[i]
  }

  /** The password that stands beside each uuid. */
  ghost function Beside(uuids: seq<int>, passwords: seq<Password>): (m: map<int, Password>)
    requires |uuids| == |passwords|
  {
    map u | u in Elements(uuids) && Find(uuids, u) < |uuids| :: passwords[Find(uuids, u)]
  }

  function Secrets(pairs: map<int, Keypair>): (m: map<int, int>) {
    map u | u in pairs :: pairs[u].sk
  }

  function PublicKeys(uuids: seq<int>, pairs: map<int, Keypair>): (pks: seq<int>)
    requires forall i :: 0 <= i < |uuids| ==> uuids[i] in pairs
  {
    seq(|uuids|, i requires 0 <= i < |uuids| => pairs[uuids[i]].pk)
  }

  function Without<T>(l: seq<T>, i: nat): (r: seq<T>)
    requires i < |l|
  {
    l[..i] + l[i + 1..]
  }

  // ------------------------------------------------------------------ lists without an entry

  lemma FindDistinct(l: seq<int>, i: nat)
    requires Distinct(l) && i < |l|
    ensures Find(l, l[i]) == i
  {
    assert Find(l, l[i]) <= i;
  }

  lemma ElementsWithout(l: seq<int>, i: nat)
    requires Distinct(l) && i < |l|
    ensures Distinct(Without(l, i)) && Elements(Without(l, i)) == Elements(l) - {l[i]}
  {
    var r := Without(l, i);
    assert forall j :: 0 <= j < |r| ==> r[j] == l[if j < i then j else j + 1];
    forall u | u in Elements(l) - {l[i]} ensures u in Elements(r) {
      var j :| 0 <= j < |l| && l[j] == u;
      assert r[if j < i then j else j - 1] == u;
    }
  }

  lemma BesideAt(uuids: seq<int>, passwords: seq<Password>, i: nat)
    requires Distinct(uuids) && |uuids| == |passwords| && i < |uuids|
    ensures uuids[i] in Beside(uuids, passwords) && Beside(uuids, passwords)[uuids[i]] == passwords[i]
  {
    FindDistinct(uuids, i);
    assert uuids[i] in Elements(uuids);
  }

  /** m pairs position by position. */
  ghost predicate PairsUp(m: map<int, Password>, uuids: seq<int>, passwords: seq<Password>)
    requires |uuids| == |passwords|
  {
    m.Keys == Elements(uuids) && forall i :: 0 <= i < |uuids| ==> uuids[i] in m && m[uuids[i]] == passwords[i]
  }

  lemma BesidePairsUp(uuids: seq<int>, passwords: seq<Password>)
    requires Distinct(uuids) && |uuids| == |passwords|
    ensures PairsUp(Beside(uuids, passwords), uuids, passwords)
  {
    forall i | 0 <= i < |uuids|
      ensures uuids[i] in Beside(uuids, passwords) && Beside(uuids, passwords)[uuids[i]] == passwords[i]
    {
      BesideAt(uuids, passwords, i);
    }
  }

  lemma OnlyBeside(m: map<int, Password>, uuids: seq<int>, passwords: seq<Password>)
    requires |uuids| == |passwords| && PairsUp(m, uuids, passwords)
    ensures Beside(uuids, passwords) == m
  {
    forall u | u in m ensures u in Beside(uuids, passwords) && Beside(uuids, passwords)[u] == m[u] {
      assert u in Elements(uuids);
      var i :| 0 <= i < |uuids| && uuids[i] == u;
      assert Find(uuids, u) <= i;
    }
  }

  lemma BesideAppend(uuids: seq<int>, passwords: seq<Password>, u: int, p: Password)
    requires Distinct(uuids) && |uuids| == |passwords| && u !in Elements(uuids)
    ensures Distinct(uuids + [u]) && Elements(uuids + [u]) == Elements(uuids) + {u}
    ensures Beside(uuids + [u], passwords + [p]) == Beside(uuids, passwords)[u := p]
  {
    AppendElements(uuids, u);
    BesidePairsUp(uuids, passwords);
    OnlyBeside(Beside(uuids, passwords)[u := p], uuids + [u], passwords + [p]);
  }

  lemma AppendElements(l: seq<int>, u: int)
    ensures Elements(l + [u]) == Elements(l) + {u}
  {
    var r := l + [u];
    assert r[|l|] == u;
    forall x | x in Elements(l) ensures x in Elements(r) {
      var i :| 0 <= i < |l| && l[i] == x;
      assert r[i] == x;
    }
    forall x | x in Elements(r) && x != u ensures x in Elements(l) {
      var i :| 0 <= i < |r| && r[i] == x;
      assert l[i] == x;
    }
  }

  lemma BesideWithout(uuids: seq<int>, passwords: seq<Password>, i: nat)
    requires Distinct(uuids) && |uuids| == |passwords| && i < |uuids|
    ensures Beside(Without(uuids, i), Without(passwords, i)) == Beside(uuids, passwords) - {uuids[i]}
  {
    ElementsWithout(uuids, i);
    BesidePairsUp(uuids, passwords);
    OnlyBeside(Beside(uuids, passwords) - {uuids[i]}, Without(uuids, i), Without(passwords, i));
  }

  /** What removing a uuid and the password beside it does to the two lists. */
  lemma RemovePair(uuids: seq<int>, passwords: seq<Password>, u: int)
    requires Distinct(uuids) && |uuids| == |passwords|
    ensures var i := Find(uuids, u);
      if i < |uuids| then
        && Distinct(Without(uuids, i)) && Elements(Without(uuids, i)) == Elements(uuids) - {u}
        && Beside(Without(uuids, i), Without(passwords, i)) == Beside(uuids, passwords) - {u}
      else Elements(uuids) == Elements(uuids) - {u} && Beside(uuids, passwords) == Beside(uuids, passwords) - {u}
  {
    var i := Find(uuids, u);
    if i < |uuids| {
      ElementsWithout(uuids, i);
      BesideWithout(uuids, passwords, i);
    } else {
      assert u !in Elements(uuids);
    }
  }

  /** Duplicate-free uuids that are the keys of the pairs, and one password beside each. */
  ghost predicate Matched(uuids: seq<int>, passwords: seq<Password>, keys: set<int>) {
    Distinct(uuids) && |passwords| == |uuids| && Elements(uuids) == keys
  }

  lemma AppendMatches(uuids: seq<int>, passwords: seq<Password>, keys: set<int>, u: int, p: Password)
    requires Matched(uuids, passwords, keys)
    ensures Matched(uuids + [u], passwords + [p], keys + {u}) <==> u !in keys
    ensures u !in keys ==> Beside(uuids + [u], passwords + [p]) == Beside(uuids, passwords)[u := p]
  {
    if u !in keys {
      BesideAppend(uuids, passwords, u, p);
    } else {
      assert u in Elements(uuids);
      var i :| 0 <= i < |uuids| && uuids[i] == u;
      assert (uuids + [u])[i] == (uuids + [u])[|uuids|];
    }
  }

  // ------------------------------------------------------------------ the cache

  /** The sealed text opens with these passwords and holds the secret of every pair. */
  ghost predicate Opens(crypto: Crypto, passwords: seq<Password>, pairs: map<int, Keypair>) {
    crypto.password == Join(passwords) && forall u :: u in pairs ==> u in crypto.text && crypto.text[u] == pairs[u].sk
  }

  class Cache {
    const parses: int -> bool // `keypair_from_secret` accepts the secret
    const pkOf: int -> int
    var crypto: Crypto
    var uuids: seq<int>
    var pairs: map<int, Keypair>
    var passwords: seq<Password>
    var state: CacheState

    ghost predicate Genuine(k: Keypair) {
      parses(k.sk) && k.pk == pkOf(k.sk)
    }

    ghost predicate Valid()
      reads this
    {
      state != NotDecrypted ==>
        Matched(uuids, passwords, pairs.Keys) && (forall u :: u in pairs ==> Genuine(pairs[u])) &&
          (state == DecryptedAndSaved ==> Opens(crypto, passwords, pairs))
    }

    constructor New(parses: int -> bool, pkOf: int -> int)
      ensures Valid() && state == DecryptedWithUnsavedUpdates && pairs == map[]
      ensures this.parses == parses && this.pkOf == pkOf
    {
      this.parses, this.pkOf := parses, pkOf;
      crypto, uuids, pairs, passwords := Crypto([], map[]), [], map[], [];
      state := DecryptedWithUnsavedUpdates;
    }

    constructor Open(parses: int -> bool, pkOf: int -> int, file: File)
      ensures Valid() && state == NotDecrypted && crypto == file.crypto && uuids == file.uuids
      ensures this.parses == parses && this.pkOf == pkOf
    {
      this.parses, this.pkOf := parses, pkOf;
      crypto, uuids, pairs, passwords := file.crypto, file.uuids, map[], [];
      state := NotDecrypted;
    }

    method Get(uuid: int) returns (found: bool, k: Keypair)
      ensures found <==> uuid in pairs
      ensures found ==> k == pairs[uuid]
    {
      if uuid in pairs {
        return true, pairs[uuid];
      }
      return false, Keypair(0, 0);
    }

    /** The lists stay matched if and only if the uuid was not there. */
    method Add(k: Keypair, uuid: int, password: Password)
      requires Valid() && Genuine(k)
      modifies this
      ensures old(state) == NotDecrypted ==>
        Valid() && uuids == old(uuids) && pairs == old(pairs) && passwords == old(passwords) && state == NotDecrypted
      ensures old(state) != NotDecrypted ==> pairs == old(pairs)[uuid := k] && state == DecryptedWithUnsavedUpdates
      ensures old(state) != NotDecrypted ==> (Valid() <==> uuid !in old(pairs))
      ensures old(state) != NotDecrypted && uuid !in old(pairs) ==>
        Beside(uuids, passwords) == old(Beside(uuids, passwords))[uuid := password] &&
          Join(passwords) == old(Join(passwords)) + password
    {
      if state == NotDecrypted {
        return;
      }
      AppendMatches(uuids, passwords, pairs.Keys, uuid, password);
      assert pairs[uuid := k].Keys == pairs.Keys + {uuid};
      JoinAppend(passwords, password);
      pairs := pairs[uuid := k];
      uuids := uuids + [uuid];
      passwords := passwords + [password];
      state := DecryptedWithUnsavedUpdates;
    }

    method Remove(uuid: int)
      requires Valid()
      modifies this
      ensures Valid()
      ensures old(state) == NotDecrypted ==>
        uuids == old(uuids) && pairs == old(pairs) && passwords == old(passwords) && state == NotDecrypted
      ensures old(state) != NotDecrypted ==> pairs == old(pairs) - {uuid} && state == DecryptedWithUnsavedUpdates
      ensures old(state) != NotDecrypted ==> Beside(uuids, passwords) == old(Beside(uuids, passwords)) - {uuid}
    {
      if state == NotDecrypted {
        return;
      }
      RemovePair(uuids, passwords, uuid);
      var pos := Find(uuids, uuid);
      if pos < |uuids| {
        uuids := Without(uuids, pos);
        passwords := Without(passwords, pos);
      }
      pairs := pairs - {uuid};
      state := DecryptedWithUnsavedUpdates;
    }

    /** `file` is what the disk holds afterwards. */
    method Save() returns (written: bool, file: File)
      requires Valid()
      modifies `crypto, `state
      ensures Valid()
      ensures written <==> old(state) == DecryptedWithUnsavedUpdates
      ensures file == File(crypto, uuids)
      ensures written ==> state == DecryptedAndSaved && crypto == Crypto(Join(passwords), Secrets(pairs))
      ensures !written ==> state == old(state) && crypto == old(crypto)
    {
      if state == DecryptedWithUnsavedUpdates {
        crypto := Crypto(Join(passwords), Secrets(pairs));
        state := DecryptedAndSaved;
        return true, File(crypto, uuids);
      }
      return false, File(crypto, uuids);
    }

    /** The opened text yields a pair for u with the expected public key. */
    ghost predicate Fits(text: map<int, int>, u: int, pk: int) {
      u in text && Genuine(Keypair(text[u], pk))
    }

    /** What is wrong with u, if anything. */
    ghost function Misfit(text: map<int, int>, u: int, pk: int): (r: DecryptResult) {
      if u !in text then MissingUuidKey
      else if !parses(text[u]) then UnableToParseKeyPair
      else if pkOf(text[u]) != pk then PublicKeyMismatch
      else Decrypted
    }

    /** The first uuid that does not fit is the i-th, for reason r. */
    ghost predicate FirstMisfit(text: map<int, int>, us: seq<int>, pks: seq<int>, i: int, r: DecryptResult)
      requires |us| == |pks|
    {
      0 <= i < |us| && AllFit(text, us[..i], pks) && Misfit(text, us[i], pks[i]) == r != Decrypted
    }

    ghost predicate AllFit(text: map<int, int>, us: seq<int>, pks: seq<int>)
      requires |us| <= |pks|
    {
      forall i :: 0 <= i < |us| ==> Fits(text, us[i], pks[i])
    }

    /** What each result says about the text: a secret is missing, is no key, or belongs to another public key. */
    ghost predicate Explains(text: map<int, int>, us: seq<int>, pks: seq<int>, r: DecryptResult)
      requires |us| == |pks|
    {
      match r
      case Decrypted =>
        forall i :: 0 <= i < |us| ==> us[i] in text && parses(text[us[i]]) && pkOf(text[us[i]]) == pks[i]
      case MissingUuidKey => exists i :: 0 <= i < |us| && us[i] !in text
      case UnableToParseKeyPair => exists i :: 0 <= i < |us| && us[i] in text && !parses(text[us[i]])
      case PublicKeyMismatch => exists i :: 0 <= i < |us| && us[i] in text && pkOf(text[us[i]]) != pks[i]
      case _ => false
    }

    /** The pairs are those of the uuids in us. */
    ghost predicate Restored(text: map<int, int>, us: seq<int>, pks: seq<int>, ps: map<int, Keypair>)
      requires |us| <= |pks|
    {
      && ps.Keys == Elements(us)
      && forall i :: 0 <= i < |us| ==> us[i] in ps && us[i] in text && ps[us[i]] == Keypair(text[us[i]], pks[i])
    }

    lemma RestoreNext(text: map<int, int>, us: seq<int>, u: int, pks: seq<int>, ps: map<int, Keypair>)
      requires |us| < |pks| && AllFit(text, us, pks) && Restored(text, us, pks, ps) && Fits(text, u, pks[|us|])
      ensures AllFit(text, us + [u], pks) && Restored(text, us + [u], pks, ps[u := Keypair(text[u], pks[|us|])])
    {
      AppendElements(us, u);
    }

    lemma RestoredOpens(text: map<int, int>, us: seq<int>, pks: seq<int>, ps: map<int, Keypair>)
      requires |us| == |pks| && AllFit(text, us, pks) && Restored(text, us, pks, ps)
      ensures forall u :: u in ps ==> Genuine(ps[u]) && u in text && text[u] == ps[u].sk
    {
      forall u | u in ps ensures Genuine(ps[u]) && u in text && text[u] == ps[u].sk {
        assert u in Elements(us);
        var i :| 0 <= i < |us| && us[i] == u;
        assert Fits(text, us[i], pks[i]);
      }
    }

    /**
      Restores the pairs of exactly the listed uuids if the joined password opens the file and every public
      key fits. The number of passwords is not compared with the number of uuids; so the lists come out
      matched if and only if the file had no duplicate uuid and as many passwords were given as uuids.
    */
    method Decrypt(given: seq<Password>, publicKeys: seq<int>) returns (r: DecryptResult)
      requires Valid()
      modifies `pairs, `passwords, `state
      ensures r == AlreadyDecrypted <==> old(state) != NotDecrypted
      ensures r == AlreadyDecrypted ==> state == old(state) && pairs == old(pairs) && passwords == old(passwords)
      ensures old(state) == NotDecrypted ==> (r == UnableToDecrypt <==> Join(given) != crypto.password)
      ensures r == Decrypted <==>
        && old(state) == NotDecrypted && Join(given) == crypto.password && |publicKeys| == |uuids|
        && AllFit(crypto.text, uuids, publicKeys)
      ensures r == Decrypted ==>
        && state == DecryptedAndSaved && passwords == given
        && Restored(crypto.text, uuids, publicKeys, pairs)
        && (Valid() <==> Distinct(uuids) && |given| == |uuids|)
      ensures old(state) == NotDecrypted && Join(given) == crypto.password && |publicKeys| != |uuids| ==>
        r == PublicKeyMismatch && pairs == map[]
      ensures (old(state) == NotDecrypted && Join(given) == crypto.password && |publicKeys| == |uuids| &&
        r != Decrypted) ==>
        exists i :: FirstMisfit(crypto.text, uuids, publicKeys, i, r)
          && Restored(crypto.text, uuids[..i], publicKeys, pairs)
      ensures r != Decrypted ==> state == old(state)
      ensures old(state) == NotDecrypted && Join(given) == crypto.password && |publicKeys| == |uuids| ==>
        Explains(crypto.text, uuids, publicKeys, r)
    {
      if state != NotDecrypted {
        return AlreadyDecrypted;
      }
      if Join(given) != crypto.password {
        return UnableToDecrypt;
      }
      passwords := given;
      pairs := map[];
      if |publicKeys| != |uuids| {
        return PublicKeyMismatch;
      }
      r, pairs := RestorePairs(crypto.text, uuids, publicKeys);
      if r == Decrypted {
        RestoredOpens(crypto.text, uuids, publicKeys, pairs);
        state := DecryptedAndSaved;
      }
    }

    /** The loop over uuids and public keys. */
    method RestorePairs(text: map<int, int>, us: seq<int>, pks: seq<int>)
      returns (r: DecryptResult, ps: map<int, Keypair>)
      requires |us| == |pks|
      ensures r == Decrypted <==> AllFit(text, us, pks)
      ensures r == Decrypted ==> Restored(text, us, pks, ps)
      ensures r != Decrypted ==> exists i :: FirstMisfit(text, us, pks, i, r) && Restored(text, us[..i], pks, ps)
      ensures Explains(text, us, pks, r)
    {
      ps := map[];
      var i := 0;
      while i < |us|
        invariant 0 <= i <= |us|
        invariant AllFit(text, us[..i], pks) && Restored(text, us[..i], pks, ps)
      {
        assert !Fits(text, us[i], pks[i]) ==> !AllFit(text, us, pks);
        assert !Fits(text, us[i], pks[i]) ==> FirstMisfit(text, us, pks, i, Misfit(text, us[i], pks[i]));
        if us[i] !in text {
          return MissingUuidKey, ps;
        }
        var secret := text[us[i]];
        if !parses(secret) {
          return UnableToParseKeyPair, ps;
        }
        if pkOf(secret) != pks[i] {
          return PublicKeyMismatch, ps;
        }
        RestoreNext(text, us[..i], us[i], pks, ps);
        assert us[..i + 1] == us[..i] + [us[i]];
        ps := ps[us[i] := Keypair(secret, pkOf(secret))];
        i := i + 1;
      }
      assert us[..i] == us;
      return Decrypted, ps;
    }
  }

  lemma SavedPairsFit(c: Cache, crypto: Crypto, passwords: seq<Password>, pairs: map<int, Keypair>, uuids: seq<int>)
    requires Opens(crypto, passwords, pairs) && Elements(uuids) == pairs.Keys
    requires forall u :: u in pairs ==> c.Genuine(pairs[u])
    ensures forall i :: 0 <= i < |uuids| ==> uuids[i] in pairs
    ensures c.AllFit(crypto.text, uuids, PublicKeys(uuids, pairs))
  {
    forall i | 0 <= i < |uuids| ensures uuids[i] in pairs {
      assert uuids[i] in Elements(uuids);
    }
  }

  lemma RestoredAreSaved(c: Cache, crypto: Crypto, passwords: seq<Password>, pairs: map<int, Keypair>, uuids: seq<int>,
                         ps: map<int, Keypair>)
    requires Opens(crypto, passwords, pairs) && Elements(uuids) == pairs.Keys
    requires forall i :: 0 <= i < |uuids| ==> uuids[i] in pairs
    requires c.Restored(crypto.text, uuids, PublicKeys(uuids, pairs), ps)
    ensures ps == pairs
  {
    forall u | u in pairs ensures ps[u] == pairs[u] {
      assert u in Elements(uuids);
      var i :| 0 <= i < |uuids| && uuids[i] == u;
    }
  }

  /**
    Saving a decrypted cache, opening the file and decrypting it with the same passwords and public keys,
    position by position, restores exactly the same pairs.
  */
  method RoundTrip(c: Cache) returns (d: Cache, r: DecryptResult)
    requires c.Valid() && c.state != NotDecrypted
    modifies c
    ensures r == Decrypted && fresh(d) && d.Valid()
    ensures d.pairs == old(c.pairs) == c.pairs && d.uuids == old(c.uuids) && d.passwords == old(c.passwords)
    ensures c.state == d.state == DecryptedAndSaved
  {
    var written, file := c.Save();
    d := new Cache.Open(c.parses, c.pkOf, file);
    SavedPairsFit(d, c.crypto, c.passwords, c.pairs, c.uuids);
    r := d.Decrypt(c.passwords, PublicKeys(c.uuids, c.pairs));
    RestoredAreSaved(d, c.crypto, c.passwords, c.pairs, c.uuids, d.pairs);
  }

  // ------------------------------------------------------------------ the cache at the next start

  /** What the definition of an enabled local keystore knows: its password and its public key. */
  datatype Local = Local(password: Password, pk: int)

  predicate AllLocal(uuids: seq<int>, locals: map<int, Local>) {
    forall i :: 0 <= i < |uuids| ==> uuids[i] in locals
  }

  function PasswordsOf(uuids: seq<int>, locals: map<int, Local>): (r: seq<Password>)
    requires AllLocal(uuids, locals)
  {
    seq(|uuids|, i requires 0 <= i < |uuids| => locals[uuids[i]].password)
  }

  function KeysOf(uuids: seq<int>, locals: map<int, Local>): (r: seq<int>)
    requires AllLocal(uuids, locals)
  {
    seq(|uuids|, i requires 0 <= i < |uuids| => locals[uuids[i]].pk)
  }

  /** The local keystores know the passwords and public keys of all that is in the file. */
  ghost predicate Recovers(c: Cache, crypto: Crypto, uuids: seq<int>, locals: map<int, Local>) {
    && AllLocal(uuids, locals) && Join(PasswordsOf(uuids, locals)) == crypto.password
    && c.AllFit(crypto.text, uuids, KeysOf(uuids, locals))
  }

  /**
    `decrypt_key_cache`: a cache that cannot be decrypted with the enabled local keystores is replaced by a new one.
  */
  method DecryptKeyCache(c: Cache, locals: map<int, Local>) returns (d: Cache)
    requires c.Valid()
    modifies c
    ensures d.parses == c.parses && d.pkOf == c.pkOf && c.uuids == old(c.uuids) && c.crypto == old(c.crypto)
    ensures if old(c.state) != NotDecrypted && AllLocal(c.uuids, locals)
      then d == c && d.pairs == old(c.pairs) && d.passwords == old(c.passwords) && d.state == old(c.state)
      else if old(c.state) == NotDecrypted && Recovers(c, c.crypto, c.uuids, locals)
      then d == c && d.passwords == PasswordsOf(c.uuids, locals) && d.state == DecryptedAndSaved
           && c.Restored(c.crypto.text, c.uuids, KeysOf(c.uuids, locals), d.pairs)
      else fresh(d) && d.Valid() && d.pairs == map[] && d.state == DecryptedWithUnsavedUpdates
  {
    if !AllLocal(c.uuids, locals) {
      d := new Cache.New(c.parses, c.pkOf);
      return;
    }
    var r := c.Decrypt(PasswordsOf(c.uuids, locals), KeysOf(c.uuids, locals));
    if r == Decrypted || r == AlreadyDecrypted {
      return c;
    }
    d := new Cache.New(c.parses, c.pkOf);
  }

  /** The local keystores that are in the cache have the passwords and public keys they were put in with. */
  ghost predicate Unchanged(locals: map<int, Local>, uuids: seq<int>, passwords: seq<Password>,
                            pairs: map<int, Keypair>)
    requires |uuids| == |passwords|
  {
    forall i :: 0 <= i < |uuids| && uuids[i] in locals && uuids[i] in pairs ==>
      locals[uuids[i]] == Local(passwords[i], pairs[uuids[i]].pk)
  }

  lemma UnchangedRecovers(c: Cache, crypto: Crypto, uuids: seq<int>, passwords: seq<Password>, pairs: map<int, Keypair>,
                          locals: map<int, Local>)
    requires Opens(crypto, passwords, pairs) && Matched(uuids, passwords, pairs.Keys)
    requires (forall u :: u in pairs ==> c.Genuine(pairs[u])) && Unchanged(locals, uuids, passwords, pairs)
    ensures AllLocal(uuids, locals) <==> pairs.Keys <= locals.Keys
    ensures Recovers(c, crypto, uuids, locals) <==> pairs.Keys <= locals.Keys
    ensures Recovers(c, crypto, uuids, locals) ==>
      (forall i :: 0 <= i < |uuids| ==> uuids[i] in pairs) && KeysOf(uuids, locals) == PublicKeys(uuids, pairs)
  {
    forall i | 0 <= i < |uuids| ensures uuids[i] in pairs {
      assert uuids[i] in Elements(uuids);
    }
    forall u | u in pairs ensures exists i :: 0 <= i < |uuids| && uuids[i] == u {
      assert u in Elements(uuids);
    }
    if AllLocal(uuids, locals) {
      assert PasswordsOf(uuids, locals) == passwords && KeysOf(uuids, locals) == PublicKeys(uuids, pairs);
      SavedPairsFit(c, crypto, passwords, pairs, uuids);
    }
  }

  /**
    The cache is saved and decrypted at the next start: if every key in it is that of an enabled local keystore, all
    keys come back, and otherwise none. So a cached share of a distributed keystore empties the cache.
  */
  method NextStart(c: Cache, locals: map<int, Local>) returns (d: Cache)
    requires c.Valid() && c.state != NotDecrypted && Unchanged(locals, c.uuids, c.passwords, c.pairs)
    modifies c
    ensures d.pairs == if old(c.pairs).Keys <= locals.Keys then old(c.pairs) else map[]
  {
    var written, file := c.Save();
    var o := new Cache.Open(c.parses, c.pkOf, file);
    UnchangedRecovers(o, c.crypto, c.uuids, c.passwords, c.pairs, locals);
    d := DecryptKeyCache(o, locals);
    if c.pairs.Keys <= locals.Keys {
      RestoredAreSaved(o, c.crypto, c.passwords, c.pairs, c.uuids, d.pairs);
    }
  }
}
