/** The store itself: an object over the record directories whose locked
    methods scan, write and unlink, each proved against its specification. */
module StateDirectory {
  import opened Texts
  import opened Records
  import opened Protocol
  import opened StoreInvariant
  import opened ProtocolInvariant
  import opened StoreAnswers

  class Store {
    var accounts: map<Uuid, Account>
    var keys: map<Blob, KeyRecord>
    var creds: map<Uuid, Credential>
    var ring: Ring

    constructor (ring: Ring)
      ensures View() == Disk(map[], map[], map[]) && this.ring == ring
    {
      accounts, keys, creds, this.ring := map[], map[], map[], ring;
    }

    function View(): Disk
      reads this
    {
      Disk(accounts, keys, creds)
    }

    /** checkDuplicateCoderUserLocked: a scan that stops at the first clash. */
    method CheckDuplicateCoderUser(deployment: Uuid, user: Uuid, exclude: Uuid) returns (duplicate: bool)
      ensures duplicate <==> DuplicateBinding(View(), deployment, user, exclude)
    {
      var rest := accounts.Keys;
      while rest != {}
        invariant rest <= accounts.Keys
        invariant forall b :: b in accounts.Keys - rest && b != exclude ==> !BoundTo(accounts[b], deployment, user)
      {
        var b :| b in rest;
        rest := rest - {b};
        if b != exclude && BoundTo(accounts[b], deployment, user) {
          return true;
        }
      }
      return false;
    }

    method AddAccount(id: Uuid, acct: Account, fate: Fate) returns (r: Result<()>)
      modifies this
      ensures var o := Records.AddAccount(old(View()), id, acct, fate);
              View() == o.disk && r == o.result && ring == old(ring)
    {
      if id in accounts {
        return Err(AccountExists);
      }
      if acct.user.Some? {
        var duplicate := CheckDuplicateCoderUser(acct.deployment, acct.user.value, NIL);
        if duplicate {
          return Err(DuplicateUser);
        }
      }
      if fate.Lands() {
        accounts := accounts[id := acct];
      }
      return Settle(fate, ());
    }

    /** LookupOrCreateAccountByCoderID: refresh the first bound account of the
        scan, or create one; `hit` is where the scan stopped. */
    method LookupOrCreateAccount(deployment: Uuid, user: Uuid, username: string, newId: Uuid, fate: Fate)
      returns (r: Result<Found>, ghost hit: Option<Uuid>)
      modifies this
      ensures ScanResult(old(View()), deployment, user, hit)
      ensures var o := LookupOrCreate(old(View()), deployment, user, username, hit, newId, fate);
              View() == o.disk && r == o.result && ring == old(ring)
    {
      var rest := accounts.Keys;
      while rest != {}
        invariant rest <= accounts.Keys && unchanged(this)
        invariant forall b :: b in accounts.Keys - rest ==> !BoundTo(accounts[b], deployment, user)
      {
        var b :| b in rest;
        rest := rest - {b};
        if BoundTo(accounts[b], deployment, user) {
          hit := Some(b);
          var acct := accounts[b];
          if acct.username != username {
            acct := acct.(username := username);
            if fate.Lands() {
              accounts := accounts[b := acct];
            }
            r := Settle(fate, Found(b, acct, false));
            return;
          }
          r := Ok(Found(b, acct, false));
          return;
        }
      }
      hit := None;
      var acct := Account(deployment, Some(user), username, false, true);
      if fate.Lands() {
        accounts := accounts[newId := acct];
      }
      r := Settle(fate, Found(newId, acct, true));
    }

    method ReplaceCredential(req: ReplaceRequest, nonce: Nonce, first: Fate, second: Fate) returns (r: Result<Snapshot>)
      modifies this
      ensures var o := Replace(old(View()), ring, req, nonce, first, second);
              View() == o.disk && r == o.result && ring == old(ring)
      // an account that may not take the token is left alone
      ensures !MayReplace(old(View()), req.account, req.user) ==> r.Err? && unchanged(this)
      ensures var before := LoadCredential(old(View()), ring, req.account);
              first.Done? && second.Done? && before.Ok? ==>
                (r.Ok? <==> && MayReplace(old(View()), req.account, req.user)
                            && !BoundElsewhere(old(View()), req.account, req.user)
                            && before.value.generation == req.expected && ring.active in ring.table)
      ensures r.Ok? ==> && LoadCredential(View(), ring, req.account)
                           == Ok(Snapshot(req.account, req.expected + 1, Valid, Some(req.token)))
                        && accounts[req.account].user == Some(req.user)
    {
      ReplaceChangesOnlyWhenAllowed(View(), ring, req, nonce, first, second);
      if LoadCredential(View(), ring, req.account).Ok? {
        ReplaceSucceedsIff(View(), ring, req, nonce);
      }
      if Replace(View(), ring, req, nonce, first, second).result.Ok? {
        ReplacedLoads(View(), ring, req, nonce, first, second);
      }
      var a := req.account;
      if a !in accounts {
        return Err(AccountNotFound);
      }
      var acct := accounts[a];
      if !acct.enabled {
        return Err(AccountDisabled);
      }
      if req.user == NIL {
        return Err(WrongIdentity);
      }
      if acct.user.None? {
        if !acct.bindOnFirst {
          return Err(WrongIdentity);
        }
      } else if acct.user.value != req.user {
        return Err(WrongIdentity);
      }
      if a in creds && !ValidRecord(creds[a]) {
        return Err(Corrupt);
      }
      if Generation(View(), a) != req.expected {
        return Err(GenerationConflict);
      }
      if ring.active !in ring.table {
        return Err(KeyUnavailable);
      }
      var aad := Binding(acct.deployment, a, req.expected + 1);
      var rec := SealedRecord(ring.table[ring.active], ring.active, nonce, aad, req.token);
      // the identity first: a failed credential write leaves a harmless refresh
      var duplicate := CheckDuplicateCoderUser(acct.deployment, req.user, a);
      if duplicate {
        return Err(DuplicateUser);
      }
      if first.Lands() {
        accounts := accounts[a := Bind(acct, req.user, req.username)];
      }
      if !first.Done? {
        return Err(WriteFailed);
      }
      if second.Lands() {
        creds := creds[a := rec];
      }
      return Settle(second, Snapshot(a, req.expected + 1, Valid, None));
    }

    method MarkCredentialInvalid(a: Uuid, expected: int, fate: Fate) returns (r: Result<()>)
      modifies this
      ensures var o := MarkInvalid(old(View()), a, expected, fate);
              View() == o.disk && r == o.result && ring == old(ring)
      // no generation and no token changes, of this account or another
      ensures forall b :: Generation(View(), b) == Generation(old(View()), b)
                          && StoredToken(View(), b) == StoredToken(old(View()), b)
      ensures forall b | b != a :: LoadCredential(View(), ring, b) == LoadCredential(old(View()), ring, b)
      // what a caller who holds a snapshot finds afterwards
      ensures var before := LoadCredential(old(View()), ring, a);
              && (before.Ok? && before.value.generation != expected ==> r.Ok? && unchanged(this))
              && (before.Ok? && before.value.generation == expected && before.value.token.Some? && r.Ok? ==>
                    LoadCredential(View(), ring, a) == Ok(before.value.(state := Invalid)))
    {
      if a !in creds {
        return Ok(());
      }
      if !ValidRecord(creds[a]) {
        return Err(Corrupt);
      }
      if creds[a].generation != expected {
        return Ok(());
      }
      if fate.Lands() {
        creds := creds[a := creds[a].(state := Invalid)];
      }
      return Settle(fate, ());
    }

    method ClearCredential(a: Uuid, expected: int, fate: Fate) returns (r: Result<()>)
      modifies this
      ensures var o := Clear(old(View()), a, expected, fate);
              View() == o.disk && r == o.result && ring == old(ring)
      ensures forall b | b != a :: LoadCredential(View(), ring, b) == LoadCredential(old(View()), ring, b)
      // success leaves nothing to load, under a generation no earlier snapshot had
      ensures r.Ok? ==> LoadCredential(View(), ring, a) == Ok(Snapshot(a, expected + 1, Missing, None))
      ensures r.Err? && !r.error.WriteFailed? ==> unchanged(this)
      ensures var before := LoadCredential(old(View()), ring, a);
              a in accounts && before.Ok? ==>
                (r == Err(GenerationConflict) <==> before.value.generation != expected)
    {
      if a !in accounts {
        return Err(AccountNotFound);
      }
      if a in creds && !ValidRecord(creds[a]) {
        return Err(Corrupt);
      }
      if Generation(View(), a) != expected {
        return Err(GenerationConflict);
      }
      if fate.Lands() {
        creds := creds[a := Tombstone(a, expected + 1)];
      }
      return Settle(fate, ());
    }

    /** ReencryptAll: one atomic write per record, stopping at the first error;
        `visited` is the part of the directory the pass got through. */
    method ReencryptAll(nonces: Uuid -> Nonce, fates: Uuid -> Fate) returns (r: Result<()>, ghost visited: set<Uuid>)
      modifies this
      ensures PassPoint(old(View()), ring, nonces, fates, visited, View()) && ring == old(ring)
      ensures r.Ok? ==> ring.active in ring.table && visited == old(creds.Keys)
                        && forall a :: a in visited ==> Reencrypt(old(View()), ring, a, nonces(a), fates(a)).result.Ok?
      ensures r.Err? && ring.active in ring.table ==>
                exists a :: a in visited && Reencrypt(old(View()), ring, a, nonces(a), fates(a)).result == Err(r.error)
    {
      visited := {};
      if ring.active !in ring.table {
        return Err(KeyUnavailable), {};
      }
      var rest := creds.Keys;
      ghost var d := View();
      while rest != {}
        invariant rest <= creds.Keys && ring == old(ring) && d == old(View())
        invariant visited == old(creds.Keys) - rest && creds.Keys == old(creds.Keys)
        invariant PassPoint(d, ring, nonces, fates, visited, View())
        invariant forall a :: a in visited ==> Reencrypt(d, ring, a, nonces(a), fates(a)).result.Ok?
      {
        var a :| a in rest;
        rest := rest - {a};
        assert creds[a] == d.creds[a];
        var o := Reencrypt(View(), ring, a, nonces(a), fates(a));
        creds := o.disk.creds;
        visited := visited + {a};
        if o.result.Err? {
          return Err(o.result.error), visited;
        }
      }
      return Ok(()), visited;
    }

    method AddKey(a: Uuid, blob: Blob, keyId: Uuid, fate: Fate) returns (r: Result<KeyRecord>)
      modifies this
      ensures var o := Records.AddKey(old(View()), a, blob, keyId, fate);
              View() == o.disk && r == o.result && ring == old(ring)
      // the key authenticates as the account, and no other key changes its answer
      ensures r.Ok? && accounts[a].enabled ==>
                LookupByPublicKey(View(), accounts[a].deployment, blob) == Ok((a, r.value))
      ensures forall b, deployment | b != blob ::
                LookupByPublicKey(View(), deployment, b) == LookupByPublicKey(old(View()), deployment, b)
      ensures blob in old(keys) ==> unchanged(this)
      // deleting it again is the way back
      ensures r.Ok? ==> Records.DeleteKey(View(), a, Some(blob), Done) == Outcome(old(View()), Ok(()), false)
    {
      if a !in accounts {
        return Err(AccountNotFound);
      }
      if blob in keys {
        return Err(DuplicateKey);
      }
      var rec := KeyRecord(keyId, a, blob, true);
      if fate.Lands() {
        keys := keys[blob := rec];
      }
      assert fate.Done? ==> keys - {blob} == old(keys);
      return Settle(fate, rec);
    }

    /** DeleteKey: find the record by ID, check its owner, unlink it. */
    method DeleteKey(a: Uuid, keyId: Uuid, fate: Fate) returns (r: Result<()>, ghost name: Option<Blob>)
      modifies this
      ensures name.Some? ==> name.value in old(keys) && old(keys)[name.value].id == keyId
      ensures name.None? ==> forall b :: b in old(keys) ==> old(keys)[b].id != keyId
      ensures var o := Records.DeleteKey(old(View()), a, name, fate);
              View() == o.disk && r == o.result && ring == old(ring)
    {
      var rest := keys.Keys;
      while rest != {}
        invariant rest <= keys.Keys && unchanged(this)
        invariant forall b :: b in keys.Keys - rest ==> keys[b].id != keyId
      {
        var b :| b in rest;
        rest := rest - {b};
        if keys[b].id == keyId {
          name := Some(b);
          if keys[b].owner != a {
            return Err(KeyNotFound), name;
          }
          if keys[b].blob != b {
            return Err(Corrupt), name;
          }
          if fate.Lands() {
            keys := keys - {b};
          }
          return Settle(fate, ()), name;
        }
      }
      return Err(KeyNotFound), None;
    }

    /** DeleteAccount: keys first, the credential next, the account last.
        `fates` decides each unlink, so every crash point is a possible end. */
    method DeleteAccount(a: Uuid, fates: Option<Blob> -> Fate, last: Fate) returns (r: Result<()>)
      modifies this
      ensures ring == old(ring)
      ensures a !in old(accounts) ==> r == Err(AccountNotFound) && unchanged(this)
      ensures a in old(accounts) ==> CascadePoint(old(View()), a, View())
      ensures r.Ok? ==> View() == Cascade(old(View()), a)
      ensures a in old(accounts) && last.Done? && (forall f :: fates(f).Done?) ==> r.Ok?
    {
      if a !in accounts {
        return Err(AccountNotFound);
      }
      ghost var d := View();
      var rest := keys.Keys;
      ghost var gone: set<Blob> := {};
      while rest != {}
        invariant rest <= keys.Keys && accounts == d.accounts && creds == d.creds && ring == old(ring)
        invariant gone <= KeysOf(d, a) && keys == d.keys - gone
        invariant forall b :: b in keys.Keys - rest ==> keys[b].owner != a
      {
        var b :| b in rest;
        rest := rest - {b};
        if keys[b].owner == a {
          var fate := fates(Some(b));
          if fate.Lands() {
            keys := keys - {b};
            gone := gone + {b};
            assert keys == d.keys - gone;
          }
          assert View() == d.(keys := d.keys - gone);
          if !fate.Done? {
            return Err(WriteFailed);
          }
        }
      }
      assert gone == KeysOf(d, a) by {
        assert forall b :: b in keys ==> keys[b] == d.keys[b];
      }
      if a in creds {
        var fate := fates(None);
        if fate.Lands() {
          creds := creds - {a};
        }
        if !fate.Done? {
          return Err(WriteFailed);
        }
      }
      assert creds == d.creds - {a};
      if last.Lands() {
        accounts := accounts - {a};
      }
      return Settle(last, ());
    }
  }

  // ---- the re-encryption pass ------------------------------------------------------------

  /** A pass that has visited `visited`: those records re-sealed, the rest as before. */
  ghost predicate PassPoint(d: Disk, ring: Ring, nonces: Uuid -> Nonce, fates: Uuid -> Fate, visited: set<Uuid>,
                            d': Disk) {
    && d'.accounts == d.accounts && d'.keys == d.keys && d'.creds.Keys == d.creds.Keys
    && forall a :: a in d.creds ==>
         d'.creds[a] == if a in visited then Reencrypt(d, ring, a, nonces(a), fates(a)).disk.creds[a] else d.creds[a]
  }

  lemma ResealKeepsRecord(d: Disk, ring: Ring, a: Uuid, nonce: Nonce, fate: Fate)
    requires Sealed(d, ring.table) && a in d.creds
    ensures var rec := Reencrypt(d, ring, a, nonce, fate).disk.creds[a];
            SealedAt(rec, a, d.accounts[a].deployment, ring.table) && IdealOf(rec) == IdealOf(d.creds[a])
  {
  }

  lemma SameRecordsInv(d: Disk, ring: Ring, h: History, d': Disk)
    requires StoreInv(d, ring, h) && d'.accounts == d.accounts && d'.keys == d.keys && d'.creds.Keys == d.creds.Keys
    requires forall a :: a in d.creds ==>
               && SealedAt(d'.creds[a], a, d.accounts[a].deployment, ring.table)
               && IdealOf(d'.creds[a]) == IdealOf(d.creds[a])
    ensures StoreInv(d', ring, h)
  {
    forall a | a in d'.creds && a in d'.accounts ensures VerifiedAt(d', a, h.accepted) {
      assert VerifiedAt(d, a, h.accepted);
    }
    assert Sealed(d', ring.table);
    assert Mirrors(d', h.ideal);
  }

  /** However far a pass gets, it keeps the invariant with the plain map
      unchanged, so no load can tell that it ran. */
  lemma PassIsInvisible(d: Disk, ring: Ring, h: History, nonces: Uuid -> Nonce, fates: Uuid -> Fate,
                        visited: set<Uuid>, d': Disk)
    requires StoreInv(d, ring, h) && PassPoint(d, ring, nonces, fates, visited, d')
    ensures StoreInv(d', ring, h)
    ensures forall a :: LoadCredential(d', ring, a) == LoadCredential(d, ring, a)
  {
    forall a | a in d.creds
      ensures SealedAt(d'.creds[a], a, d.accounts[a].deployment, ring.table)
              && IdealOf(d'.creds[a]) == IdealOf(d.creds[a])
    {
      ResealKeepsRecord(d, ring, a, nonces(a), fates(a));
    }
    SameRecordsInv(d, ring, h, d');
    forall a ensures LoadCredential(d', ring, a) == LoadCredential(d, ring, a) {
      LoadIsIdeal(d, ring, h, a);
      LoadIsIdeal(d', ring, h, a);
    }
  }

  lemma ReencryptReaches(d: Disk, ring: Ring, a: Uuid, nonce: Nonce, fate: Fate)
    requires a in d.creds && d.creds[a].box.Some? && Reencrypt(d, ring, a, nonce, fate).result.Ok?
    ensures Reencrypt(d, ring, a, nonce, fate).disk.creds[a].version == Some(ring.active)
  {
  }

  /** A pass over records that load has nothing to stop at but a failing write. */
  lemma PassSucceeds(d: Disk, ring: Ring, nonces: Uuid -> Nonce, fates: Uuid -> Fate)
    requires ring.active in ring.table && forall a :: a in d.creds ==> LoadCredential(d, ring, a).Ok?
    ensures forall a :: a in d.creds && fates(a).Done? ==> Reencrypt(d, ring, a, nonces(a), fates(a)).result.Ok?
  {
    forall a | a in d.creds && fates(a).Done? ensures Reencrypt(d, ring, a, nonces(a), fates(a)).result.Ok? {
      ReencryptSucceeds(d, ring, a, nonces(a));
    }
  }

  /** A pass that reports success leaves every live record on the active key. */
  lemma PassReachesActiveKey(d: Disk, ring: Ring, h: History, nonces: Uuid -> Nonce, fates: Uuid -> Fate, d': Disk,
                             a: Uuid)
    requires StoreInv(d, ring, h) && ring.active in ring.table && PassPoint(d, ring, nonces, fates, d.creds.Keys, d')
    requires forall b :: b in d.creds ==> Reencrypt(d, ring, b, nonces(b), fates(b)).result.Ok?
    requires a in d.creds && d.creds[a].box.Some?
    ensures d'.creds[a].version == Some(ring.active)
  {
    assert Reencrypt(d, ring, a, nonces(a), fates(a)).result.Ok?;
    ReencryptReaches(d, ring, a, nonces(a), fates(a));
  }
}
