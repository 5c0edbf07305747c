/** What every store operation keeps, and what it may change: the invariant of
    the state directory and the guarantee each step gives to the others. */
module StoreInvariant {
  import opened Texts
  import opened Records
  import opened Protocol

  // ---- the invariant ----------------------------------------------------------------

  /** The record belongs to account `a`, and its ciphertext, if any, opens.  A
      record that is missing has none; the converse holds for one account at a
      time, see `ProtocolInvariant.Sound`. */
  ghost predicate SealedAt(rec: Credential, a: Uuid, deployment: Uuid, table: map<Version, Key>) {
    && rec.account == a && rec.generation >= 1
    && !rec.state.Unrecognized? && (rec.state.Missing? ==> rec.box.None?)
    && (rec.box.Some? ==>
          && rec.version.Some? && rec.nonce.Some? && rec.version.value in table
          && rec.box.value == Seal(table[rec.version.value], rec.nonce.value, rec.box.value.plain,
                                   Binding(deployment, a, rec.generation)))
  }

  ghost predicate Sealed(d: Disk, table: map<Version, Key>) {
    forall a :: a in d.creds ==> a in d.accounts && SealedAt(d.creds[a], a, d.accounts[a].deployment, table)
  }

  /** Every key file names an existing account and its own blob. */
  ghost predicate Owned(d: Disk) {
    forall b :: b in d.keys ==> d.keys[b].owner in d.accounts && d.keys[b].blob == b
  }

  predicate SameBinding(x: Account, y: Account) {
    x.user.Some? && x.user == y.user && x.deployment == y.deployment
  }

  /** UNIQUE (deployment, coder user), unbound accounts excepted. */
  ghost predicate UniqueBindings(d: Disk) {
    forall a, b | a in d.accounts && b in d.accounts && SameBinding(d.accounts[a], d.accounts[b]) :: a == b
  }

  /** A stored token verified as the identity its account is bound to. */
  ghost predicate VerifiedAt(d: Disk, a: Uuid, accepted: set<(Token, Uuid)>)
    requires a in d.creds && a in d.accounts
  {
    d.creds[a].box.Some? ==>
      d.accounts[a].user.Some? && (d.creds[a].box.value.plain, d.accounts[a].user.value) in accepted
  }

  ghost predicate VerifiedTokens(d: Disk, accepted: set<(Token, Uuid)>) {
    forall a :: a in d.creds && a in d.accounts ==> VerifiedAt(d, a, accepted)
  }

  ghost predicate FreshIds(d: Disk, h: History) {
    && NIL !in h.ids && (forall x :: x in h.accepted ==> x.1 != NIL)
    && (forall a :: a in d.accounts ==> a in h.ids)
    && (forall b :: b in d.keys ==> d.keys[b].id in h.keyIds)
    && (forall b, c :: b in d.keys && c in d.keys && d.keys[b].id == d.keys[c].id ==> b == c)
  }

  function IdealOf(rec: Credential): IdealCred {
    IdealCred(rec.generation, rec.state, if rec.box.Some? then Some(rec.box.value.plain) else None)
  }

  ghost predicate Mirrors(d: Disk, ideal: map<Uuid, IdealCred>) {
    && (forall a :: a in ideal <==> a in d.creds)
    && (forall a :: a in ideal && a in d.creds ==> ideal[a] == IdealOf(d.creds[a]))
  }

  ghost predicate StoreInv(d: Disk, ring: Ring, h: History) {
    && Sealed(d, ring.table) && Owned(d) && UniqueBindings(d)
    && VerifiedTokens(d, h.accepted) && FreshIds(d, h) && Mirrors(d, h.ideal)
  }

  // ---- the guarantee ------------------------------------------------------------------

  /** The credential of `a` moved forward: a later generation, or the same
      generation with the same token. */
  ghost predicate Later(d: Disk, d': Disk, a: Uuid) {
    && Generation(d, a) <= Generation(d', a)
    && (Generation(d, a) == Generation(d', a) ==> StoredToken(d, a) == StoredToken(d', a))
  }

  ghost predicate KeepsAccounts(d: Disk, h: History, d': Disk) {
    && (forall a :: a in d'.accounts && a !in d.accounts ==> a !in h.ids)
    && (forall a :: a in d.accounts && a in d'.accounts ==>
          && d.accounts[a].deployment == d'.accounts[a].deployment
          && (d.accounts[a].user.Some? ==> d'.accounts[a].user == d.accounts[a].user))
  }

  ghost predicate KeepsKeys(d: Disk, d': Disk) {
    forall b :: b in d.keys && b in d'.keys ==> d.keys[b].owner == d'.keys[b].owner && d.keys[b].id == d'.keys[b].id
  }

  ghost predicate KeepsCredentials(d: Disk, d': Disk) {
    forall a :: a in d.accounts && a in d'.accounts && !HalfDeleted(d, d', a) ==> Later(d, d', a)
  }

  ghost predicate Grows(h: History, h': History) {
    h.ids <= h'.ids && h.keyIds <= h'.keyIds && h.accepted <= h'.accepted
  }

  ghost predicate Keeps(d: Disk, h: History, d': Disk, h': History) {
    Grows(h, h') && KeepsAccounts(d, h, d') && KeepsKeys(d, d') && KeepsCredentials(d, d')
  }

  ghost predicate NoHalf(d: Disk, d': Disk) {
    forall a :: a in d.accounts ==> !HalfDeleted(d, d', a)
  }

  // ---- two kinds of write ----------------------------------------------------------------

  lemma PutCredentialInv(d: Disk, ring: Ring, h: History, a: Uuid, rec: Credential, d': Disk, h': History)
    requires StoreInv(d, ring, h) && a in d.accounts
    requires SealedAt(rec, a, d.accounts[a].deployment, ring.table)
    requires d' == d.(creds := d.creds[a := rec]) && h' == h.(ideal := h.ideal[a := IdealOf(rec)])
    requires rec.box.Some? ==> d.accounts[a].user.Some? && (rec.box.value.plain, d.accounts[a].user.value) in h.accepted
    ensures StoreInv(d', ring, h')
  {
    PutSealed(d, ring.table, a, rec, d');
    assert VerifiedTokens(d', h'.accepted) by {
      forall b | b in d'.creds && b in d'.accounts ensures VerifiedAt(d', b, h'.accepted) {
        if b != a { assert VerifiedAt(d, b, h.accepted); }
      }
    }
  }

  lemma PutSealed(d: Disk, table: map<Version, Key>, a: Uuid, rec: Credential, d': Disk)
    requires Sealed(d, table) && a in d.accounts && SealedAt(rec, a, d.accounts[a].deployment, table)
    requires d' == d.(creds := d.creds[a := rec])
    ensures Sealed(d', table)
  {
    forall b | b in d'.creds ensures b in d'.accounts && SealedAt(d'.creds[b], b, d'.accounts[b].deployment, table) {
      if b != a { assert d'.creds[b] == d.creds[b]; }
    }
  }

  lemma PutCredentialKeeps(d: Disk, h: History, a: Uuid, rec: Credential, d': Disk, h': History)
    requires d' == d.(creds := d.creds[a := rec]) && Grows(h, h') && Later(d, d', a)
    ensures Keeps(d, h, d', h') && NoHalf(d, d')
  {
    forall b | b in d.accounts ensures Later(d, d', b) {
      if b != a { assert Generation(d', b) == Generation(d, b) && StoredToken(d', b) == StoredToken(d, b); }
    }
  }

  /** Writing a credential record of the next generation, or of the same
      generation with the same token, keeps everything. */
  lemma PutCredential(d: Disk, ring: Ring, h: History, a: Uuid, rec: Credential, d': Disk, h': History)
    requires StoreInv(d, ring, h) && a in d.accounts
    requires SealedAt(rec, a, d.accounts[a].deployment, ring.table)
    requires d' == d.(creds := d.creds[a := rec]) && h' == h.(ideal := h.ideal[a := IdealOf(rec)])
    requires rec.box.Some? ==> d.accounts[a].user.Some? && (rec.box.value.plain, d.accounts[a].user.value) in h.accepted
    requires Later(d, d', a)
    ensures StoreInv(d', ring, h') && Keeps(d, h, d', h') && NoHalf(d, d')
  {
    PutCredentialInv(d, ring, h, a, rec, d', h');
    PutCredentialKeeps(d, h, a, rec, d', h');
  }

  lemma PutUnique(d: Disk, a: Uuid, acct: Account, d': Disk)
    requires UniqueBindings(d) && d' == d.(accounts := d.accounts[a := acct])
    requires acct.user.Some? ==> !DuplicateBinding(d, acct.deployment, acct.user.value, a)
    ensures UniqueBindings(d')
  {
    forall x, y | x in d'.accounts && y in d'.accounts && SameBinding(d'.accounts[x], d'.accounts[y]) ensures x == y {
      if x != a && y != a {
        assert SameBinding(d.accounts[x], d.accounts[y]);
      }
    }
  }

  lemma PutVerified(d: Disk, accepted: set<(Token, Uuid)>, a: Uuid, acct: Account, d': Disk)
    requires VerifiedTokens(d, accepted) && a in d.accounts && d' == d.(accounts := d.accounts[a := acct])
    requires d.accounts[a].user.Some? ==> acct.user == d.accounts[a].user
    ensures VerifiedTokens(d', accepted)
  {
    forall b | b in d'.creds && b in d'.accounts ensures VerifiedAt(d', b, accepted) {
      assert VerifiedAt(d, b, accepted);
    }
  }

  /** Rewriting an account record without unbinding it. */
  lemma PutAccount(d: Disk, ring: Ring, h: History, a: Uuid, acct: Account, d': Disk)
    requires StoreInv(d, ring, h) && a in d.accounts
    requires d' == d.(accounts := d.accounts[a := acct])
    requires acct.deployment == d.accounts[a].deployment
    requires d.accounts[a].user.Some? ==> acct.user == d.accounts[a].user
    requires acct.user.Some? ==> !DuplicateBinding(d, acct.deployment, acct.user.value, a)
    ensures StoreInv(d', ring, h) && Keeps(d, h, d', h) && NoHalf(d, d')
  {
    PutUnique(d, a, acct, d');
    PutVerified(d, h.accepted, a, acct, d');
    PutAccountKeeps(d, h, a, acct, d');
  }

  lemma PutAccountKeeps(d: Disk, h: History, a: Uuid, acct: Account, d': Disk)
    requires a in d.accounts && d' == d.(accounts := d.accounts[a := acct])
    requires acct.deployment == d.accounts[a].deployment
    requires d.accounts[a].user.Some? ==> acct.user == d.accounts[a].user
    ensures Keeps(d, h, d', h) && NoHalf(d, d')
  {
  }

  lemma NewAccount(d: Disk, ring: Ring, h: History, a: Uuid, acct: Account, d': Disk, h': History)
    requires StoreInv(d, ring, h) && a !in h.ids && a != NIL
    requires h' == h.(ids := h.ids + {a}) && (d' == d || d' == d.(accounts := d.accounts[a := acct]))
    requires acct.user.Some? ==> !DuplicateBinding(d, acct.deployment, acct.user.value, a)
    ensures StoreInv(d', ring, h') && Keeps(d, h, d', h') && NoHalf(d, d')
  {
    PutUnique(d, a, acct, d.(accounts := d.accounts[a := acct]));
  }

  lemma ComposeKeeps(d: Disk, d1: Disk, d2: Disk, h: History, h': History)
    requires Keeps(d, h, d1, h) && Keeps(d1, h, d2, h') && NoHalf(d, d1) && NoHalf(d1, d2)
    requires d1.accounts.Keys == d.accounts.Keys && d1.keys == d.keys && d1.creds == d.creds
    ensures Keeps(d, h, d2, h') && NoHalf(d, d2)
  {
  }

  // ---- one lemma per operation --------------------------------------------------------------

  lemma RebindKeeps(d: Disk, ring: Ring, h: History, req: ReplaceRequest)
    requires StoreInv(d, ring, h) && ReplaceRefusal(d, ring, req).None?
    ensures var d1 := d.(accounts := d.accounts[req.account := Bind(d.accounts[req.account], req.user, req.username)]);
            StoreInv(d1, ring, h) && Keeps(d, h, d1, h) && NoHalf(d, d1)
  {
    var acct := Bind(d.accounts[req.account], req.user, req.username);
    PutAccount(d, ring, h, req.account, acct, d.(accounts := d.accounts[req.account := acct]));
  }

  /** What ReplaceCredential leaves when both writes take effect. */
  lemma ReplaceShape(d: Disk, ring: Ring, req: ReplaceRequest, nonce: Nonce, second: Fate, d1: Disk, rec: Credential)
    requires ReplaceRefusal(d, ring, req).None? && second.Lands()
    requires d1 == d.(accounts := d.accounts[req.account := Bind(d.accounts[req.account], req.user, req.username)])
    requires rec == SealedRecord(ring.table[ring.active], ring.active, nonce,
                                 Binding(d.accounts[req.account].deployment, req.account, req.expected + 1), req.token)
    ensures Replace(d, ring, req, nonce, Done, second).disk == d1.(creds := d1.creds[req.account := rec])
  {
  }

  /** The credential write that follows the account write of a replace. */
  lemma NextCredential(d: Disk, ring: Ring, h: History, a: Uuid, token: Token, user: Uuid, rec: Credential)
    requires StoreInv(d, ring, h) && (token, user) in h.accepted && a in d.accounts && d.accounts[a].user == Some(user)
    requires SealedAt(rec, a, d.accounts[a].deployment, ring.table)
    requires IdealOf(rec) == IdealCred(Generation(d, a) + 1, Valid, Some(token))
    ensures var d', h' := d.(creds := d.creds[a := rec]), IdealReplace(h, true, a, token);
            StoreInv(d', ring, h') && Keeps(d, h, d', h') && NoHalf(d, d')
  {
    GenerationFloor(d, ring, h, a);
    PutCredential(d, ring, h, a, rec, d.(creds := d.creds[a := rec]), IdealReplace(h, true, a, token));
  }

  /** The account write and then the credential write. */
  lemma BothWrites(d: Disk, d1: Disk, ring: Ring, h: History, a: Uuid, token: Token, user: Uuid, rec: Credential)
    requires Keeps(d, h, d1, h) && NoHalf(d, d1)
    requires d1.accounts.Keys == d.accounts.Keys && d1.keys == d.keys && d1.creds == d.creds
    requires StoreInv(d1, ring, h) && (token, user) in h.accepted
    requires a in d1.accounts && d1.accounts[a].user == Some(user)
    requires SealedAt(rec, a, d1.accounts[a].deployment, ring.table)
    requires IdealOf(rec) == IdealCred(Generation(d1, a) + 1, Valid, Some(token))
    ensures var d2, h' := d1.(creds := d1.creds[a := rec]), IdealReplace(h, true, a, token);
            StoreInv(d2, ring, h') && Keeps(d, h, d2, h') && NoHalf(d, d2)
  {
    NextCredential(d1, ring, h, a, token, user, rec);
    ComposeKeeps(d, d1, d1.(creds := d1.creds[a := rec]), h, IdealReplace(h, true, a, token));
  }

  lemma ReplaceWrites(d: Disk, ring: Ring, h: History, req: ReplaceRequest, nonce: Nonce, second: Fate)
    requires StoreInv(d, ring, h) && (req.token, req.user) in h.accepted
    requires ReplaceRefusal(d, ring, req).None? && second.Lands()
    ensures var o := Replace(d, ring, req, nonce, Done, second);
            var h' := IdealReplace(h, true, req.account, req.token);
            StoreInv(o.disk, ring, h') && Keeps(d, h, o.disk, h') && NoHalf(d, o.disk)
  {
    var a := req.account;
    var d1 := d.(accounts := d.accounts[a := Bind(d.accounts[a], req.user, req.username)]);
    var rec := SealedRecord(ring.table[ring.active], ring.active, nonce,
                            Binding(d.accounts[a].deployment, a, req.expected + 1), req.token);
    GenerationFloor(d, ring, h, a);
    RebindKeeps(d, ring, h, req);
    BothWrites(d, d1, ring, h, a, req.token, req.user, rec);
    ReplaceShape(d, ring, req, nonce, second, d1, rec);
  }

  lemma GenerationFloor(d: Disk, ring: Ring, h: History, a: Uuid)
    requires StoreInv(d, ring, h)
    ensures Generation(d, a) == IdealGeneration(h.ideal, a) >= 0
  {
  }

  lemma ReplaceKeeps(d: Disk, ring: Ring, h: History, req: ReplaceRequest, nonce: Nonce, first: Fate, second: Fate)
    requires StoreInv(d, ring, h) && (req.token, req.user) in h.accepted
    ensures var o := Replace(d, ring, req, nonce, first, second);
            var h' := IdealReplace(h, o.renamed, req.account, req.token);
            StoreInv(o.disk, ring, h') && Keeps(d, h, o.disk, h') && NoHalf(d, o.disk)
  {
    if ReplaceRefusal(d, ring, req).None? && first.Lands() {
      if first.Done? && second.Lands() {
        ReplaceWrites(d, ring, h, req, nonce, second);
      } else {
        RebindKeeps(d, ring, h, req);
      }
    }
  }

  lemma MarkKeeps(d: Disk, ring: Ring, h: History, a: Uuid, g: int, fate: Fate)
    requires StoreInv(d, ring, h)
    ensures var o := MarkInvalid(d, a, g, fate);
            var h' := IdealMark(h, o.renamed, a);
            StoreInv(o.disk, ring, h') && Keeps(d, h, o.disk, h') && NoHalf(d, o.disk)
  {
    var o := MarkInvalid(d, a, g, fate);
    if o.renamed {
      assert VerifiedAt(d, a, h.accepted);
      PutCredential(d, ring, h, a, o.disk.creds[a], o.disk, IdealMark(h, true, a));
    }
  }

  lemma ClearKeeps(d: Disk, ring: Ring, h: History, a: Uuid, g: int, fate: Fate)
    requires StoreInv(d, ring, h)
    ensures var o := Clear(d, a, g, fate);
            var h' := IdealClear(h, o.renamed, a);
            StoreInv(o.disk, ring, h') && Keeps(d, h, o.disk, h') && NoHalf(d, o.disk)
  {
    var o := Clear(d, a, g, fate);
    if o.renamed {
      PutCredential(d, ring, h, a, o.disk.creds[a], o.disk, IdealClear(h, true, a));
    }
  }

  /** Rotation never changes a generation, a state or a token. */
  lemma ReencryptKeeps(d: Disk, ring: Ring, h: History, a: Uuid, nonce: Nonce, fate: Fate)
    requires StoreInv(d, ring, h)
    ensures var o := Reencrypt(d, ring, a, nonce, fate);
            StoreInv(o.disk, ring, h) && Keeps(d, h, o.disk, h) && NoHalf(d, o.disk)
  {
    var o := Reencrypt(d, ring, a, nonce, fate);
    if o.renamed {
      assert VerifiedAt(d, a, h.accepted);
      assert h == h.(ideal := h.ideal[a := IdealOf(o.disk.creds[a])]);
      PutCredential(d, ring, h, a, o.disk.creds[a], o.disk, h);
    }
  }

  lemma AddAccountKeeps(d: Disk, ring: Ring, h: History, id: Uuid, acct: Account, fate: Fate)
    requires StoreInv(d, ring, h) && id !in h.ids && id != NIL
    ensures var o := AddAccount(d, id, acct, fate);
            var h' := h.(ids := h.ids + {id});
            StoreInv(o.disk, ring, h') && Keeps(d, h, o.disk, h') && NoHalf(d, o.disk)
  {
    var o := AddAccount(d, id, acct, fate);
    if o.disk != d {
      NewAccount(d, ring, h, id, acct, o.disk, h.(ids := h.ids + {id}));
    }
  }

  lemma ResolveKeeps(d: Disk, ring: Ring, h: History, deployment: Uuid, user: Uuid, username: string,
                     hit: Option<Uuid>, newId: Uuid, fate: Fate)
    requires StoreInv(d, ring, h) && newId !in h.ids && newId != NIL && ScanResult(d, deployment, user, hit)
    ensures var o := LookupOrCreate(d, deployment, user, username, hit, newId, fate);
            var h' := h.(ids := h.ids + {newId});
            && StoreInv(o.disk, ring, h') && Keeps(d, h, o.disk, h') && NoHalf(d, o.disk)
            && (o.result.Ok? ==> o.result.value.id in o.disk.accounts
                                 && BoundTo(o.disk.accounts[o.result.value.id], deployment, user))
  {
    var o := LookupOrCreate(d, deployment, user, username, hit, newId, fate);
    if hit.Some? {
      if o.disk != d { PutAccount(d, ring, h, hit.value, o.disk.accounts[hit.value], o.disk); }
    } else {
      NewAccount(d, ring, h, newId, Account(deployment, Some(user), username, false, true), o.disk,
                 h.(ids := h.ids + {newId}));
    }
  }

  lemma EnableKeeps(d: Disk, ring: Ring, h: History, id: Uuid, enabled: bool, fate: Fate)
    requires StoreInv(d, ring, h)
    ensures var o := SetAccountEnabled(d, id, enabled, fate);
            StoreInv(o.disk, ring, h) && Keeps(d, h, o.disk, h) && NoHalf(d, o.disk)
  {
    var o := SetAccountEnabled(d, id, enabled, fate);
    if o.disk != d {
      PutAccount(d, ring, h, id, d.accounts[id].(enabled := enabled), o.disk);
    }
  }

  /** A change confined to the key directory. */
  lemma KeyOpsKeep(d: Disk, ring: Ring, h: History, d': Disk, h': History)
    requires StoreInv(d, ring, h) && d'.accounts == d.accounts && d'.creds == d.creds
    requires h.keyIds <= h'.keyIds && h' == h.(keyIds := h'.keyIds)
    requires Owned(d') && FreshIds(d', h') && KeepsKeys(d, d')
    ensures StoreInv(d', ring, h') && Keeps(d, h, d', h') && NoHalf(d, d')
  {
  }

  lemma PutKey(d: Disk, h: History, blob: Blob, rec: KeyRecord, d': Disk, h': History)
    requires Owned(d) && FreshIds(d, h) && d' == d.(keys := d.keys[blob := rec])
    requires rec.owner in d.accounts && rec.blob == blob
    requires h' == h.(keyIds := h.keyIds + {rec.id})
    requires if blob in d.keys then rec.id == d.keys[blob].id && rec.owner == d.keys[blob].owner
             else rec.id !in h.keyIds
    ensures Owned(d') && FreshIds(d', h') && KeepsKeys(d, d')
  {
    assert forall b | b in d'.keys && b != blob :: b in d.keys && d'.keys[b] == d.keys[b];
  }

  lemma AddKeyKeeps(d: Disk, ring: Ring, h: History, a: Uuid, blob: Blob, keyId: Uuid, fate: Fate)
    requires StoreInv(d, ring, h) && keyId !in h.keyIds
    ensures var o := AddKey(d, a, blob, keyId, fate);
            var h' := h.(keyIds := h.keyIds + {keyId});
            StoreInv(o.disk, ring, h') && Keeps(d, h, o.disk, h') && NoHalf(d, o.disk)
  {
    var d', h' := AddKey(d, a, blob, keyId, fate).disk, h.(keyIds := h.keyIds + {keyId});
    if a in d.accounts && blob !in d.keys && fate.Lands() {
      PutKey(d, h, blob, KeyRecord(keyId, a, blob, true), d', h');
    }
    KeyOpsKeep(d, ring, h, d', h');
  }

  lemma SetKeyEnabledKeeps(d: Disk, ring: Ring, h: History, blob: Blob, enabled: bool, fate: Fate)
    requires StoreInv(d, ring, h)
    ensures var o := SetKeyEnabled(d, blob, enabled, fate);
            StoreInv(o.disk, ring, h) && Keeps(d, h, o.disk, h) && NoHalf(d, o.disk)
  {
    var d' := SetKeyEnabled(d, blob, enabled, fate).disk;
    if blob in d.keys && fate.Lands() {
      assert h.keyIds == h.keyIds + {d.keys[blob].id};
      PutKey(d, h, blob, d.keys[blob].(enabled := enabled), d', h);
    }
    KeyOpsKeep(d, ring, h, d', h);
  }

  lemma DeleteKeyKeeps(d: Disk, ring: Ring, h: History, a: Uuid, name: Option<Blob>, fate: Fate)
    requires StoreInv(d, ring, h) && (name.Some? ==> name.value in d.keys)
    ensures var o := DeleteKey(d, a, name, fate);
            StoreInv(o.disk, ring, h) && Keeps(d, h, o.disk, h) && NoHalf(d, o.disk)
  {
    KeyOpsKeep(d, ring, h, DeleteKey(d, a, name, fate).disk, h);
  }

  /** `d'` lost records of `a` only, and its account record last. */
  ghost predicate Shrunk(d: Disk, a: Uuid, d': Disk) {
    && (forall b :: b in d'.keys ==>
          b in d.keys && d'.keys[b] == d.keys[b] && (a in d'.accounts || d.keys[b].owner != a))
    && (forall b :: b in d.keys && b !in d'.keys ==> d.keys[b].owner == a)
    && (forall b :: b in d'.creds ==> b in d.creds && d'.creds[b] == d.creds[b] && (a in d'.accounts || b != a))
    && (forall b :: b in d.creds && b !in d'.creds ==> b == a)
    && (forall b :: b in d'.accounts ==> b in d.accounts && d'.accounts[b] == d.accounts[b])
    && (forall b :: b in d.accounts && b !in d'.accounts ==> b == a)
  }

  lemma CascadeShape(d: Disk, a: Uuid, d': Disk)
    requires a in d.accounts && CascadePoint(d, a, d')
    ensures Shrunk(d, a, d')
  {
  }

  lemma ShrinkInv(d: Disk, ring: Ring, h: History, a: Uuid, d': Disk)
    requires StoreInv(d, ring, h) && Shrunk(d, a, d')
    ensures StoreInv(d', ring, if a in d'.creds then h else h.(ideal := h.ideal - {a}))
  {
    var ideal' := if a in d'.creds then h.ideal else h.ideal - {a};
    assert Sealed(d', ring.table);
    assert Owned(d');
    assert UniqueBindings(d');
    assert Mirrors(d', ideal');
    assert VerifiedTokens(d', h.accepted) by {
      forall b | b in d'.creds && b in d'.accounts ensures VerifiedAt(d', b, h.accepted) {
        assert VerifiedAt(d, b, h.accepted);
      }
    }
  }

  lemma ShrinkKeeps(d: Disk, h: History, a: Uuid, d': Disk, h': History)
    requires Shrunk(d, a, d') && Grows(h, h')
    ensures Keeps(d, h, d', h')
  {
  }

  /** Every crash point of the cascade keeps the directory consistent. */
  lemma CascadeKeeps(d: Disk, ring: Ring, h: History, a: Uuid, d': Disk)
    requires StoreInv(d, ring, h) && a in d.accounts && CascadePoint(d, a, d')
    ensures var h' := if a in d'.creds then h else h.(ideal := h.ideal - {a});
            StoreInv(d', ring, h') && Keeps(d, h, d', h')
  {
    CascadeShape(d, a, d');
    ShrinkInv(d, ring, h, a, d');
    ShrinkKeeps(d, h, a, d', if a in d'.creds then h else h.(ideal := h.ideal - {a}));
  }
}
