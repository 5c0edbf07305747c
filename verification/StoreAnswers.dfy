/** What the store answers and leaves behind, said through what its readers see:
    loads, key lookups and the account records. */
module StoreAnswers {
  import opened Texts
  import opened Records
  import opened Protocol
  import opened StoreInvariant
  import opened ProtocolInvariant

  // ---- replacing a credential ------------------------------------------------------------

  /** The account may take a token of `user`: it exists, it is enabled, and it
      is bound to that user or waits for its first one. */
  predicate MayReplace(d: Disk, a: Uuid, user: Uuid) {
    && a in d.accounts && d.accounts[a].enabled && user != NIL
    && (d.accounts[a].user == Some(user) || (d.accounts[a].user.None? && d.accounts[a].bindOnFirst))
  }

  ghost predicate BoundElsewhere(d: Disk, a: Uuid, user: Uuid)
    requires a in d.accounts
  {
    exists b :: b in d.accounts && b != a && BoundTo(d.accounts[b], d.accounts[a].deployment, user)
  }

  /** Nothing changes for an account that may not take the token, whatever
      becomes of the writes. */
  lemma ReplaceChangesOnlyWhenAllowed(d: Disk, ring: Ring, req: ReplaceRequest, nonce: Nonce, first: Fate, second: Fate)
    ensures var o := Replace(d, ring, req, nonce, first, second);
            !MayReplace(d, req.account, req.user) ==> o.disk == d && o.result.Err? && !o.renamed
  {
  }

  /** When both writes work, a replace succeeds iff the account may take the
      token, the generation that loads is the expected one, the active key is
      at hand and no other account has the user. */
  lemma ReplaceSucceedsIff(d: Disk, ring: Ring, req: ReplaceRequest, nonce: Nonce)
    requires LoadCredential(d, ring, req.account).Ok?
    ensures Replace(d, ring, req, nonce, Done, Done).result.Ok? <==>
              && MayReplace(d, req.account, req.user) && !BoundElsewhere(d, req.account, req.user)
              && LoadCredential(d, ring, req.account).value.generation == req.expected && ring.active in ring.table
  {
  }

  /** After success the token loads under the next generation, the account is
      bound to its user, and no other account loads differently. */
  lemma ReplacedLoads(d: Disk, ring: Ring, req: ReplaceRequest, nonce: Nonce, first: Fate, second: Fate)
    requires Replace(d, ring, req, nonce, first, second).result.Ok?
    ensures var d' := Replace(d, ring, req, nonce, first, second).disk;
            && LoadCredential(d', ring, req.account)
               == Ok(Snapshot(req.account, req.expected + 1, Valid, Some(req.token)))
            && d'.accounts[req.account] == d.accounts[req.account].(user := Some(req.user), username := req.username)
            && d'.keys == d.keys
  {
  }

  lemma ReplaceLeavesOthers(d: Disk, ring: Ring, req: ReplaceRequest, nonce: Nonce, first: Fate, second: Fate, b: Uuid)
    requires b != req.account
    ensures var d' := Replace(d, ring, req, nonce, first, second).disk;
            LoadCredential(d', ring, b) == LoadCredential(d, ring, b)
            && (b in d'.accounts <==> b in d.accounts) && (b in d.accounts ==> d'.accounts[b] == d.accounts[b])
  {
  }

  /** In no run does a client's replace touch a disabled account. */
  lemma DisabledNeverReplaced(s: System, act: Action, s': System)
    requires Next(s, act, s') && act.Replacing? && Replacer(Acting(s, act))
    ensures var a := Acting(s, act).account;
            a !in s.disk.accounts || !s.disk.accounts[a].enabled ==> s'.disk == s.disk
  {
    var p := Acting(s, act);
    ReplaceChangesOnlyWhenAllowed(s.disk, s.ring, RequestOf(p, act.username), act.nonce, act.first, act.second);
  }

  // ---- re-encryption -----------------------------------------------------------------------

  /** Re-sealing a record that loads cannot fail but for its write. */
  lemma ReencryptSucceeds(d: Disk, ring: Ring, a: Uuid, nonce: Nonce)
    requires a in d.creds && LoadCredential(d, ring, a).Ok? && ring.active in ring.table
    ensures Reencrypt(d, ring, a, nonce, Done).result.Ok?
  {
  }

  /** Whatever changes a stored ciphertext seals it under the active key and the
      nonce drawn for that write. */
  lemma SealedWithNewNonce(d: Disk, ring: Ring, a: Uuid, nonce: Nonce, fate: Fate)
    ensures var o := Reencrypt(d, ring, a, nonce, fate);
            o.renamed ==> a in o.disk.creds && SealedNow(o.disk.creds[a], ring, nonce)
    ensures forall req: ReplaceRequest, first :: req.account == a ==>
              var o := Replace(d, ring, req, nonce, first, fate);
              o.renamed ==> a in o.disk.creds && SealedNow(o.disk.creds[a], ring, nonce)
  {
  }

  predicate SealedNow(rec: Credential, ring: Ring, nonce: Nonce) {
    && rec.version == Some(ring.active) && rec.nonce == Some(nonce) && ring.active in ring.table
    && rec.box.Some? && rec.box.value.key == ring.table[ring.active] && rec.box.value.nonce == nonce
  }

  // ---- accounts ------------------------------------------------------------------------------

  ghost predicate UserTaken(d: Disk, acct: Account) {
    acct.user.Some? && exists b :: b in d.accounts && BoundTo(d.accounts[b], acct.deployment, acct.user.value)
  }

  /** An account is added iff its UUID is new and its user is bound nowhere in
      the deployment. */
  lemma AccountAddedIff(d: Disk, id: Uuid, acct: Account)
    requires NIL !in d.accounts
    ensures var o := AddAccount(d, id, acct, Done);
            && (o.result.Ok? <==> id !in d.accounts && !UserTaken(d, acct))
            && (o.result.Ok? ==> id in o.disk.accounts && o.disk.accounts[id] == acct)
            && (o.result.Err? ==> o.disk == d)
  {
  }

  /** The account that an enrollment gets is on file, bound to the identity; a
      new one is enabled and can take the identity's token at once. */
  lemma ResolvedAccountWorks(d: Disk, deployment: Uuid, user: Uuid, username: string, hit: Option<Uuid>, newId: Uuid)
    requires ScanResult(d, deployment, user, hit) && newId !in d.accounts && user != NIL
    ensures var o := LookupOrCreate(d, deployment, user, username, hit, newId, Done);
            && o.result.Ok?
            && o.result.value.created == (forall b :: b in d.accounts ==> !BoundTo(d.accounts[b], deployment, user))
            && o.result.value.id in o.disk.accounts && o.disk.accounts[o.result.value.id] == o.result.value.account
            && BoundTo(o.result.value.account, deployment, user) && o.result.value.account.username == username
            && (o.result.value.created ==> o.result.value.id == newId && MayReplace(o.disk, newId, user))
            && (!o.result.value.created ==> o.disk.accounts.Keys == d.accounts.Keys)
            && o.disk.keys == d.keys && o.disk.creds == d.creds
  {
  }

  // ---- keys ---------------------------------------------------------------------------------------

  /** A key authenticates iff it is enabled and its account exists, is enabled
      and belongs to the deployment; it then does so as its owner. */
  lemma AuthenticatesIff(d: Disk, deployment: Uuid, blob: Blob, a: Uuid, rec: KeyRecord)
    ensures LookupByPublicKey(d, deployment, blob) == Ok((a, rec)) <==>
              && blob in d.keys && rec == d.keys[blob] && rec.enabled && rec.owner == a
              && a in d.accounts && d.accounts[a].enabled && d.accounts[a].deployment == deployment
  {
  }

  /** A disabled key is an unknown key; the others answer as before, and enabling
      it again restores its answer. */
  lemma DisabledKeyIsUnknown(d: Disk, blob: Blob, fate: Fate, deployment: Uuid, other: Blob)
    requires blob in d.keys && fate.Lands()
    ensures var d' := SetKeyEnabled(d, blob, false, fate).disk;
            && LookupByPublicKey(d', deployment, blob) == Err(UnknownKey)
            && (other != blob ==> LookupByPublicKey(d', deployment, other) == LookupByPublicKey(d, deployment, other))
            && (d.keys[blob].enabled ==> SetKeyEnabled(d', blob, true, fate).disk == d)
  {
    var d' := SetKeyEnabled(d, blob, false, fate).disk;
    if d.keys[blob].enabled {
      assert d'.keys[blob := d'.keys[blob].(enabled := true)] == d.keys;
    }
  }

  /** After an account was disabled its enabled keys say so, in its deployment,
      and nothing authenticates as the account; enabling it again undoes that. */
  lemma DisabledAccountIsRefused(d: Disk, a: Uuid, fate: Fate, deployment: Uuid, blob: Blob)
    requires a in d.accounts && fate.Lands()
    ensures var d' := SetAccountEnabled(d, a, false, fate).disk;
            && (blob in d.keys && d.keys[blob].owner == a && d.keys[blob].enabled ==>
                  LookupByPublicKey(d', d.accounts[a].deployment, blob) == Err(AccountDisabled))
            && (LookupByPublicKey(d', deployment, blob).Ok? ==> LookupByPublicKey(d', deployment, blob).value.0 != a)
            && (d.accounts[a].enabled ==> SetAccountEnabled(d', a, true, fate).disk == d)
  {
    var d' := SetAccountEnabled(d, a, false, fate).disk;
    if d.accounts[a].enabled {
      assert d'.accounts[a := d'.accounts[a].(enabled := true)] == d.accounts;
    }
  }

  /** A deleted key is an unknown key, and no other answers differently. */
  lemma DeletedKeyIsUnknown(d: Disk, a: Uuid, blob: Blob, deployment: Uuid, other: Blob)
    requires blob in d.keys && d.keys[blob].blob == blob
    ensures var o := DeleteKey(d, a, Some(blob), Done);
            && (o.result.Ok? <==> d.keys[blob].owner == a) && (o.result.Err? ==> o.disk == d)
            && (o.result.Ok? ==> LookupByPublicKey(o.disk, deployment, blob) == Err(UnknownKey))
            && (other != blob ==>
                  LookupByPublicKey(o.disk, deployment, other) == LookupByPublicKey(d, deployment, other))
  {
  }

  /** A finished deletion leaves nothing of the account: no record, nothing to
      load, and no key that authenticates as it. */
  lemma DeletionIsComplete(d: Disk, ring: Ring, a: Uuid, deployment: Uuid, blob: Blob)
    ensures var d' := Cascade(d, a);
            && a !in d'.accounts && a !in d'.creds && (forall b :: b in d'.keys ==> d'.keys[b].owner != a)
            && LoadCredential(d', ring, a) == Ok(Snapshot(a, 0, Missing, None))
            && var r := LookupByPublicKey(d', deployment, blob); r.Ok? ==> r.value.0 != a
  {
  }

  // ---- along runs --------------------------------------------------------------------------------

  /** The step enables key `b`. */
  predicate EnablesKey(act: Action, b: Blob) {
    act.EnablingKey? && act.blob == b && act.enabled && act.fate.Lands()
  }

  predicate KeyOff(d: Disk, b: Blob) { b in d.keys && !d.keys[b].enabled }

  lemma KeyStaysOffUnderAdmin(s: System, act: Action, s': System, b: Blob)
    requires AdminNext(s, act, s') && KeyOff(s.disk, b) && b in s'.disk.keys && !EnablesKey(act, b)
    ensures KeyOff(s'.disk, b)
  {
    if act.DeletingAccount? {
      CascadeShape(s.disk, act.id, act.after);
    }
  }

  lemma KeyStaysOffUnderClients(s: System, act: Action, s': System, b: Blob)
    requires ClientNext(s, act, s') && KeyOff(s.disk, b) && b in s'.disk.keys
    ensures KeyOff(s'.disk, b)
  {
  }

  lemma KeyStaysOff(s: System, act: Action, s': System, b: Blob)
    requires Next(s, act, s') && KeyOff(s.disk, b) && b in s'.disk.keys && !EnablesKey(act, b)
    ensures KeyOff(s'.disk, b)
  {
    if AdminNext(s, act, s') {
      KeyStaysOffUnderAdmin(s, act, s', b);
    } else {
      KeyStaysOffUnderClients(s, act, s', b);
    }
  }

  /** A key that was disabled and neither enabled nor deleted since stays
      disabled: no lookup finds it, in any deployment. */
  lemma {:induction false} DisabledKeyStaysUnknown(ss: seq<System>, acts: seq<Action>, i: nat, j: nat, b: Blob)
    requires Steps(ss, acts) && i < j < |ss|
    requires acts[i].EnablingKey? && acts[i].blob == b && !acts[i].enabled && acts[i].fate.Lands()
    requires forall k :: i <= k <= j ==> b in ss[k].disk.keys
    requires forall k :: i < k < j ==> !EnablesKey(acts[k], b)
    ensures KeyOff(ss[j].disk, b)
    ensures forall deployment :: LookupByPublicKey(ss[j].disk, deployment, b) == Err(UnknownKey)
    decreases j
  {
    assert Next(ss[j - 1], acts[j - 1], ss[j]);
    if i + 1 < j {
      DisabledKeyStaysUnknown(ss, acts, i, j - 1, b);
      KeyStaysOff(ss[j - 1], acts[j - 1], ss[j], b);
    }
  }

  /** An enrollment cannot link, or link again, a key that is disabled. */
  lemma DisabledKeyNeverLinks(s: System, act: Action, s': System)
    requires Next(s, act, s') && act.Linking? && KeyOff(s.disk, Acting(s, act).job.blob)
    ensures !Acting(s', act).EnrollDone? && s'.disk == s.disk
  {
  }

  predicate EnablesAccount(act: Action, a: Uuid) {
    act.EnablingAccount? && act.id == a && act.enabled && act.fate.Lands()
  }

  predicate AccountOff(d: Disk, a: Uuid) { a in d.accounts && !d.accounts[a].enabled }

  lemma AccountStaysOffUnderAdmin(s: System, act: Action, s': System, a: Uuid)
    requires AdminNext(s, act, s') && AccountOff(s.disk, a) && a in s'.disk.accounts && !EnablesAccount(act, a)
    ensures AccountOff(s'.disk, a)
  {
    if act.DeletingAccount? {
      CascadeShape(s.disk, act.id, act.after);
    }
  }

  lemma AccountStaysOffUnderClients(s: System, act: Action, s': System, a: Uuid)
    requires a in s.h.ids && ClientNext(s, act, s') && AccountOff(s.disk, a) && a in s'.disk.accounts
    ensures AccountOff(s'.disk, a)
  {
    if act.Replacing? {
      var p := s.procs[act.pid];
      ReplaceChangesOnlyWhenAllowed(s.disk, s.ring, RequestOf(p, act.username), act.nonce, act.first, act.second);
      if p.account != a {
        ReplaceLeavesOthers(s.disk, s.ring, RequestOf(p, act.username), act.nonce, act.first, act.second, a);
      }
    }
  }

  lemma AccountStaysOff(s: System, act: Action, s': System, a: Uuid)
    requires a in s.h.ids && Next(s, act, s') && AccountOff(s.disk, a)
    requires a in s'.disk.accounts && !EnablesAccount(act, a)
    ensures AccountOff(s'.disk, a)
  {
    if AdminNext(s, act, s') {
      AccountStaysOffUnderAdmin(s, act, s', a);
    } else {
      AccountStaysOffUnderClients(s, act, s', a);
    }
  }

  lemma AccountOffAnswers(d: Disk, a: Uuid)
    requires AccountOff(d, a)
    ensures forall deployment, blob :: var r := LookupByPublicKey(d, deployment, blob); r.Ok? ==> r.value.0 != a
  {
  }

  lemma OnFileHasId(ss: seq<System>, acts: seq<Action>, j: nat, a: Uuid)
    requires Run(ss, acts) && j < |ss| && a in ss[j].disk.accounts
    ensures a in ss[j].h.ids
  {
    RunInv(ss, acts, j);
  }

  lemma AccountOffNext(ss: seq<System>, acts: seq<Action>, j: nat, a: Uuid)
    requires Run(ss, acts) && j < |acts| && AccountOff(ss[j].disk, a) && a in ss[j + 1].disk.accounts
    requires !EnablesAccount(acts[j], a)
    ensures AccountOff(ss[j + 1].disk, a)
  {
    OnFileHasId(ss, acts, j, a);
    assert Next(ss[j], acts[j], ss[j + 1]);
    AccountStaysOff(ss[j], acts[j], ss[j + 1], a);
  }

  lemma {:induction false} AccountOffThroughout(ss: seq<System>, acts: seq<Action>, i: nat, j: nat, a: Uuid)
    requires Run(ss, acts) && i <= j < |ss| && AccountOff(ss[i].disk, a)
    requires forall k :: i <= k <= j ==> a in ss[k].disk.accounts
    requires forall k :: i <= k < j ==> !EnablesAccount(acts[k], a)
    ensures AccountOff(ss[j].disk, a)
    decreases j
  {
    if i < j {
      AccountOffThroughout(ss, acts, i, j - 1, a);
      AccountOffNext(ss, acts, j - 1, a);
    }
  }

  lemma DisablingTurnsOff(s: System, act: Action, s': System, a: Uuid)
    requires Next(s, act, s') && act.EnablingAccount? && act.id == a && !act.enabled && act.fate.Lands()
    requires a in s.disk.accounts
    ensures AccountOff(s'.disk, a)
  {
  }

  /** An account that was disabled and not enabled since stays disabled: no key
      authenticates as it, and by DisabledNeverReplaced no client stores a token
      for it. */
  lemma DisabledAccountStaysOut(ss: seq<System>, acts: seq<Action>, i: nat, j: nat, a: Uuid)
    requires Run(ss, acts) && i < j < |ss|
    requires acts[i].EnablingAccount? && acts[i].id == a && !acts[i].enabled && acts[i].fate.Lands()
    requires forall k :: i <= k <= j ==> a in ss[k].disk.accounts
    requires forall k :: i < k < j ==> !EnablesAccount(acts[k], a)
    ensures AccountOff(ss[j].disk, a)
    ensures forall deployment, blob :: var r := LookupByPublicKey(ss[j].disk, deployment, blob);
                                       r.Ok? ==> r.value.0 != a
  {
    assert Next(ss[i], acts[i], ss[i + 1]);
    DisablingTurnsOff(ss[i], acts[i], ss[i + 1], a);
    AccountOffThroughout(ss, acts, i + 1, j, a);
    AccountOffAnswers(ss[j].disk, a);
  }

  /** What a renewal has checked of a token before it submits it. */
  ghost predicate TokenFits(p: Proc) {
    p.RenewalVerified? ==> p.copy.user == Some(p.user) || (p.copy.user.None? && p.copy.bindOnFirst)
  }

  lemma TokenFitsStep(s: System, act: Action, s': System, pid: nat)
    requires Next(s, act, s') && pid in s'.procs && (pid in s.procs ==> TokenFits(s.procs[pid]))
    ensures TokenFits(s'.procs[pid])
  {
  }

  /** In no run does a renewal submit a token of a user other than the one its
      session's account is bound to. */
  lemma {:induction false} ForeignTokenNeverSubmitted(ss: seq<System>, acts: seq<Action>, i: nat, pid: nat)
    requires Run(ss, acts) && i < |ss| && pid in ss[i].procs
    ensures TokenFits(ss[i].procs[pid])
  {
    if i > 0 {
      assert Next(ss[i - 1], acts[i - 1], ss[i]);
      if pid in ss[i - 1].procs {
        ForeignTokenNeverSubmitted(ss, acts, i - 1, pid);
      }
      TokenFitsStep(ss[i - 1], acts[i - 1], ss[i], pid);
    }
  }
}
