/** The records of the state directory, the ideal sealing of tokens, and the
    effect of every locked store operation as a function of the directory.

    A record write is a temp file, an fsync, a rename and a directory fsync: it
    can fail before the rename, or take effect and still report an error. */
module Records {
  import opened Texts

  type Token = string
  type Key = int
  type Version = string
  type Nonce = int
  /** Canonical public-key bytes; the key file is named by their digest, taken
      to be injective, so the directory of keys is indexed by the blob. */
  type Blob = string

  // ---- ideal authenticated encryption -----------------------------------------

  datatype Box = Box(key: Key, nonce: Nonce, aad: Binding, plain: Token)

  function Seal(key: Key, nonce: Nonce, plain: Token, aad: Binding): Box {
    Box(key, nonce, aad, plain)
  }

  function Open(key: Key, nonce: Nonce, box: Box, aad: Binding): (r: Option<Token>) {
    if box.key == key && box.nonce == nonce && box.aad == aad then Some(box.plain) else None
  }

  /** Comparing bindings is comparing the authenticated text. */
  lemma OpenChecksText(key: Key, nonce: Nonce, box: Box, aad: Binding)
    ensures Open(key, nonce, box, aad).Some? <==>
            key == box.key && nonce == box.nonce && CredentialAad(aad) == CredentialAad(box.aad)
  {
    if CredentialAad(aad) == CredentialAad(box.aad) {
      CredentialAadInjective(aad, box.aad);
    }
  }

  // ---- records -------------------------------------------------------------------

  datatype CredState = Missing | Unknown | Valid | Invalid | Unrecognized

  datatype Account = Account(deployment: Uuid, user: Option<Uuid>, username: string, bindOnFirst: bool, enabled: bool)

  datatype KeyRecord = KeyRecord(id: Uuid, owner: Uuid, blob: Blob, enabled: bool)

  datatype Credential = Credential(account: Uuid, generation: int, state: CredState,
                                   version: Option<Version>, nonce: Option<Nonce>, box: Option<Box>)

  datatype Disk = Disk(accounts: map<Uuid, Account>, keys: map<Blob, KeyRecord>, creds: map<Uuid, Credential>)

  /** The key provider: a table of key versions and the active version. */
  datatype Ring = Ring(table: map<Version, Key>, active: Version)

  datatype Snapshot = Snapshot(account: Uuid, generation: int, state: CredState, token: Option<Token>)

  datatype Error =
    | AccountNotFound | AccountExists | AccountDisabled | DuplicateUser | WrongIdentity
    | GenerationConflict | Corrupt | KeyUnavailable | DecryptFailed | DuplicateKey
    | KeyNotFound | UnknownKey | WriteFailed

  datatype Result<+T> = Ok(value: T) | Err(error: Error)

  /** What became of one durable write or unlink. */
  datatype Fate = Done | NotDone | DoneThenError {
    predicate Lands() { !NotDone? }
  }

  datatype Outcome<+T> = Outcome(disk: Disk, result: Result<T>, renamed: bool)

  function Settle<T>(fate: Fate, value: T): Result<T> {
    if fate.Done? then Ok(value) else Err(WriteFailed)
  }

  // ---- credential operations -------------------------------------------------------

  /** validateCredentialRecord. */
  predicate ValidRecord(rec: Credential) {
    && !rec.state.Unrecognized?
    && (rec.state.Missing? <==> rec.box.None?)
    && (rec.box.Some? ==> rec.version.Some? && rec.nonce.Some?)
  }

  /** The generation on file, zero when no record was ever written. */
  function Generation(d: Disk, a: Uuid): int {
    if a in d.creds then d.creds[a].generation else 0
  }

  function StoredToken(d: Disk, a: Uuid): Option<Token> {
    if a in d.creds && d.creds[a].box.Some? then Some(d.creds[a].box.value.plain) else None
  }

  function LoadCredential(d: Disk, ring: Ring, a: Uuid): (r: Result<Snapshot>)
  {
    if a !in d.creds then Ok(Snapshot(a, 0, Missing, None))
    else
      var rec := d.creds[a];
      if !ValidRecord(rec) || rec.account != a then Err(Corrupt)
      else if rec.state.Missing? then Ok(Snapshot(a, rec.generation, Missing, None))
      else if a !in d.accounts then Err(AccountNotFound)
      else if rec.version.value !in ring.table then Err(KeyUnavailable)
      else
        match Open(ring.table[rec.version.value], rec.nonce.value, rec.box.value,
                   Binding(d.accounts[a].deployment, a, rec.generation))
        case None => Err(DecryptFailed)
        case Some(token) => Ok(Snapshot(a, rec.generation, rec.state, Some(token)))
  }

  /** checkDuplicateCoderUserLocked, as the condition its scan decides. */
  ghost predicate DuplicateBinding(d: Disk, deployment: Uuid, user: Uuid, exclude: Uuid) {
    exists b :: b in d.accounts && b != exclude && BoundTo(d.accounts[b], deployment, user)
  }

  datatype ReplaceRequest = ReplaceRequest(account: Uuid, expected: int, token: Token, user: Uuid, username: string)

  /** The checks of ReplaceCredential before anything is written. */
  ghost function ReplaceRefusal(d: Disk, ring: Ring, req: ReplaceRequest): (r: Option<Error>) {
    if req.account !in d.accounts then Some(AccountNotFound)
    else
      var acct := d.accounts[req.account];
      if !acct.enabled then Some(AccountDisabled)
      else if req.user == NIL then Some(WrongIdentity)
      else if acct.user.None? && !acct.bindOnFirst then Some(WrongIdentity)
      else if acct.user.Some? && acct.user.value != req.user then Some(WrongIdentity)
      else if req.account in d.creds && !ValidRecord(d.creds[req.account]) then Some(Corrupt)
      else if Generation(d, req.account) != req.expected then Some(GenerationConflict)
      else if ring.active !in ring.table then Some(KeyUnavailable)
      else if DuplicateBinding(d, acct.deployment, req.user, req.account) then Some(DuplicateUser)
      else None
  }

  function Bind(acct: Account, user: Uuid, username: string): Account {
    acct.(user := Some(user), username := username)
  }

  function SealedRecord(key: Key, version: Version, nonce: Nonce, b: Binding, token: Token): Credential {
    Credential(b.account, b.generation, Valid, Some(version), Some(nonce), Some(Seal(key, nonce, token, b)))
  }

  /** ReplaceCredential: the account record is written first, the credential
      record second; `first` and `second` are the fates of the two writes. */
  ghost function Replace(d: Disk, ring: Ring, req: ReplaceRequest, nonce: Nonce, first: Fate, second: Fate)
    : (r: Outcome<Snapshot>)
  {
    var refusal := ReplaceRefusal(d, ring, req);
    if refusal.Some? then Outcome(d, Err(refusal.value), false)
    else
      var a, acct := req.account, d.accounts[req.account];
      var d1 := if first.Lands() then d.(accounts := d.accounts[a := Bind(acct, req.user, req.username)]) else d;
      if !first.Done? then Outcome(d1, Err(WriteFailed), false)
      else
        var g := req.expected + 1;
        var rec := SealedRecord(ring.table[ring.active], ring.active, nonce, Binding(acct.deployment, a, g), req.token);
        var d2 := if second.Lands() then d1.(creds := d1.creds[a := rec]) else d1;
        Outcome(d2, Settle(second, Snapshot(a, g, Valid, None)), second.Lands())
  }

  /** MarkCredentialInvalid: silent on an absent record or another generation. */
  function MarkInvalid(d: Disk, a: Uuid, expected: int, fate: Fate): (r: Outcome<()>)
  {
    if a !in d.creds then Outcome(d, Ok(()), false)
    else if !ValidRecord(d.creds[a]) then Outcome(d, Err(Corrupt), false)
    else if d.creds[a].generation != expected then Outcome(d, Ok(()), false)
    else
      var d' := if fate.Lands() then d.(creds := d.creds[a := d.creds[a].(state := Invalid)]) else d;
      Outcome(d', Settle(fate, ()), fate.Lands())
  }

  function Tombstone(a: Uuid, generation: int): Credential {
    Credential(a, generation, Missing, None, None, None)
  }

  /** ClearCredential: a tombstone of the next generation. */
  function Clear(d: Disk, a: Uuid, expected: int, fate: Fate): (r: Outcome<()>)
  {
    if a !in d.accounts then Outcome(d, Err(AccountNotFound), false)
    else if a in d.creds && !ValidRecord(d.creds[a]) then Outcome(d, Err(Corrupt), false)
    else if Generation(d, a) != expected then Outcome(d, Err(GenerationConflict), false)
    else
      var rec := Tombstone(a, expected + 1);
      Outcome(if fate.Lands() then d.(creds := d.creds[a := rec]) else d, Settle(fate, ()), fate.Lands())
  }

  /** reencryptOneLocked on the credential file of account `name`. */
  function Reencrypt(d: Disk, ring: Ring, name: Uuid, nonce: Nonce, fate: Fate): (r: Outcome<()>)
  {
    if name !in d.creds then Outcome(d, Err(Corrupt), false)
    else
      var rec := d.creds[name];
      if ring.active !in ring.table then Outcome(d, Err(KeyUnavailable), false)
      else if !ValidRecord(rec) then Outcome(d, Err(Corrupt), false)
      else if rec.box.None? || rec.version.value == ring.active then Outcome(d, Ok(()), false)
      else if rec.account !in d.accounts then Outcome(d, Err(AccountNotFound), false)
      else if rec.version.value !in ring.table then Outcome(d, Err(KeyUnavailable), false)
      else
        var aad := Binding(d.accounts[rec.account].deployment, rec.account, rec.generation);
        match Open(ring.table[rec.version.value], rec.nonce.value, rec.box.value, aad)
        case None => Outcome(d, Err(DecryptFailed), false)
        case Some(token) =>
          var rec' := rec.(version := Some(ring.active), nonce := Some(nonce),
                           box := Some(Seal(ring.table[ring.active], nonce, token, aad)));
          Outcome(if fate.Lands() then d.(creds := d.creds[name := rec']) else d, Settle(fate, ()), fate.Lands())
  }

  // ---- accounts and keys ---------------------------------------------------------------

  ghost function AddAccount(d: Disk, id: Uuid, acct: Account, fate: Fate): (r: Outcome<()>)
  {
    if id in d.accounts then Outcome(d, Err(AccountExists), false)
    else if acct.user.Some? && DuplicateBinding(d, acct.deployment, acct.user.value, NIL)
    then Outcome(d, Err(DuplicateUser), false)
    else Outcome(if fate.Lands() then d.(accounts := d.accounts[id := acct]) else d, Settle(fate, ()), false)
  }

  function SetAccountEnabled(d: Disk, id: Uuid, enabled: bool, fate: Fate): (r: Outcome<()>)
  {
    if id !in d.accounts then Outcome(d, Err(AccountNotFound), false)
    else Outcome(if fate.Lands() then d.(accounts := d.accounts[id := d.accounts[id].(enabled := enabled)]) else d,
                 Settle(fate, ()), false)
  }

  datatype Found = Found(id: Uuid, account: Account, created: bool)

  predicate BoundTo(acct: Account, deployment: Uuid, user: Uuid) {
    acct.deployment == deployment && acct.user == Some(user)
  }

  /** LookupOrCreateAccountByCoderID when its scan stops at account `hit`, or
      finds none and creates `newId`. */
  function LookupOrCreate(d: Disk, deployment: Uuid, user: Uuid, username: string,
                          hit: Option<Uuid>, newId: Uuid, fate: Fate): (r: Outcome<Found>)
    requires hit.Some? ==> hit.value in d.accounts
  {
    match hit
    case Some(id) =>
      var acct := d.accounts[id];
      if acct.username == username then Outcome(d, Ok(Found(id, acct, false)), false)
      else
        var acct' := acct.(username := username);
        Outcome(if fate.Lands() then d.(accounts := d.accounts[id := acct']) else d,
                Settle(fate, Found(id, acct', false)), false)
    case None =>
      var acct := Account(deployment, Some(user), username, false, true);
      Outcome(if fate.Lands() then d.(accounts := d.accounts[newId := acct]) else d,
              Settle(fate, Found(newId, acct, true)), false)
  }

  /** What the scan of LookupOrCreateAccountByCoderID may stop at. */
  ghost predicate ScanResult(d: Disk, deployment: Uuid, user: Uuid, hit: Option<Uuid>) {
    match hit
    case Some(id) => id in d.accounts && BoundTo(d.accounts[id], deployment, user)
    case None => forall b :: b in d.accounts ==> !BoundTo(d.accounts[b], deployment, user)
  }

  function AddKey(d: Disk, a: Uuid, blob: Blob, keyId: Uuid, fate: Fate): (r: Outcome<KeyRecord>)
  {
    if a !in d.accounts then Outcome(d, Err(AccountNotFound), false)
    else if blob in d.keys then Outcome(d, Err(DuplicateKey), false)
    else
      var rec := KeyRecord(keyId, a, blob, true);
      Outcome(if fate.Lands() then d.(keys := d.keys[blob := rec]) else d, Settle(fate, rec), false)
  }

  function SetKeyEnabled(d: Disk, name: Blob, enabled: bool, fate: Fate): (r: Outcome<()>)
  {
    if name !in d.keys then Outcome(d, Err(KeyNotFound), false)
    else Outcome(if fate.Lands() then d.(keys := d.keys[name := d.keys[name].(enabled := enabled)]) else d,
                 Settle(fate, ()), false)
  }

  /** DeleteKey when its scan for the key ID stops at file `name`, or at none. */
  function DeleteKey(d: Disk, a: Uuid, name: Option<Blob>, fate: Fate): (r: Outcome<()>)
    requires name.Some? ==> name.value in d.keys
  {
    if name.None? || d.keys[name.value].owner != a then Outcome(d, Err(KeyNotFound), false)
    else if d.keys[name.value].blob != name.value then Outcome(d, Err(Corrupt), false)
    else Outcome(if fate.Lands() then d.(keys := d.keys - {name.value}) else d, Settle(fate, ()), false)
  }

  /** LookupByPublicKey. */
  function LookupByPublicKey(d: Disk, deployment: Uuid, blob: Blob): (r: Result<(Uuid, KeyRecord)>)
  {
    if blob !in d.keys || !d.keys[blob].enabled then Err(UnknownKey)
    else
      var rec := d.keys[blob];
      if rec.owner !in d.accounts then Err(Corrupt)
      else if d.accounts[rec.owner].deployment != deployment then Err(UnknownKey)
      else if !d.accounts[rec.owner].enabled then Err(AccountDisabled)
      else Ok((rec.owner, rec))
  }

  // ---- the cascade of DeleteAccount ---------------------------------------------------------

  ghost function KeysOf(d: Disk, a: Uuid): set<Blob> {
    set b | b in d.keys && d.keys[b].owner == a
  }

  /** The directory once the cascade has run to its end. */
  ghost function Cascade(d: Disk, a: Uuid): Disk {
    Disk(d.accounts - {a}, d.keys - KeysOf(d, a), d.creds - {a})
  }

  /** Everything the directory can look like between the first and the last
      unlink: some keys gone; then all keys and the credential; then all. */
  ghost predicate CascadePoint(d: Disk, a: Uuid, d': Disk) {
    || (exists gone :: gone <= KeysOf(d, a) && d' == d.(keys := d.keys - gone))
    || d' == d.(keys := d.keys - KeysOf(d, a), creds := d.creds - {a})
    || d' == Cascade(d, a)
  }
}
