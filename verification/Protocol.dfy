/** The credential protocol as a transition system: one state directory, an
    administrator, and any number of rechecks, renewals and enrollments whose
    store calls interleave freely.  Every locked store call is one step. */
module Protocol {
  import opened Texts
  import opened Records

  // ---- client processes ----------------------------------------------------------

  /** A client between two of its store or verifier calls. */
  datatype Proc =
    // RecheckAfterFailure: load, verify, mark
    | RecheckStart(account: Uuid, generation: int)
    | RecheckLoaded(account: Uuid, generation: int, token: Token)
    | RecheckRejected(account: Uuid, generation: int, token: Token)
    // a renewal session: load, verify a candidate, replace, reload when the replace lost
    | RenewalStart(account: Uuid, copy: Account)
    | RenewalReady(account: Uuid, copy: Account, expected: int)
    | RenewalVerified(account: Uuid, copy: Account, expected: int, token: Token, user: Uuid)
    | RenewalLost(account: Uuid, expected: int, current: int)
    | RenewalDone(account: Uuid, expected: int, generation: int, state: Option<CredState>)
    // linkEnrollment after the token verified
    | EnrollStart(job: Job)
    | EnrollOwned(job: Job, owner: Uuid)
    | EnrollCleared(job: Job, keyExists: bool)
    | EnrollResolved(job: Job, keyExists: bool, account: Uuid)
    | EnrollReady(job: Job, keyExists: bool, account: Uuid, expected: int)
    | EnrollLost(job: Job, keyExists: bool, account: Uuid, expected: int)
    | EnrollStored(job: Job, keyExists: bool, account: Uuid, generation: int)
    | EnrollDone(job: Job, account: Uuid, generation: int)
    | Failed

  /** What an enrollment works with: its deployment, the verified token, the
      identity it verified as and the proven key. */
  datatype Job = Job(deployment: Uuid, token: Token, user: Uuid, username: string, blob: Blob)

  // ---- history --------------------------------------------------------------------

  datatype IdealCred = IdealCred(generation: int, state: CredState, token: Option<Token>)

  /** What the proofs remember: UUIDs handed out so far, the verifier's
      acceptances, and a plain map of credentials with no encryption at all. */
  datatype History = History(ids: set<Uuid>, keyIds: set<Uuid>, accepted: set<(Token, Uuid)>,
                             ideal: map<Uuid, IdealCred>)

  datatype System = System(disk: Disk, ring: Ring, procs: map<nat, Proc>, h: History)

  // ---- actions ----------------------------------------------------------------------

  datatype Action =
    | AddingAccount(id: Uuid, acct: Account, fate: Fate)
    | EnablingAccount(id: Uuid, enabled: bool, fate: Fate)
    | EnablingKey(blob: Blob, enabled: bool, fate: Fate)
    | AddingKey(id: Uuid, blob: Blob, keyId: Uuid, fate: Fate)
    | DeletingKey(id: Uuid, name: Option<Blob>, fate: Fate)
    | DeletingAccount(id: Uuid, after: Disk, crash: bool)
    | Clearing(id: Uuid, expected: int, fate: Fate)
    | Rotating(active: Version)
    | Reencrypting(id: Uuid, nonce: Nonce, fate: Fate)
    | Starting(pid: nat, proc: Proc)
    | Abandoning(pid: nat)
    | Loading(pid: nat)
    | Verifying(pid: nat, token: Token, user: Option<Uuid>)
    | Marking(pid: nat, fate: Fate)
    | Replacing(pid: nat, username: string, nonce: Nonce, first: Fate, second: Fate)
    | CheckingDigest(pid: nat)
    | CheckingOwner(pid: nat)
    | ResolvingAccount(pid: nat, hit: Option<Uuid>, newId: Uuid, fate: Fate)
    | Linking(pid: nat, keyId: Uuid, fate: Fate)

  // ---- the plain map -------------------------------------------------------------------

  function IdealGeneration(ideal: map<Uuid, IdealCred>, a: Uuid): int {
    if a in ideal then ideal[a].generation else 0
  }

  function IdealSnapshot(ideal: map<Uuid, IdealCred>, a: Uuid): Snapshot {
    if a in ideal then Snapshot(a, ideal[a].generation, ideal[a].state, ideal[a].token)
    else Snapshot(a, 0, Missing, None)
  }

  function IdealReplace(h: History, renamed: bool, a: Uuid, token: Token): History {
    if !renamed then h
    else h.(ideal := h.ideal[a := IdealCred(IdealGeneration(h.ideal, a) + 1, Valid, Some(token))])
  }

  function IdealMark(h: History, renamed: bool, a: Uuid): History {
    if !renamed || a !in h.ideal then h else h.(ideal := h.ideal[a := h.ideal[a].(state := Invalid)])
  }

  function IdealClear(h: History, renamed: bool, a: Uuid): History {
    if !renamed then h
    else h.(ideal := h.ideal[a := IdealCred(IdealGeneration(h.ideal, a) + 1, Missing, None)])
  }

  // ---- steps -------------------------------------------------------------------------------

  predicate Startable(s: System, proc: Proc) {
    match proc
    case RecheckStart(_, _) => true
    case RenewalStart(a, copy) => a in s.disk.accounts && copy == s.disk.accounts[a]
    case EnrollStart(job) => job.user != NIL
    case _ => false
  }

  /** linkEnrollment starts once the verifier has accepted the token. */
  function Accepting(h: History, proc: Proc): History {
    if proc.EnrollStart? then h.(accepted := h.accepted + {(proc.job.token, proc.job.user)}) else h
  }

  /** The client continues as `proc`. */
  function Continue(s: System, pid: nat, proc: Proc): System {
    s.(procs := s.procs[pid := proc])
  }

  /** Continuation of a client whose LoadCredential returned `r`. */
  function AfterLoad(proc: Proc, r: Result<Snapshot>): Proc {
    match proc
    case RecheckStart(a, g) =>
      if r.Err? || r.value.generation != g || r.value.state.Missing? || r.value.token.None? || r.value.token.value == ""
      then Failed else RecheckLoaded(a, g, r.value.token.value)
    case RenewalStart(a, copy) => if r.Err? then Failed else RenewalReady(a, copy, r.value.generation)
    // the error branch keeps the expected generation
    case RenewalLost(a, expected, _) =>
      if r.Ok? then RenewalDone(a, expected, r.value.generation, Some(r.value.state))
      else RenewalDone(a, expected, expected, None)
    case EnrollResolved(job, keyExists, a) =>
      if r.Err? then Failed else EnrollReady(job, keyExists, a, r.value.generation)
    case EnrollLost(job, keyExists, a, expected) =>
      EnrollStored(job, keyExists, a, if r.Ok? then r.value.generation else expected)
    case _ => Failed
  }

  predicate Loads(proc: Proc) {
    proc.RecheckStart? || proc.RenewalStart? || proc.RenewalLost? || proc.EnrollResolved? || proc.EnrollLost?
  }

  /** The identity check of replaceCredential against the session's copy of the account. */
  predicate PreChecked(copy: Account, user: Uuid) {
    if copy.user.Some? then copy.user.value == user else copy.bindOnFirst
  }

  function AfterVerdict(proc: Proc, token: Token, user: Option<Uuid>): Proc {
    match proc
    case RecheckLoaded(a, g, t) => if user.None? then RecheckRejected(a, g, t) else Failed
    case RenewalReady(a, copy, expected) =>
      // a refused or foreign token: the session can be tried again
      if user.Some? && PreChecked(copy, user.value) then RenewalVerified(a, copy, expected, token, user.value) else proc
    case _ => Failed
  }

  predicate Verifies(proc: Proc, token: Token) {
    (proc.RecheckLoaded? && proc.token == token) || proc.RenewalReady?
  }

  function RequestOf(proc: Proc, username: string): ReplaceRequest
    requires Replacer(proc)
  {
    match proc
    case RenewalVerified(a, _, expected, token, user) => ReplaceRequest(a, expected, token, user, username)
    case EnrollReady(job, _, a, expected) => ReplaceRequest(a, expected, job.token, job.user, job.username)
  }

  /** Continuation of a client whose ReplaceCredential returned `r`; `current`
      is the generation on file when the call was made. */
  function AfterReplace(proc: Proc, r: Result<Snapshot>, current: int): Proc
    requires Replacer(proc)
  {
    match proc
    case RenewalVerified(a, copy, expected, _, _) =>
      if r.Ok? then RenewalDone(a, expected, r.value.generation, Some(Valid))
      else if r.error.GenerationConflict? then RenewalLost(a, expected, current)
      else RenewalReady(a, copy, expected)  // another attempt of the session expects the same generation
    case EnrollReady(job, keyExists, a, expected) =>
      if r.Ok? then EnrollStored(job, keyExists, a, r.value.generation)
      else if r.error.GenerationConflict? then EnrollLost(job, keyExists, a, expected) else Failed
  }

  /** The last step of linkEnrollment on the key directory. */
  function Link(d: Disk, proc: Proc, keyId: Uuid, fate: Fate): (r: Outcome<KeyRecord>)
    requires proc.EnrollStored?
  {
    if proc.keyExists then
      var found := LookupByPublicKey(d, proc.job.deployment, proc.job.blob);
      if found.Err? then Outcome(d, Err(found.error), false)
      else if found.value.1.owner != proc.account then Outcome(d, Err(DuplicateKey), false)
      else Outcome(d, Ok(found.value.1), false)
    else AddKey(d, proc.account, proc.job.blob, keyId, fate)
  }

  /** Half of a cascade: the credential file is gone, the account remains. */
  predicate HalfDeleted(d: Disk, d': Disk, a: Uuid) {
    a in d'.accounts && a in d.creds && a !in d'.creds
  }

  function StoreStep<T>(s: System, o: Outcome<T>): System {
    s.(disk := o.disk)
  }

  /** One step of administration. */
  ghost predicate AdminNext(s: System, act: Action, s': System) {
    match act
    case AddingAccount(id, acct, fate) =>
      id !in s.h.ids && id != NIL &&
      s' == StoreStep(s, AddAccount(s.disk, id, acct, fate)).(h := s.h.(ids := s.h.ids + {id}))
    case EnablingAccount(id, enabled, fate) => s' == StoreStep(s, SetAccountEnabled(s.disk, id, enabled, fate))
    case EnablingKey(blob, enabled, fate) => s' == StoreStep(s, SetKeyEnabled(s.disk, blob, enabled, fate))
    case AddingKey(id, blob, keyId, fate) =>
      keyId !in s.h.keyIds &&
      s' == StoreStep(s, AddKey(s.disk, id, blob, keyId, fate)).(h := s.h.(keyIds := s.h.keyIds + {keyId}))
    case DeletingKey(id, name, fate) =>
      (name.Some? ==> name.value in s.disk.keys) && s' == StoreStep(s, DeleteKey(s.disk, id, name, fate))
    case DeletingAccount(id, after, crash) =>
      id in s.disk.accounts && CascadePoint(s.disk, id, after) &&
      s' == s.(disk := after, procs := if crash then map[] else s.procs,
               h := if id in after.creds then s.h else s.h.(ideal := s.h.ideal - {id}))
    case Clearing(id, expected, fate) =>
      var o := Clear(s.disk, id, expected, fate);
      s' == StoreStep(s, o).(h := IdealClear(s.h, o.renamed, id))
    case Rotating(active) => s' == s.(ring := s.ring.(active := active))
    case Reencrypting(id, nonce, fate) => s' == StoreStep(s, Reencrypt(s.disk, s.ring, id, nonce, fate))
    case _ => false
  }

  /** One step of a client. */
  ghost predicate ClientNext(s: System, act: Action, s': System) {
    match act
    case Starting(pid, proc) =>
      pid !in s.procs && Startable(s, proc) && s' == Continue(s, pid, proc).(h := Accepting(s.h, proc))
    case Abandoning(pid) => pid in s.procs && s' == Continue(s, pid, Failed)
    case Loading(pid) =>
      pid in s.procs && Loads(s.procs[pid]) &&
      s' == Continue(s, pid, AfterLoad(s.procs[pid], LoadCredential(s.disk, s.ring, s.procs[pid].account)))
    case Verifying(pid, token, user) =>
      pid in s.procs && Verifies(s.procs[pid], token) && (user.Some? ==> user.value != NIL) &&
      s' == Continue(s, pid, AfterVerdict(s.procs[pid], token, user))
              .(h := if user.Some? then s.h.(accepted := s.h.accepted + {(token, user.value)}) else s.h)
    case Marking(pid, fate) =>
      pid in s.procs && s.procs[pid].RecheckRejected? &&
      var p := s.procs[pid];
      var o := MarkInvalid(s.disk, p.account, p.generation, fate);
      s' == Continue(StoreStep(s, o), pid, Failed).(h := IdealMark(s.h, o.renamed, p.account))
    case Replacing(pid, username, nonce, first, second) =>
      pid in s.procs && Replacer(s.procs[pid]) &&
      var p := s.procs[pid];
      var o := Replace(s.disk, s.ring, RequestOf(p, username), nonce, first, second);
      s' == Continue(StoreStep(s, o), pid, AfterReplace(p, o.result, Generation(s.disk, p.account)))
              .(h := IdealReplace(s.h, o.renamed, p.account, RequestOf(p, username).token))
    case CheckingDigest(pid) =>
      pid in s.procs && s.procs[pid].EnrollStart? &&
      var job := s.procs[pid].job;
      s' == Continue(s, pid, if job.blob in s.disk.keys then EnrollOwned(job, s.disk.keys[job.blob].owner)
                             else EnrollCleared(job, false))
    case CheckingOwner(pid) =>
      pid in s.procs && s.procs[pid].EnrollOwned? &&
      var p := s.procs[pid];
      s' == Continue(s, pid, if p.owner in s.disk.accounts && s.disk.accounts[p.owner].user == Some(p.job.user)
                             then EnrollCleared(p.job, true) else Failed)
    case ResolvingAccount(pid, hit, newId, fate) =>
      pid in s.procs && s.procs[pid].EnrollCleared? && newId !in s.h.ids && newId != NIL &&
      var p := s.procs[pid];
      ScanResult(s.disk, p.job.deployment, p.job.user, hit) &&
      var o := LookupOrCreate(s.disk, p.job.deployment, p.job.user, p.job.username, hit, newId, fate);
      s' == Continue(StoreStep(s, o), pid,
                     if o.result.Err? then Failed
                     else if o.result.value.created then EnrollReady(p.job, p.keyExists, newId, 0)
                     else EnrollResolved(p.job, p.keyExists, o.result.value.id))
              .(h := s.h.(ids := s.h.ids + {newId}))
    case Linking(pid, keyId, fate) =>
      pid in s.procs && s.procs[pid].EnrollStored? && keyId !in s.h.keyIds &&
      var p := s.procs[pid];
      var o := Link(s.disk, p, keyId, fate);
      s' == Continue(StoreStep(s, o), pid, if o.result.Ok? then EnrollDone(p.job, p.account, p.generation) else Failed)
              .(h := s.h.(keyIds := s.h.keyIds + {keyId}))
    case _ => false
  }

  ghost predicate Next(s: System, act: Action, s': System) {
    AdminNext(s, act, s') || ClientNext(s, act, s')
  }

  /** The client that action `act` is a step of. */
  function Acting(s: System, act: Action): Proc {
    if (act.Starting? || act.Abandoning? || act.Loading? || act.Verifying? || act.Marking? || act.Replacing?
        || act.CheckingDigest? || act.CheckingOwner? || act.ResolvingAccount? || act.Linking?) && act.pid in s.procs
    then s.procs[act.pid] else Failed
  }

  predicate Replacer(p: Proc) { p.RenewalVerified? || p.EnrollReady? }

  /** The ReplaceCredential call that action `act` makes. */
  ghost function ReplaceOutcome(s: System, act: Action): Outcome<Snapshot>
    requires act.Replacing? && Replacer(Acting(s, act))
  {
    Replace(s.disk, s.ring, RequestOf(Acting(s, act), act.username), act.nonce, act.first, act.second)
  }

  /** A deletion of `a` stops between the credential unlink and the account
      unlink, and the process lives on. */
  predicate LiveHalf(s: System, act: Action, s': System, a: Uuid) {
    act.DeletingAccount? && !act.crash && HalfDeleted(s.disk, s'.disk, a)
  }

  ghost predicate Init(s: System) {
    s.disk == Disk(map[], map[], map[]) && s.procs == map[] && s.h == History({}, {}, {}, map[])
  }

  /** A run: states and the actions between them. */
  ghost predicate Steps(ss: seq<System>, acts: seq<Action>) {
    && |ss| == |acts| + 1
    && forall i :: 0 <= i < |acts| ==> Next(ss[i], acts[i], ss[i + 1])
  }

  ghost predicate Run(ss: seq<System>, acts: seq<Action>) {
    Steps(ss, acts) && Init(ss[0])
  }
}
