/** The invariant of the whole protocol and its preservation: a part that holds
    along every run, and a part about one account that survives everything but
    a half deletion of that account in a process that lives on. */
module ProtocolInvariant {
  import opened Texts
  import opened Records
  import opened Protocol
  import opened StoreInvariant

  // ---- what holds in every run -------------------------------------------------------------

  ghost predicate Enrolling(d: Disk, job: Job, a: Uuid) {
    a in d.accounts ==> BoundTo(d.accounts[a], job.deployment, job.user)
  }

  ghost predicate JobInv(h: History, job: Job) {
    (job.token, job.user) in h.accepted && job.user != NIL
  }

  /** What a client knows about identities. */
  ghost predicate ProcInv(d: Disk, h: History, p: Proc) {
    match p
    case RecheckLoaded(a, _, _) => a in h.ids
    case RecheckRejected(a, _, _) => a in h.ids
    case RenewalStart(a, _) => a in h.ids
    case RenewalReady(a, _, _) => a in h.ids
    case RenewalVerified(a, _, _, token, user) => a in h.ids && (token, user) in h.accepted
    case RenewalLost(a, _, _) => a in h.ids
    case EnrollStart(job) => JobInv(h, job)
    case EnrollOwned(job, _) => JobInv(h, job)
    case EnrollCleared(job, _) => JobInv(h, job)
    case EnrollResolved(job, _, a) => JobInv(h, job) && a in h.ids && Enrolling(d, job, a)
    case EnrollReady(job, _, a, _) => JobInv(h, job) && a in h.ids && Enrolling(d, job, a)
    case EnrollLost(job, _, a, _) => JobInv(h, job) && a in h.ids && Enrolling(d, job, a)
    case EnrollStored(job, _, a, _) => JobInv(h, job) && a in h.ids && Enrolling(d, job, a)
    case _ => true
  }

  ghost predicate Inv(s: System) {
    && StoreInv(s.disk, s.ring, s.h)
    && forall pid :: pid in s.procs ==> ProcInv(s.disk, s.h, s.procs[pid])
  }

  /** No step of another party invalidates what a client knows. */
  lemma Stable(d: Disk, h: History, d': Disk, h': History, p: Proc)
    requires Keeps(d, h, d', h') && ProcInv(d, h, p)
    ensures ProcInv(d', h', p)
  {
  }

  // ---- loading -------------------------------------------------------------------------------

  predicate WellFormed(ideal: map<Uuid, IdealCred>, a: Uuid) {
    a in ideal ==> (ideal[a].state.Missing? <==> ideal[a].token.None?)
  }

  /** LoadCredential returns what the plain map holds, and reports corruption
      exactly for an entry that has a state other than missing and no token. */
  lemma LoadIsIdeal(d: Disk, ring: Ring, h: History, a: Uuid)
    requires StoreInv(d, ring, h)
    ensures LoadCredential(d, ring, a) == if WellFormed(h.ideal, a) then Ok(IdealSnapshot(h.ideal, a)) else Err(Corrupt)
    ensures IdealSnapshot(h.ideal, a).generation == Generation(d, a)
    ensures IdealSnapshot(h.ideal, a).token == StoredToken(d, a)
    ensures WellFormed(h.ideal, a) <==> Sound(d, a)
  {
  }

  // ---- every step keeps it -------------------------------------------------------------------

  ghost predicate StepOk(s: System, act: Action, s': System) {
    && StoreInv(s'.disk, s'.ring, s'.h)
    && Keeps(s.disk, s.h, s'.disk, s'.h)
    && (act.DeletingAccount? || NoHalf(s.disk, s'.disk))
  }

  lemma DeletionStep(s: System, act: Action, s': System)
    requires StoreInv(s.disk, s.ring, s.h) && AdminNext(s, act, s') && act.DeletingAccount?
    ensures StepOk(s, act, s')
  {
    CascadeKeeps(s.disk, s.ring, s.h, act.id, act.after);
  }

  lemma AdminStep(s: System, act: Action, s': System)
    requires StoreInv(s.disk, s.ring, s.h) && AdminNext(s, act, s') && !act.DeletingAccount?
    ensures StepOk(s, act, s')
  {
    match act
    case AddingAccount(id, acct, fate) => AddAccountKeeps(s.disk, s.ring, s.h, id, acct, fate);
    case EnablingAccount(id, enabled, fate) => EnableKeeps(s.disk, s.ring, s.h, id, enabled, fate);
    case EnablingKey(blob, enabled, fate) => SetKeyEnabledKeeps(s.disk, s.ring, s.h, blob, enabled, fate);
    case AddingKey(id, blob, keyId, fate) => AddKeyKeeps(s.disk, s.ring, s.h, id, blob, keyId, fate);
    case DeletingKey(id, name, fate) => DeleteKeyKeeps(s.disk, s.ring, s.h, id, name, fate);
    case Clearing(id, expected, fate) => ClearKeeps(s.disk, s.ring, s.h, id, expected, fate);
    case Rotating(active) =>
    case Reencrypting(id, nonce, fate) => ReencryptKeeps(s.disk, s.ring, s.h, id, nonce, fate);
    case _ =>
  }

  lemma AcceptKeeps(d: Disk, ring: Ring, h: History, h': History)
    requires StoreInv(d, ring, h) && h' == h.(accepted := h'.accepted) && h.accepted <= h'.accepted
    requires forall x :: x in h'.accepted ==> x.1 != NIL
    ensures StoreInv(d, ring, h') && Keeps(d, h, d, h') && NoHalf(d, d)
  {
    forall a | a in d.creds && a in d.accounts ensures VerifiedAt(d, a, h'.accepted) {
      assert VerifiedAt(d, a, h.accepted);
    }
  }

  /** The client that took the step satisfies its own assertion again. */
  ghost predicate OwnOk(pid: nat, s': System) {
    pid in s'.procs && ProcInv(s'.disk, s'.h, s'.procs[pid])
  }

  /** A loader knows the account of a snapshot that exists. */
  lemma LoadedProc(d: Disk, ring: Ring, h: History, p: Proc)
    requires StoreInv(d, ring, h) && ProcInv(d, h, p) && Loads(p)
    ensures ProcInv(d, h, AfterLoad(p, LoadCredential(d, ring, p.account)))
  {
    LoadIsIdeal(d, ring, h, p.account);
  }

  lemma SameDisk(d: Disk, h: History)
    ensures Keeps(d, h, d, h) && NoHalf(d, d)
  {
  }

  lemma LoadingStep(s: System, act: Action, s': System)
    requires Inv(s) && ClientNext(s, act, s') && act.Loading?
    ensures StepOk(s, act, s') && OwnOk(act.pid, s')
  {
    assert ProcInv(s.disk, s.h, s.procs[act.pid]);
    LoadedProc(s.disk, s.ring, s.h, s.procs[act.pid]);
    SameDisk(s.disk, s.h);
  }

  lemma MarkingStep(s: System, act: Action, s': System)
    requires Inv(s) && ClientNext(s, act, s') && act.Marking?
    ensures StepOk(s, act, s') && OwnOk(act.pid, s')
  {
    var p := s.procs[act.pid];
    MarkKeeps(s.disk, s.ring, s.h, p.account, p.generation, act.fate);
  }

  lemma ReplacedProc(d: Disk, h: History, p: Proc, r: Result<Snapshot>, current: int)
    requires Replacer(p) && ProcInv(d, h, p)
    ensures ProcInv(d, h, AfterReplace(p, r, current))
  {
  }

  lemma ReplacingStep(s: System, act: Action, s': System)
    requires Inv(s) && ClientNext(s, act, s') && act.Replacing?
    ensures StepOk(s, act, s') && OwnOk(act.pid, s')
  {
    var p := s.procs[act.pid];
    assert ProcInv(s.disk, s.h, p);
    var o := Replace(s.disk, s.ring, RequestOf(p, act.username), act.nonce, act.first, act.second);
    ReplaceKeeps(s.disk, s.ring, s.h, RequestOf(p, act.username), act.nonce, act.first, act.second);
    Stable(s.disk, s.h, s'.disk, s'.h, p);
    ReplacedProc(s'.disk, s'.h, p, o.result, Generation(s.disk, p.account));
  }

  lemma ResolvingStep(s: System, act: Action, s': System)
    requires Inv(s) && ClientNext(s, act, s') && act.ResolvingAccount?
    ensures StepOk(s, act, s') && OwnOk(act.pid, s')
  {
    var p := s.procs[act.pid];
    assert ProcInv(s.disk, s.h, p);
    ResolveKeeps(s.disk, s.ring, s.h, p.job.deployment, p.job.user, p.job.username, act.hit, act.newId, act.fate);
  }

  lemma LinkingStep(s: System, act: Action, s': System)
    requires Inv(s) && ClientNext(s, act, s') && act.Linking?
    ensures StepOk(s, act, s') && OwnOk(act.pid, s')
  {
    var p := s.procs[act.pid];
    if p.keyExists {
      KeyOpsKeep(s.disk, s.ring, s.h, s.disk, s'.h);
    } else {
      AddKeyKeeps(s.disk, s.ring, s.h, p.account, p.job.blob, act.keyId, act.fate);
    }
  }

  predicate Quiet(act: Action) {
    act.Starting? || act.Abandoning? || act.Verifying? || act.CheckingDigest? || act.CheckingOwner?
  }

  /** Steps that leave the directory alone. */
  lemma QuietStep(s: System, act: Action, s': System)
    requires Inv(s) && ClientNext(s, act, s') && Quiet(act)
    ensures StepOk(s, act, s') && OwnOk(act.pid, s')
  {
    AcceptKeeps(s.disk, s.ring, s.h, s'.h);
    if act.pid in s.procs { assert ProcInv(s.disk, s.h, s.procs[act.pid]); }
  }

  lemma ClientStep(s: System, act: Action, s': System)
    requires Inv(s) && ClientNext(s, act, s')
    ensures StepOk(s, act, s') && OwnOk(act.pid, s')
  {
    if act.Loading? { LoadingStep(s, act, s'); }
    else if act.Marking? { MarkingStep(s, act, s'); }
    else if act.Replacing? { ReplacingStep(s, act, s'); }
    else if act.ResolvingAccount? { ResolvingStep(s, act, s'); }
    else if act.Linking? { LinkingStep(s, act, s'); }
    else { QuietStep(s, act, s'); }
  }

  lemma StepInv(s: System, act: Action, s': System)
    requires Inv(s) && Next(s, act, s')
    ensures Inv(s') && StepOk(s, act, s')
  {
    if AdminNext(s, act, s') {
      if act.DeletingAccount? { DeletionStep(s, act, s'); } else { AdminStep(s, act, s'); }
      forall pid | pid in s'.procs ensures ProcInv(s'.disk, s'.h, s'.procs[pid]) {
        Stable(s.disk, s.h, s'.disk, s'.h, s.procs[pid]);
      }
    } else {
      ClientStep(s, act, s');
      forall pid | pid in s'.procs ensures ProcInv(s'.disk, s'.h, s'.procs[pid]) {
        if pid != act.pid { Stable(s.disk, s.h, s'.disk, s'.h, s.procs[pid]); }
      }
    }
  }

  lemma StepAt(ss: seq<System>, acts: seq<Action>, i: nat)
    requires Steps(ss, acts) && i < |acts| && Inv(ss[i])
    ensures Inv(ss[i + 1]) && StepOk(ss[i], acts[i], ss[i + 1])
  {
    assert Next(ss[i], acts[i], ss[i + 1]);
    StepInv(ss[i], acts[i], ss[i + 1]);
  }

  lemma {:induction false} StepsInv(ss: seq<System>, acts: seq<Action>, i: nat)
    requires Steps(ss, acts) && Inv(ss[0]) && i < |ss|
    ensures Inv(ss[i])
  {
    if i > 0 {
      StepsInv(ss, acts, i - 1);
      StepAt(ss, acts, i - 1);
    }
  }

  /** The invariant holds in every reachable state. */
  lemma RunInv(ss: seq<System>, acts: seq<Action>, i: nat)
    requires Run(ss, acts) && i < |ss|
    ensures Inv(ss[i])
  {
    StepsInv(ss, acts, i);
  }

  // ---- what holds for one account -----------------------------------------------------------

  /** The record of `a` obeys the format rule. */
  predicate Sound(d: Disk, a: Uuid) {
    a in d.creds ==> ValidRecord(d.creds[a])
  }

  /** The snapshot (g, token) of `a` is still on file or has been superseded. */
  ghost predicate StillOrNewer(d: Disk, a: Uuid, g: int, token: Token) {
    a in d.accounts ==> Generation(d, a) > g || (Generation(d, a) == g && StoredToken(d, a) == Some(token))
  }

  ghost predicate AtLeast(d: Disk, a: Uuid, g: int) {
    a in d.accounts ==> Generation(d, a) >= g
  }

  /** What a client of account `a` knows about generations. */
  ghost predicate Abreast(d: Disk, p: Proc, a: Uuid) {
    match p
    case RecheckLoaded(b, g, token) => b == a ==> StillOrNewer(d, a, g, token)
    case RecheckRejected(b, g, token) => b == a ==> StillOrNewer(d, a, g, token)
    case RenewalReady(b, _, expected) => b == a ==> AtLeast(d, a, expected)
    case RenewalVerified(b, _, expected, _, _) => b == a ==> AtLeast(d, a, expected)
    case RenewalLost(b, expected, current) => b == a ==> expected < current && AtLeast(d, a, current)
    case _ => true
  }

  ghost predicate AccountInv(s: System, a: Uuid) {
    && Sound(s.disk, a)
    && forall pid :: pid in s.procs ==> Abreast(s.disk, s.procs[pid], a)
  }

  lemma AbreastStable(d: Disk, h: History, d': Disk, h': History, p: Proc, a: Uuid)
    requires Keeps(d, h, d', h') && !HalfDeleted(d, d', a) && ProcInv(d, h, p) && Abreast(d, p, a)
    ensures Abreast(d', p, a)
  {
    if a in d.accounts && a in d'.accounts {
      assert Later(d, d', a);
    }
  }

  lemma AdminSound(s: System, act: Action, s': System, a: Uuid)
    requires AdminNext(s, act, s') && Sound(s.disk, a)
    ensures Sound(s'.disk, a)
  {
    if act.DeletingAccount? {
      CascadeShape(s.disk, act.id, act.after);
    }
  }

  lemma ReplaceSound(d: Disk, ring: Ring, req: ReplaceRequest, nonce: Nonce, first: Fate, second: Fate, a: Uuid)
    requires Sound(d, a)
    ensures Sound(Replace(d, ring, req, nonce, first, second).disk, a)
  {
  }

  /** The rechecker's mark never lands on a tombstone of an account in order. */
  lemma MarkSound(d: Disk, p: Proc, fate: Fate, a: Uuid)
    requires p.RecheckRejected? && Sound(d, a) && Abreast(d, p, a) && (a in d.creds ==> a in d.accounts)
    ensures Sound(MarkInvalid(d, p.account, p.generation, fate).disk, a)
  {
  }

  lemma ClientSound(s: System, act: Action, s': System, a: Uuid)
    requires Inv(s) && AccountInv(s, a) && ClientNext(s, act, s')
    ensures Sound(s'.disk, a)
  {
    if act.Marking? {
      assert Abreast(s.disk, s.procs[act.pid], a);
      MarkSound(s.disk, s.procs[act.pid], act.fate, a);
    } else if act.Replacing? {
      ReplaceSound(s.disk, s.ring, RequestOf(s.procs[act.pid], act.username), act.nonce, act.first, act.second, a);
    }
  }

  lemma LoadedAbreast(d: Disk, ring: Ring, h: History, p: Proc, a: Uuid)
    requires StoreInv(d, ring, h) && Loads(p)
    ensures Abreast(d, AfterLoad(p, LoadCredential(d, ring, p.account)), a)
  {
    LoadIsIdeal(d, ring, h, p.account);
  }

  lemma ReplaceConflict(d: Disk, ring: Ring, req: ReplaceRequest, nonce: Nonce, first: Fate, second: Fate)
    ensures var o := Replace(d, ring, req, nonce, first, second);
            o.result == Err(GenerationConflict) ==>
              o.disk == d && req.account in d.accounts && Generation(d, req.account) != req.expected
  {
  }

  lemma ReplacedAbreast(d: Disk, d': Disk, p: Proc, r: Result<Snapshot>, a: Uuid)
    requires Replacer(p) && Abreast(d, p, a) && Abreast(d', p, a)
    requires r == Err(GenerationConflict) ==>
               d' == d && p.account in d.accounts && Generation(d, p.account) != p.expected
    ensures Abreast(d', AfterReplace(p, r, Generation(d, p.account)), a)
  {
  }

  lemma ReplacingAbreast(s: System, act: Action, s': System, a: Uuid)
    requires ClientNext(s, act, s') && act.Replacing? && Abreast(s.disk, s.procs[act.pid], a)
    requires Abreast(s'.disk, s.procs[act.pid], a)
    ensures Abreast(s'.disk, s'.procs[act.pid], a)
  {
    var p := s.procs[act.pid];
    var o := Replace(s.disk, s.ring, RequestOf(p, act.username), act.nonce, act.first, act.second);
    ReplaceConflict(s.disk, s.ring, RequestOf(p, act.username), act.nonce, act.first, act.second);
    ReplacedAbreast(s.disk, s'.disk, p, o.result, a);
  }

  lemma OwnAbreast(s: System, act: Action, s': System, a: Uuid)
    requires Inv(s) && ClientNext(s, act, s')
    requires act.pid in s.procs ==> Abreast(s.disk, s.procs[act.pid], a) && Abreast(s'.disk, s.procs[act.pid], a)
    ensures act.pid in s'.procs && Abreast(s'.disk, s'.procs[act.pid], a)
  {
    if act.Loading? {
      LoadedAbreast(s.disk, s.ring, s.h, s.procs[act.pid], a);
    } else if act.Replacing? {
      ReplacingAbreast(s, act, s', a);
    }
  }

  /** Every client that is still there knows what it knew. */
  lemma AllAbreast(s: System, act: Action, s': System, a: Uuid)
    requires Inv(s) && AccountInv(s, a) && StepOk(s, act, s') && !HalfDeleted(s.disk, s'.disk, a)
    ensures forall pid :: pid in s.procs ==> Abreast(s'.disk, s.procs[pid], a)
  {
    forall pid | pid in s.procs ensures Abreast(s'.disk, s.procs[pid], a) {
      assert ProcInv(s.disk, s.h, s.procs[pid]) && Abreast(s.disk, s.procs[pid], a);
      AbreastStable(s.disk, s.h, s'.disk, s'.h, s.procs[pid], a);
    }
  }

  lemma NotHalved(s: System, act: Action, s': System, a: Uuid)
    requires StoreInv(s.disk, s.ring, s.h) && StepOk(s, act, s') && !LiveHalf(s, act, s', a)
    ensures HalfDeleted(s.disk, s'.disk, a) ==> act.DeletingAccount? && act.crash
  {
    assert a in s.disk.creds ==> a in s.disk.accounts;
  }

  lemma AdminAccountStep(s: System, act: Action, s': System, a: Uuid)
    requires Inv(s) && AccountInv(s, a) && AdminNext(s, act, s') && StepOk(s, act, s') && !LiveHalf(s, act, s', a)
    ensures AccountInv(s', a)
  {
    AdminSound(s, act, s', a);
    NotHalved(s, act, s', a);
    if !HalfDeleted(s.disk, s'.disk, a) {
      AllAbreast(s, act, s', a);
    }
    assert forall pid :: pid in s'.procs ==> pid in s.procs && s'.procs[pid] == s.procs[pid];
  }

  lemma OthersUnchanged(s: System, act: Action, s': System)
    requires ClientNext(s, act, s')
    ensures forall pid :: pid in s'.procs && pid != act.pid ==> pid in s.procs && s'.procs[pid] == s.procs[pid]
  {
  }

  lemma ClientAccountStep(s: System, act: Action, s': System, a: Uuid)
    requires Inv(s) && AccountInv(s, a) && ClientNext(s, act, s') && StepOk(s, act, s')
    ensures AccountInv(s', a)
  {
    ClientSound(s, act, s', a);
    NotHalved(s, act, s', a);
    AllAbreast(s, act, s', a);
    OwnAbreast(s, act, s', a);
    OthersUnchanged(s, act, s');
  }

  /** Everything but a half deletion of `a` in a live process keeps what holds
      for `a`. */
  lemma AccountStep(s: System, act: Action, s': System, a: Uuid)
    requires Inv(s) && AccountInv(s, a) && Next(s, act, s') && !LiveHalf(s, act, s', a)
    ensures AccountInv(s', a)
  {
    StepInv(s, act, s');
    if AdminNext(s, act, s') {
      AdminAccountStep(s, act, s', a);
    } else {
      ClientAccountStep(s, act, s', a);
    }
  }

  /** No half deletion of `a` in a live process between the two states. */
  ghost predicate Undisturbed(ss: seq<System>, acts: seq<Action>, i: nat, a: Uuid)
    requires |ss| == |acts| + 1 && i < |ss|
  {
    forall k :: 0 <= k < i ==> !LiveHalf(ss[k], acts[k], ss[k + 1], a)
  }

  lemma {:induction false} AccountSteps(ss: seq<System>, acts: seq<Action>, i: nat, a: Uuid)
    requires Steps(ss, acts) && i < |ss| && Inv(ss[0]) && AccountInv(ss[0], a) && Undisturbed(ss, acts, i, a)
    ensures AccountInv(ss[i], a)
  {
    if i > 0 {
      AccountSteps(ss, acts, i - 1, a);
      StepsInv(ss, acts, i - 1);
      AccountStepAt(ss, acts, i - 1, a);
    }
  }

  lemma AccountStepAt(ss: seq<System>, acts: seq<Action>, i: nat, a: Uuid)
    requires Steps(ss, acts) && i < |acts| && Inv(ss[i]) && AccountInv(ss[i], a)
    requires !LiveHalf(ss[i], acts[i], ss[i + 1], a)
    ensures AccountInv(ss[i + 1], a)
  {
    assert Next(ss[i], acts[i], ss[i + 1]);
    AccountStep(ss[i], acts[i], ss[i + 1], a);
  }

  /** What holds for one account holds in every state reached without a half
      deletion of that account in a live process. */
  lemma AccountRun(ss: seq<System>, acts: seq<Action>, i: nat, a: Uuid)
    requires Run(ss, acts) && i < |ss| && Undisturbed(ss, acts, i, a)
    ensures AccountInv(ss[i], a)
  {
    AccountSteps(ss, acts, i, a);
  }
}
