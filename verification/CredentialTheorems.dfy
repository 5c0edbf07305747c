/** The properties of the credential protocol, stated over whole runs.  Where a
    result needs a condition it is one about the account at hand. */
module CredentialTheorems {
  import opened Texts
  import opened Records
  import opened Protocol
  import opened StoreInvariant
  import opened ProtocolInvariant
  import opened Runs

  // ---- store refinement -----------------------------------------------------------------

  /** After any run, rotations and interrupted re-encryptions included, loading
      gives back exactly what a plain map of the committed writes holds; it can
      fail only for an entry that is not well formed, and no entry is that
      without a half deletion of its account in a live process. */
  lemma LoadRefinesPlainMap(ss: seq<System>, acts: seq<Action>, i: nat, a: Uuid)
    requires Run(ss, acts) && i < |ss|
    ensures LoadCredential(ss[i].disk, ss[i].ring, a)
            == if WellFormed(ss[i].h.ideal, a) then Ok(IdealSnapshot(ss[i].h.ideal, a)) else Err(Corrupt)
    ensures Undisturbed(ss, acts, i, a) ==> WellFormed(ss[i].h.ideal, a)
  {
    RunInv(ss, acts, i);
    LoadIsIdeal(ss[i].disk, ss[i].ring, ss[i].h, a);
    if Undisturbed(ss, acts, i, a) {
      AccountRun(ss, acts, i, a);
    }
  }

  /** A ciphertext moved to another account, deployment or generation never
      opens, whatever else the forged record claims. */
  lemma TransplantNeverOpens(d: Disk, ring: Ring, h: History, from: Uuid, forged: Credential, target: Uuid)
    requires StoreInv(d, ring, h) && from in d.creds && d.creds[from].box.Some?
    requires target in d.accounts && forged.box == d.creds[from].box
    requires Binding(d.accounts[target].deployment, target, forged.generation)
          != Binding(d.accounts[from].deployment, from, d.creds[from].generation)
    ensures LoadCredential(d.(creds := d.creds[target := forged]), ring, target).Err?
    ensures CredentialAad(Binding(d.accounts[target].deployment, target, forged.generation))
         != CredentialAad(forged.box.value.aad)
  {
    var aad := Binding(d.accounts[target].deployment, target, forged.generation);
    if CredentialAad(aad) == CredentialAad(forged.box.value.aad) {
      CredentialAadInjective(aad, forged.box.value.aad);
    }
  }

  // ---- generation discipline ----------------------------------------------------------------

  /** Along a stretch of a run, `a` never loses its credential file alone. */
  ghost predicate NeverHalved(ss: seq<System>, i: nat, j: nat, a: Uuid)
    requires i <= j < |ss|
  {
    forall k :: i <= k < j ==> !HalfDeleted(ss[k].disk, ss[k + 1].disk, a)
  }

  /** An account that is gone never comes back under its UUID. */
  lemma {:induction false} GoneForever(ss: seq<System>, acts: seq<Action>, i: nat, j: nat, a: Uuid)
    requires Steps(ss, acts) && Inv(ss[0]) && i <= j < |ss|
    requires a in ss[i].h.ids && a in ss[j].disk.accounts
    ensures forall k :: i <= k <= j ==> a in ss[k].disk.accounts
    decreases j - i
  {
    if i < j {
      StepsInv(ss, acts, i);
      StepAt(ss, acts, i);
      GoneForever(ss, acts, i + 1, j, a);
    }
  }

  /** While an account exists its generation never decreases, and one
      generation never names two tokens. */
  lemma {:induction false} GenerationsOnlyGrow(ss: seq<System>, acts: seq<Action>, i: nat, j: nat, a: Uuid)
    requires Steps(ss, acts) && Inv(ss[0]) && i <= j < |ss|
    requires a in ss[i].disk.accounts && a in ss[j].disk.accounts && NeverHalved(ss, i, j, a)
    ensures Later(ss[i].disk, ss[j].disk, a)
    decreases j - i
  {
    StepsInv(ss, acts, i);
    if i < j {
      GoneForever(ss, acts, i, j, a);
      StepAt(ss, acts, i);
      GenerationsOnlyGrow(ss, acts, i + 1, j, a);
    }
  }

  /** Exactly the half deletion makes a generation drop, whether it ends the
      process or not. */
  lemma GenerationDropsIffHalved(s: System, act: Action, s': System, a: Uuid)
    requires Inv(s) && Next(s, act, s')
    requires a in s.disk.accounts && a in s'.disk.accounts
    ensures Generation(s'.disk, a) < Generation(s.disk, a) <==> HalfDeleted(s.disk, s'.disk, a)
  {
    StepInv(s, act, s');
  }

  /** Two snapshots of the same account and generation carry the same token. */
  lemma SnapshotsAgree(ss: seq<System>, acts: seq<Action>, i: nat, j: nat, a: Uuid)
    requires Steps(ss, acts) && Inv(ss[0]) && i <= j < |ss| && NeverHalved(ss, i, j, a)
    ensures var x, y := LoadCredential(ss[i].disk, ss[i].ring, a), LoadCredential(ss[j].disk, ss[j].ring, a);
            x.Ok? && y.Ok? && x.value.token.Some? && y.value.token.Some? && x.value.generation == y.value.generation
            ==> x.value.token == y.value.token
  {
    StepsInv(ss, acts, i);
    StepsInv(ss, acts, j);
    LoadIsIdeal(ss[i].disk, ss[i].ring, ss[i].h, a);
    LoadIsIdeal(ss[j].disk, ss[j].ring, ss[j].h, a);
    if a in ss[i].disk.creds && a in ss[j].disk.creds {
      GenerationsOnlyGrow(ss, acts, i, j, a);
    }
  }

  /** A replace that reaches its rename found the generation it expected and
      leaves the next one. */
  lemma RenameAdvances(d: Disk, ring: Ring, req: ReplaceRequest, nonce: Nonce, first: Fate, second: Fate)
    ensures var o := Replace(d, ring, req, nonce, first, second);
            && (o.result.Ok? ==> o.renamed)
            && (o.renamed ==> req.account in o.disk.accounts && req.account in d.accounts
                              && Generation(d, req.account) == req.expected
                              && Generation(o.disk, req.account) == req.expected + 1)
  {
  }

  lemma RenameAdvancesIn(s: System, act: Action)
    requires act.Replacing? && Replacer(Acting(s, act))
    ensures var o, a, g := ReplaceOutcome(s, act), Acting(s, act).account, Acting(s, act).expected;
            && (o.result.Ok? ==> o.renamed)
            && (o.renamed ==> a in o.disk.accounts && a in s.disk.accounts
                              && Generation(s.disk, a) == g && Generation(o.disk, a) == g + 1)
  {
    RenameAdvances(s.disk, s.ring, RequestOf(Acting(s, act), act.username), act.nonce, act.first, act.second);
  }

  lemma ReplacingLands(s: System, act: Action, s': System)
    requires Next(s, act, s') && act.Replacing? && Replacer(Acting(s, act))
    ensures s'.disk == ReplaceOutcome(s, act).disk
  {
  }

  /** Of all replaces that expect the same generation of an account, repeated
      attempts of one session included, at most one reaches its rename. */
  lemma AtMostOneReplaceCommits(ss: seq<System>, acts: seq<Action>, i: nat, j: nat)
    requires Run(ss, acts) && i < j < |acts| && acts[i].Replacing? && acts[j].Replacing?
    requires var p, q := Acting(ss[i], acts[i]), Acting(ss[j], acts[j]);
             && Replacer(p) && Replacer(q) && p.account == q.account && p.expected == q.expected
             && NeverHalved(ss, i, j, p.account)
    ensures !(ReplaceOutcome(ss[i], acts[i]).renamed && ReplaceOutcome(ss[j], acts[j]).renamed)
    ensures !(ReplaceOutcome(ss[i], acts[i]).result.Ok? && ReplaceOutcome(ss[j], acts[j]).result.Ok?)
  {
    var p := Acting(ss[i], acts[i]);
    RunInv(ss, acts, 0);
    RenameAdvancesIn(ss[i], acts[i]);
    RenameAdvancesIn(ss[j], acts[j]);
    if ReplaceOutcome(ss[i], acts[i]).renamed && p.account in ss[j].disk.accounts {
      assert Next(ss[i], acts[i], ss[i + 1]);
      ReplacingLands(ss[i], acts[i], ss[i + 1]);
      GenerationsOnlyGrow(ss, acts, i + 1, j, p.account);
    }
  }

  // ---- the loser of a race -------------------------------------------------------------------

  lemma LoserLoads(s: System, act: Action, s': System)
    requires Next(s, act, s') && act.Loading? && Acting(s, act).RenewalLost?
    ensures var p := Acting(s, act);
            Acting(s', act) == AfterLoad(p, LoadCredential(s.disk, s.ring, p.account))
  {
  }

  /** A renewal that lost the race and reloads continues on a strictly larger
      generation, unless the account was deleted meanwhile. */
  lemma LoserContinuesOnNewerGeneration(ss: seq<System>, acts: seq<Action>, i: nat)
    requires Run(ss, acts) && i < |acts| && acts[i].Loading? && Acting(ss[i], acts[i]).RenewalLost?
    requires Undisturbed(ss, acts, i, Acting(ss[i], acts[i]).account)
    ensures var p, q := Acting(ss[i], acts[i]), Acting(ss[i + 1], acts[i]);
            q.RenewalDone? && (q.generation > p.expected || p.account !in ss[i].disk.accounts)
  {
    var p := Acting(ss[i], acts[i]);
    RunInv(ss, acts, i);
    AccountRun(ss, acts, i, p.account);
    assert Abreast(ss[i].disk, p, p.account);
    assert Next(ss[i], acts[i], ss[i + 1]);
    LoserLoads(ss[i], acts[i], ss[i + 1]);
    LoadIsIdeal(ss[i].disk, ss[i].ring, ss[i].h, p.account);
  }

  /** The step changed the credential of `a`. */
  ghost predicate Wrote(s: System, s': System, a: Uuid) {
    || (a in s.h.ideal) != (a in s'.h.ideal)
    || (a in s.h.ideal && a in s'.h.ideal && s.h.ideal[a] != s'.h.ideal[a])
  }

  /** The last step before `i` that changed the credential of `a`, or -1. */
  ghost function LastWrite(ss: seq<System>, i: nat, a: Uuid): int
    requires i < |ss|
  {
    if i == 0 then -1 else if Wrote(ss[i - 1], ss[i], a) then i - 1 else LastWrite(ss, i - 1, a)
  }

  /** `state` is what a write of kind `act` leaves. */
  predicate LeftBy(state: CredState, act: Action) {
    match state
    case Valid => act.Replacing?
    case Invalid => act.Marking?
    case Missing => act.Clearing?
    case _ => false
  }

  lemma WriteLeaves(s: System, act: Action, s': System, a: Uuid)
    requires Next(s, act, s') && Wrote(s, s', a) && a in s'.h.ideal
    ensures LeftBy(s'.h.ideal[a].state, act) && (act.Replacing? ==> s'.h.ideal[a].token.Some?)
  {
  }

  /** In every run the state on file tells which kind of write came last. */
  lemma {:induction false} StateTellsLastWrite(ss: seq<System>, acts: seq<Action>, i: nat, a: Uuid)
    requires Run(ss, acts) && i < |ss| && a in ss[i].h.ideal
    ensures 0 <= LastWrite(ss, i, a) < i && LeftBy(ss[i].h.ideal[a].state, acts[LastWrite(ss, i, a)])
    ensures ss[i].h.ideal[a].state.Valid? ==> ss[i].h.ideal[a].token.Some?
  {
    assert i > 0;
    if Wrote(ss[i - 1], ss[i], a) {
      assert Next(ss[i - 1], acts[i - 1], ss[i]);
      WriteLeaves(ss[i - 1], acts[i - 1], ss[i], a);
    } else {
      StateTellsLastWrite(ss, acts, i - 1, a);
    }
  }

  ghost predicate ReplacedLast(ss: seq<System>, acts: seq<Action>, i: nat, a: Uuid)
    requires i < |ss|
  {
    0 <= LastWrite(ss, i, a) < |acts| && acts[LastWrite(ss, i, a)].Replacing?
  }

  /** The "already updated" continuation is on a valid credential iff the last
      write of that credential was a replace.  The code calls it a success in
      every case. */
  lemma LoserOnValidIffReplacedLast(ss: seq<System>, acts: seq<Action>, i: nat)
    requires Run(ss, acts) && i < |acts| && acts[i].Loading? && Acting(ss[i], acts[i]).RenewalLost?
    ensures var a, q := Acting(ss[i], acts[i]).account, Acting(ss[i + 1], acts[i]);
            q.RenewalDone? && (q.state == Some(Valid) <==> a in ss[i].disk.creds && ReplacedLast(ss, acts, i, a))
  {
    var a := Acting(ss[i], acts[i]).account;
    RunInv(ss, acts, i);
    LoadRefinesPlainMap(ss, acts, i, a);
    assert Next(ss[i], acts[i], ss[i + 1]);
    LoserLoads(ss[i], acts[i], ss[i + 1]);
    if a in ss[i].h.ideal {
      StateTellsLastWrite(ss, acts, i, a);
    }
  }

  lemma ClearFirst(s: System, a: Uuid, g: int) returns (s': System)
    requires Inv(s) && a in s.disk.accounts && Generation(s.disk, a) == g && Sound(s.disk, a)
    ensures Next(s, Clearing(a, g, Done), s') && s'.procs == s.procs && s'.ring == s.ring
    ensures s'.disk == s.disk.(creds := s.disk.creds[a := Tombstone(a, g + 1)])
  {
    var o := Clear(s.disk, a, g, Done);
    s' := StoreStep(s, o).(h := IdealClear(s.h, o.renamed, a));
  }

  lemma LoseToClear(s: System, pid: nat, username: string, nonce: Nonce, d: Disk) returns (s': System)
    requires pid in s.procs && s.procs[pid].RenewalVerified?
    requires ReplaceRefusal(d, s.ring, RequestOf(s.procs[pid], username)).None?
    requires var p := s.procs[pid];
             s.disk == d.(creds := d.creds[p.account := Tombstone(p.account, p.expected + 1)])
    ensures Next(s, Replacing(pid, username, nonce, Done, Done), s')
    ensures var p := s.procs[pid];
            s' == Continue(s, pid, RenewalLost(p.account, p.expected, p.expected + 1))
  {
    var p := s.procs[pid];
    s' := Continue(s, pid, RenewalLost(p.account, p.expected, p.expected + 1));
    assert ReplaceRefusal(s.disk, s.ring, RequestOf(p, username)) == Some(GenerationConflict);
  }

  /** Whenever a renewal is about to succeed, a clear just before its replace
      makes it report the "already updated" success on a missing credential. */
  lemma RenewalSucceedsOnNothing(s: System, pid: nat, username: string, nonce: Nonce) returns (s': System)
    requires Inv(s) && pid in s.procs && s.procs[pid].RenewalVerified?
    requires ReplaceRefusal(s.disk, s.ring, RequestOf(s.procs[pid], username)).None?
    ensures var p := s.procs[pid];
            && Leads(s, [Clearing(p.account, p.expected, Done), Replacing(pid, username, nonce, Done, Done),
                         Loading(pid)], s')
            && pid in s'.procs && s'.procs[pid] == RenewalDone(p.account, p.expected, p.expected + 1, Some(Missing))
  {
    var p := s.procs[pid];
    var clear, replace := Clearing(p.account, p.expected, Done), Replacing(pid, username, nonce, Done, Done);
    var s1 := ClearFirst(s, p.account, p.expected);
    var s2 := LoseToClear(s1, pid, username, nonce, s.disk);
    s' := LoadNothing(s2, pid);
    ThreeSteps(s, clear, s1, replace, s2, Loading(pid), s');
  }

  lemma LoadNothing(s: System, pid: nat) returns (s': System)
    requires pid in s.procs && s.procs[pid].RenewalLost?
    requires var p := s.procs[pid];
             && p.account in s.disk.creds
             && s.disk.creds[p.account] == Tombstone(p.account, p.current)
    ensures Next(s, Loading(pid), s')
    ensures var p := s.procs[pid];
            s' == Continue(s, pid, RenewalDone(p.account, p.expected, p.current, Some(Missing)))
  {
    var p := s.procs[pid];
    assert LoadCredential(s.disk, s.ring, p.account) == Ok(Snapshot(p.account, p.current, Missing, None));
    s' := Continue(s, pid, RenewalDone(p.account, p.expected, p.current, Some(Missing)));
  }

  /** Such a run from the empty directory. */
  lemma UpdatedToNothing(a: Uuid, u: Uuid, token: Token) returns (s0: System, acts: seq<Action>, s': System, q: nat)
    requires a != NIL && u != NIL
    ensures Init(s0) && Leads(s0, acts, s')
    ensures q in s'.procs && s'.procs[q] == RenewalDone(a, 0, 1, Some(Missing))
  {
    var add, s1;
    s0, add, s1 := FirstAccount(a, u);
    OneStep(s0, add, s1);
    q := 0;
    var prepare, s2 := PrepareReissue(s1, a, u, "k", 0, token, q);
    LeadsFurther(s0, [add], s1, prepare, s2);
    LeadsInv(s1, prepare, s2);
    WouldSucceed(s2, a, u, 0, q, token);
    s' := RenewalSucceedsOnNothing(s2, q, "", 0);
    var lose := [Clearing(a, 0, Done), Replacing(q, "", 0, Done, Done), Loading(q)];
    LeadsFurther(s0, [add] + prepare, s2, lose, s');
    acts := [add] + prepare + lose;
  }

  // ---- identity binding -------------------------------------------------------------------------

  /** In every reachable state no two accounts of a deployment share a user,
      and a stored token verified as the user its account is bound to. */
  lemma BindingsSound(ss: seq<System>, acts: seq<Action>, i: nat, a: Uuid, b: Uuid)
    requires Run(ss, acts) && i < |ss| && a in ss[i].disk.accounts && b in ss[i].disk.accounts
    ensures var d := ss[i].disk;
            && (SameBinding(d.accounts[a], d.accounts[b]) ==> a == b)
            && (StoredToken(d, a).Some? ==>
                  && d.accounts[a].user.Some?
                  && (StoredToken(d, a).value, d.accounts[a].user.value) in ss[i].h.accepted)
  {
    RunInv(ss, acts, i);
    if a in ss[i].disk.creds {
      assert VerifiedAt(ss[i].disk, a, ss[i].h.accepted);
    }
  }

  /** A binding once set stays. */
  lemma {:induction false} BindingForever(ss: seq<System>, acts: seq<Action>, i: nat, j: nat, a: Uuid)
    requires Run(ss, acts) && i <= j < |ss| && a in ss[i].disk.accounts && a in ss[j].disk.accounts
    ensures ss[i].disk.accounts[a].deployment == ss[j].disk.accounts[a].deployment
    ensures ss[i].disk.accounts[a].user.Some? ==> ss[j].disk.accounts[a].user == ss[i].disk.accounts[a].user
    decreases j - i
  {
    if i < j {
      RunInv(ss, acts, i);
      GoneForever(ss, acts, i, j, a);
      StepAt(ss, acts, i);
      BindingForever(ss, acts, i + 1, j, a);
    }
  }

  // ---- recheck safety ----------------------------------------------------------------------------

  /** Only a refusal of its own token brings a client there. */
  lemma RejectedBy(s: System, act: Action, s': System, pid: nat)
    requires Next(s, act, s') && pid in s'.procs && s'.procs[pid].RecheckRejected?
    ensures act == Verifying(pid, s'.procs[pid].token, None) || (pid in s.procs && s.procs[pid] == s'.procs[pid])
  {
  }

  /** Before a client is about to mark, the verifier refused exactly the token
      it carries. */
  lemma {:induction false} RejectionCameFirst(ss: seq<System>, acts: seq<Action>, i: nat, pid: nat) returns (k: nat)
    requires Run(ss, acts) && i < |ss| && pid in ss[i].procs && ss[i].procs[pid].RecheckRejected?
    ensures k < i && acts[k] == Verifying(pid, ss[i].procs[pid].token, None)
  {
    assert Next(ss[i - 1], acts[i - 1], ss[i]);
    RejectedBy(ss[i - 1], acts[i - 1], ss[i], pid);
    if acts[i - 1] == Verifying(pid, ss[i].procs[pid].token, None) {
      k := i - 1;
    } else {
      k := RejectionCameFirst(ss, acts, i - 1, pid);
    }
  }

  lemma MarkEffect(d: Disk, a: Uuid, g: int, fate: Fate)
    ensures var d' := MarkInvalid(d, a, g, fate).disk;
            d' != d ==> Generation(d, a) == Generation(d', a) == g && StoredToken(d, a) == StoredToken(d', a)
                        && a in d'.creds && d'.creds[a].state == Invalid
  {
  }

  /** The client's snapshot is what is on file when its mark takes effect. */
  lemma MarkSeesSnapshot(s: System, pid: nat, fate: Fate)
    requires Inv(s) && pid in s.procs && s.procs[pid].RecheckRejected? && AccountInv(s, s.procs[pid].account)
    requires MarkInvalid(s.disk, s.procs[pid].account, s.procs[pid].generation, fate).disk != s.disk
    ensures var p := s.procs[pid];
            Generation(s.disk, p.account) == p.generation && StoredToken(s.disk, p.account) == Some(p.token)
  {
    var p := s.procs[pid];
    assert Abreast(s.disk, p, p.account);
    MarkEffect(s.disk, p.account, p.generation, fate);
    assert p.account in s.disk.creds;
  }

  lemma MarkingLands(s: System, act: Action, s': System)
    requires Next(s, act, s') && act.Marking?
    ensures var p := Acting(s, act);
            && act.pid in s.procs && p.RecheckRejected?
            && s'.disk == MarkInvalid(s.disk, p.account, p.generation, act.fate).disk
  {
  }

  /** A mark that takes effect lands on a live record that still holds exactly
      the rejected token, and changes nothing but its state. */
  lemma MarkLandsOnRejectedToken(ss: seq<System>, acts: seq<Action>, i: nat)
    requires Run(ss, acts) && i < |acts| && acts[i].Marking? && ss[i + 1].disk != ss[i].disk
    requires var p := Acting(ss[i], acts[i]); p.RecheckRejected? ==> Undisturbed(ss, acts, i, p.account)
    ensures var p, d, d' := Acting(ss[i], acts[i]), ss[i].disk, ss[i + 1].disk;
            && p.RecheckRejected? && Generation(d, p.account) == p.generation
            && StoredToken(d, p.account) == StoredToken(d', p.account) == Some(p.token)
            && LoadCredential(d', ss[i + 1].ring, p.account)
               == Ok(Snapshot(p.account, p.generation, Invalid, Some(p.token)))
            && exists k :: 0 <= k < i && acts[k] == Verifying(acts[i].pid, p.token, None)
  {
    var p := Acting(ss[i], acts[i]);
    assert Next(ss[i], acts[i], ss[i + 1]);
    MarkingLands(ss[i], acts[i], ss[i + 1]);
    RunInv(ss, acts, i);
    RunInv(ss, acts, i + 1);
    AccountRun(ss, acts, i, p.account);
    MarkEffect(ss[i].disk, p.account, p.generation, acts[i].fate);
    MarkSeesSnapshot(ss[i], acts[i].pid, acts[i].fate);
    LoadIsIdeal(ss[i + 1].disk, ss[i + 1].ring, ss[i + 1].h, p.account);
    var _ := RejectionCameFirst(ss, acts, i, acts[i].pid);
  }

  /** The record format rule: in every reachable state a missing record has no
      ciphertext, and conversely unless its account was half deleted in a live
      process. */
  lemma MissingIffNoCiphertext(ss: seq<System>, acts: seq<Action>, i: nat, a: Uuid)
    requires Run(ss, acts) && i < |ss| && a in ss[i].disk.creds
    ensures ss[i].disk.creds[a].state.Missing? ==> ss[i].disk.creds[a].box.None?
    ensures Undisturbed(ss, acts, i, a) ==>
              && ValidRecord(ss[i].disk.creds[a])
              && (ss[i].disk.creds[a].state.Missing? <==> ss[i].disk.creds[a].box.None?)
  {
    RunInv(ss, acts, i);
    if Undisturbed(ss, acts, i, a) {
      AccountRun(ss, acts, i, a);
    }
  }

  /** The bare method does not keep the rule: it keeps it exactly when the
      addressed generation is not a tombstone. */
  lemma BareMarkKeepsRuleIff(d: Disk, a: Uuid, g: int)
    requires a in d.creds && ValidRecord(d.creds[a])
    ensures ValidRecord(MarkInvalid(d, a, g, Done).disk.creds[a]) <==>
            !(d.creds[a].generation == g && d.creds[a].state.Missing?)
  {
  }

  // ---- enrollment --------------------------------------------------------------------------------

  /** A link that succeeds leaves the key under the account, which exists. */
  lemma LinkOwns(d: Disk, p: Proc, keyId: Uuid, fate: Fate)
    requires p.EnrollStored?
    ensures var o := Link(d, p, keyId, fate);
            o.result.Ok? ==> && p.job.blob in o.disk.keys && o.disk.keys[p.job.blob].owner == p.account
                             && p.account in o.disk.accounts && o.disk.accounts == d.accounts
  {
  }

  lemma LinkingLands(s: System, act: Action, s': System)
    requires Next(s, act, s') && act.Linking? && Acting(s', act).EnrollDone?
    ensures var p, q := Acting(s, act), Acting(s', act);
            && act.pid in s.procs && p.EnrollStored? && q.job == p.job && q.account == p.account
            && Link(s.disk, p, act.keyId, act.fate).result.Ok?
            && s'.disk == Link(s.disk, p, act.keyId, act.fate).disk && s.h.accepted == s'.h.accepted
  {
  }

  /** An enrollment that succeeds ends with the proven key owned by the account
      it returns, and that account bound to the identity of its token. */
  lemma EnrollmentLinksKey(ss: seq<System>, acts: seq<Action>, i: nat)
    requires Run(ss, acts) && i < |acts| && acts[i].Linking? && Acting(ss[i + 1], acts[i]).EnrollDone?
    ensures var p, d' := Acting(ss[i + 1], acts[i]), ss[i + 1].disk;
            && p.job.blob in d'.keys && d'.keys[p.job.blob].owner == p.account
            && p.account in d'.accounts && BoundTo(d'.accounts[p.account], p.job.deployment, p.job.user)
            && (p.job.token, p.job.user) in ss[i + 1].h.accepted
  {
    var p := Acting(ss[i], acts[i]);
    RunInv(ss, acts, i);
    assert Next(ss[i], acts[i], ss[i + 1]);
    LinkingLands(ss[i], acts[i], ss[i + 1]);
    assert ProcInv(ss[i].disk, ss[i].h, p);
    LinkOwns(ss[i].disk, p, acts[i].keyId, acts[i].fate);
  }

  /** The branch that linkEnrollment calls unreachable is unreachable. */
  lemma EnrollmentNeverWrongIdentity(ss: seq<System>, acts: seq<Action>, i: nat)
    requires Run(ss, acts) && i < |acts| && acts[i].Replacing? && Acting(ss[i], acts[i]).EnrollReady?
    ensures ReplaceOutcome(ss[i], acts[i]).result != Err(WrongIdentity)
    ensures ReplaceOutcome(ss[i], acts[i]).result != Err(DuplicateUser)
    ensures Undisturbed(ss, acts, i, Acting(ss[i], acts[i]).account) ==>
              ReplaceOutcome(ss[i], acts[i]).result != Err(Corrupt)
  {
    RunInv(ss, acts, i);
    var p := Acting(ss[i], acts[i]);
    assert ProcInv(ss[i].disk, ss[i].h, p);
    if p.account in ss[i].disk.accounts {
      assert !DuplicateBinding(ss[i].disk, p.job.deployment, p.job.user, p.account);
    }
    if Undisturbed(ss, acts, i, p.account) {
      AccountRun(ss, acts, i, p.account);
    }
  }

  /** A key record never changes owner while it exists. */
  lemma {:induction false} KeyOwnerForever(ss: seq<System>, acts: seq<Action>, i: nat, j: nat, b: Blob)
    requires Run(ss, acts) && i <= j < |ss| && forall k :: i <= k <= j ==> b in ss[k].disk.keys
    ensures ss[i].disk.keys[b].owner == ss[j].disk.keys[b].owner && ss[i].disk.keys[b].id == ss[j].disk.keys[b].id
    decreases j - i
  {
    if i < j {
      RunInv(ss, acts, i);
      StepAt(ss, acts, i);
      KeyOwnerForever(ss, acts, i + 1, j, b);
    }
  }
}
