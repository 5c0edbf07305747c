/** DeleteAccount that stops between its last two unlinks in a process that
    lives on: exactly what that makes possible, and a run from the empty
    directory in which it happens. */
module HalfDeletion {
  import opened Texts
  import opened Records
  import opened Protocol
  import opened StoreInvariant
  import opened ProtocolInvariant
  import opened CredentialTheorems
  import opened Runs

  // ---- exactly when it goes wrong --------------------------------------------------------------

  /** The system after a cascade that stopped at `after` without a crash. */
  function AfterDeletion(s: System, a: Uuid, after: Disk): System {
    s.(disk := after, h := if a in after.creds then s.h else s.h.(ideal := s.h.ideal - {a}))
  }

  lemma DeletionIsStep(s: System, a: Uuid, after: Disk)
    requires a in s.disk.accounts && CascadePoint(s.disk, a, after)
    ensures Next(s, DeletingAccount(a, after, false), AfterDeletion(s, a, after))
  {
  }

  /** A client of `a` is about to mark a tombstone. */
  predicate MarksTombstone(s: System, pid: nat, a: Uuid) {
    && pid in s.procs && s.procs[pid].RecheckRejected? && s.procs[pid].account == a && a in s.disk.creds
    && s.disk.creds[a].generation == s.procs[pid].generation && s.disk.creds[a].state.Missing?
  }

  /** A client of `a` is about to mark `token`, which is not the one it had refused. */
  predicate MarksOther(s: System, pid: nat, a: Uuid, token: Token) {
    && pid in s.procs && s.procs[pid].RecheckRejected? && s.procs[pid].account == a && s.procs[pid].token != token
    && Generation(s.disk, a) == s.procs[pid].generation && StoredToken(s.disk, a) == Some(token)
  }

  /** A continuation without another half deletion of `a` in a live process. */
  ghost predicate LeadsUndisturbed(s: System, acts: seq<Action>, s': System, a: Uuid) {
    exists ss: seq<System> ::
      Steps(ss, acts) && ss[0] == s && ss[|acts|] == s' && Undisturbed(ss, acts, |acts|, a)
  }

  /** A continuation without another half deletion of `a` at all. */
  ghost predicate LeadsWhole(s: System, acts: seq<Action>, s': System, a: Uuid) {
    exists ss: seq<System> ::
      Steps(ss, acts) && ss[0] == s && ss[|acts|] == s' && NeverHalved(ss, 0, |acts|, a)
  }

  lemma CalmIsWhole(s: System, acts: seq<Action>, s': System, a: Uuid)
    requires Inv(s) && Leads(s, acts, s') && Calm(acts)
    ensures LeadsWhole(s, acts, s', a) && LeadsUndisturbed(s, acts, s', a)
  {
    var ss: seq<System> :| Steps(ss, acts) && ss[0] == s && ss[|acts|] == s';
    forall k | 0 <= k < |acts| ensures !HalfDeleted(ss[k].disk, ss[k + 1].disk, a) {
      StepsInv(ss, acts, k);
      StepAt(ss, acts, k);
    }
    assert NeverHalved(ss, 0, |acts|, a) && Undisturbed(ss, acts, |acts|, a);
  }

  /** What a half deletion of a live record leaves behind. */
  lemma HalfLeaves(s: System, a: Uuid, after: Disk) returns (u: Uuid, v: Version)
    requires Inv(s) && a in s.disk.accounts && CascadePoint(s.disk, a, after) && HalfDeleted(s.disk, after, a)
    requires StoredToken(s.disk, a).Some?
    ensures var s1 := AfterDeletion(s, a, after);
            && Inv(s1) && a in s1.disk.accounts && a !in s1.disk.creds
            && s1.disk.accounts[a].user == Some(u) && u != NIL && v in s1.ring.table
  {
    DeletionIsStep(s, a, after);
    StepInv(s, DeletingAccount(a, after, false), AfterDeletion(s, a, after));
    CascadeShape(s.disk, a, after);
    assert VerifiedAt(s.disk, a, s.h.accepted);
    u, v := s.disk.accounts[a].user.value, s.disk.creds[a].version.value;
  }

  /** An account in order offers no client a wrong mark. */
  lemma InOrderMarksRight(s: System, pid: nat, a: Uuid, token: Token)
    requires Inv(s) && AccountInv(s, a)
    ensures !MarksTombstone(s, pid, a) && !MarksOther(s, pid, a, token)
  {
    if pid in s.procs {
      assert Abreast(s.disk, s.procs[pid], a);
    }
  }

  lemma UndisturbedMarksRight(s: System, acts: seq<Action>, s': System, pid: nat, a: Uuid, token: Token)
    requires Inv(s) && AccountInv(s, a) && LeadsUndisturbed(s, acts, s', a)
    ensures !MarksTombstone(s', pid, a) && !MarksOther(s', pid, a, token)
  {
    var ss: seq<System> :| Steps(ss, acts) && ss[0] == s && ss[|acts|] == s' && Undisturbed(ss, acts, |acts|, a);
    StepsInv(ss, acts, |acts|);
    AccountSteps(ss, acts, |acts|, a);
    InOrderMarksRight(s', pid, a, token);
  }

  /** From a half deletion that the process survives, a waiting mark can reach
      a tombstone. */
  lemma ReachTombstone(s: System, a: Uuid, pid: nat) returns (acts: seq<Action>, s': System)
    requires a in s.disk.accounts && a !in s.disk.creds && pid in s.procs
    requires s.procs[pid].RecheckRejected? && s.procs[pid].account == a && s.procs[pid].generation >= 1
    ensures Leads(s, acts, s') && Calm(acts) && MarksTombstone(s', pid, a)
  {
    acts, s' := ClearRepeatedly(s, a, s.procs[pid].generation);
  }

  /** A client holds a refused snapshot of a live record while DeleteAccount
      stops at `after` and the process lives on.  Its mark can reach a tombstone,
      and it can reach any other token although nobody refused that one, exactly
      when the cascade stopped between its last two unlinks. */
  lemma StaleMarkPossibleIffHalved(s: System, a: Uuid, after: Disk, pid: nat, token: Token)
    requires Inv(s) && AccountInv(s, a) && a in s.disk.accounts && CascadePoint(s.disk, a, after)
    requires pid in s.procs && s.procs[pid].RecheckRejected? && s.procs[pid].account == a
    requires a in s.disk.creds && s.disk.creds[a].generation == s.procs[pid].generation && s.procs[pid].token != token
    ensures HalfDeleted(s.disk, after, a) <==>
            exists acts, s' :: LeadsUndisturbed(AfterDeletion(s, a, after), acts, s', a) && MarksTombstone(s', pid, a)
    ensures HalfDeleted(s.disk, after, a) <==>
            exists acts, s' :: LeadsUndisturbed(AfterDeletion(s, a, after), acts, s', a) && Calm(acts)
                               && MarksOther(s', pid, a, token)
  {
    var s1 := AfterDeletion(s, a, after);
    DeletionIsStep(s, a, after);
    StepInv(s, DeletingAccount(a, after, false), s1);
    if HalfDeleted(s.disk, after, a) {
      StaleMarkAfterHalf(s, a, after, pid, token);
    } else {
      AccountStep(s, DeletingAccount(a, after, false), s1, a);
      forall acts, s' | LeadsUndisturbed(s1, acts, s', a)
        ensures !MarksTombstone(s', pid, a) && !MarksOther(s', pid, a, token)
      {
        UndisturbedMarksRight(s1, acts, s', pid, a, token);
      }
    }
  }

  lemma StaleMarkAfterHalf(s: System, a: Uuid, after: Disk, pid: nat, token: Token)
    requires Inv(s) && AccountInv(s, a) && a in s.disk.accounts && CascadePoint(s.disk, a, after)
    requires pid in s.procs && s.procs[pid].RecheckRejected? && s.procs[pid].account == a
    requires a in s.disk.creds && s.disk.creds[a].generation == s.procs[pid].generation && s.procs[pid].token != token
    requires HalfDeleted(s.disk, after, a)
    ensures exists acts, s' :: LeadsUndisturbed(AfterDeletion(s, a, after), acts, s', a) && MarksTombstone(s', pid, a)
    ensures exists acts, s' :: LeadsUndisturbed(AfterDeletion(s, a, after), acts, s', a) && Calm(acts)
                               && MarksOther(s', pid, a, token)
  {
    var s1, g := AfterDeletion(s, a, after), s.procs[pid].generation;
    assert Abreast(s.disk, s.procs[pid], a)
           && SealedAt(s.disk.creds[a], a, s.disk.accounts[a].deployment, s.ring.table);
    var u, v := HalfLeaves(s, a, after);
    var acts, s' := ReachTombstone(s1, a, pid);
    CalmIsWhole(s1, acts, s', a);
    var acts2, s2 := Reissue(s1, a, u, v, g, token);
    CalmIsWhole(s1, acts2, s2, a);
    StoredIsOnFile(s1, acts2, s2, a, g, token);
    assert MarksOther(s2, pid, a, token);
  }

  lemma StoredIsOnFile(s: System, acts: seq<Action>, s': System, a: Uuid, g: int, token: Token)
    requires Inv(s) && Leads(s, acts, s') && Stored(s', a, g, token)
    ensures Generation(s'.disk, a) == g && StoredToken(s'.disk, a) == Some(token)
  {
    LeadsInv(s, acts, s');
    LoadIsIdeal(s'.disk, s'.ring, s'.h, a);
  }

  /** A snapshot of `a` of generation `g` with another token than before. */
  ghost predicate Reused(s: System, a: Uuid, g: int, token: Token) {
    var r := LoadCredential(s.disk, s.ring, a);
    r.Ok? && r.value.generation == g && r.value.token == Some(token)
  }

  /** DeleteAccount stops at `after` and the process lives on.  The generation on
      file can come to name another token in a later snapshot exactly when the
      cascade stopped between its last two unlinks. */
  lemma SnapshotReusedIffHalved(s: System, a: Uuid, after: Disk, token: Token)
    requires Inv(s) && a in s.disk.accounts && CascadePoint(s.disk, a, after)
    requires StoredToken(s.disk, a).Some? && StoredToken(s.disk, a).value != token
    ensures HalfDeleted(s.disk, after, a) <==>
            exists acts, s' :: LeadsWhole(AfterDeletion(s, a, after), acts, s', a)
                               && Reused(s', a, Generation(s.disk, a), token)
  {
    var s1, g := AfterDeletion(s, a, after), Generation(s.disk, a);
    DeletionIsStep(s, a, after);
    if HalfDeleted(s.disk, after, a) {
      assert SealedAt(s.disk.creds[a], a, s.disk.accounts[a].deployment, s.ring.table);
      var u, v := HalfLeaves(s, a, after);
      var acts, s' := Reissue(s1, a, u, v, g, token);
      CalmIsWhole(s1, acts, s', a);
      assert Reused(s', a, g, token);
    } else {
      forall acts, s' | LeadsWhole(s1, acts, s', a) ensures !Reused(s', a, g, token) {
        var ss: seq<System> :| Steps(ss, acts) && ss[0] == s1 && ss[|acts|] == s' && NeverHalved(ss, 0, |acts|, a);
        NotReused(s, a, after, ss, acts, token);
      }
    }
  }

  lemma NotReused(s: System, a: Uuid, after: Disk, ss: seq<System>, acts: seq<Action>, token: Token)
    requires Inv(s) && a in s.disk.accounts && CascadePoint(s.disk, a, after) && !HalfDeleted(s.disk, after, a)
    requires StoredToken(s.disk, a).Some? && StoredToken(s.disk, a).value != token
    requires Steps(ss, acts) && ss[0] == AfterDeletion(s, a, after) && NeverHalved(ss, 0, |acts|, a)
    ensures !Reused(ss[|acts|], a, Generation(s.disk, a), token)
  {
    var delete := DeletingAccount(a, after, false);
    DeletionIsStep(s, a, after);
    Prepended(s, delete, ss, acts);
    NeverHalvedBefore(s, ss, a);
    assert ([s] + ss)[|[delete] + acts|] == ss[|acts|];
    SnapshotsAgreeOnFile([s] + ss, [delete] + acts, a);
  }

  lemma NeverHalvedBefore(s: System, ss: seq<System>, a: Uuid)
    requires ss != [] && NeverHalved(ss, 0, |ss| - 1, a) && !HalfDeleted(s.disk, ss[0].disk, a)
    ensures NeverHalved([s] + ss, 0, |ss|, a)
  {
    var all := [s] + ss;
    forall k | 0 <= k < |ss| ensures !HalfDeleted(all[k].disk, all[k + 1].disk, a) {
      if k > 0 { assert !HalfDeleted(ss[k - 1].disk, ss[k].disk, a); }
    }
  }

  /** A token on file at the start is the only one its generation ever names. */
  lemma SnapshotsAgreeOnFile(ss: seq<System>, acts: seq<Action>, a: Uuid)
    requires Steps(ss, acts) && Inv(ss[0]) && NeverHalved(ss, 0, |acts|, a) && StoredToken(ss[0].disk, a).Some?
    ensures var r := LoadCredential(ss[|acts|].disk, ss[|acts|].ring, a);
            r.Ok? && r.value.generation == Generation(ss[0].disk, a) && r.value.token.Some? ==>
              r.value.token == StoredToken(ss[0].disk, a)
  {
    var n := |acts|;
    StepsInv(ss, acts, n);
    LoadIsIdeal(ss[n].disk, ss[n].ring, ss[n].h, a);
    if a in ss[n].disk.creds {
      GenerationsOnlyGrow(ss, acts, 0, n, a);
    }
  }

  // ---- a run in which it happens ------------------------------------------------------------------

  /** The verifier never refuses `token`, and no process dies. */
  ghost predicate NeverRefused(acts: seq<Action>, token: Token) {
    forall i :: 0 <= i < |acts| ==>
      && (acts[i].Verifying? && acts[i].token == token ==> acts[i].user.Some?)
      && (acts[i].DeletingAccount? ==> !acts[i].crash)
  }

  lemma JoinNeverRefused(x: seq<Action>, y: seq<Action>, token: Token)
    requires NeverRefused(x, token) && (NeverRefused(y, token) || Calm(y))
    ensures NeverRefused(x + y, token)
  {
  }

  /** The credential unlinked and the account not. */
  ghost function Half(d: Disk, a: Uuid): Disk {
    d.(keys := d.keys - KeysOf(d, a), creds := d.creds - {a})
  }

  /** A stored token is refused, and its account half deleted in a process that
      lives on. */
  lemma RefuseAndHalve(s: System, a: Uuid, first: Token, r: nat)
    returns (acts: seq<Action>, s': System, u: Uuid, v: Version)
    requires Inv(s) && Stored(s, a, 1, first) && first != "" && r !in s.procs
    ensures Leads(s, acts, s') && Inv(s') && forall t :: t != first ==> NeverRefused(acts, t)
    ensures r in s'.procs && s'.procs[r] == RecheckRejected(a, 1, first)
    ensures a in s'.disk.accounts && a !in s'.disk.creds
    ensures s'.disk.accounts[a].user == Some(u) && u != NIL && v in s'.ring.table
  {
    var refuse, s1 := Refuse(s, a, 1, first, r);
    StoredIsOnFile(s, refuse, s1, a, 1, first);
    LeadsInv(s, refuse, s1);
    StoredHasAccount(s1, a, 1, first);
    var delete := DeletingAccount(a, Half(s1.disk, a), false);
    s' := AfterDeletion(s1, a, Half(s1.disk, a));
    u, v := HalfLeaves(s1, a, Half(s1.disk, a));
    DeletionIsStep(s1, a, Half(s1.disk, a));
    LeadsOn(s, refuse, s1, delete, s');
    acts := refuse + [delete];
  }

  lemma StoredHasAccount(s: System, a: Uuid, g: int, token: Token)
    requires Inv(s) && Stored(s, a, g, token)
    ensures a in s.disk.creds && a in s.disk.accounts
  {
  }

  /** Then `second` is stored under the same generation, and the waiting mark
      lands on it. */
  lemma ReissueAndMark(s: System, a: Uuid, first: Token, second: Token, r: nat, u: Uuid, v: Version)
    returns (acts: seq<Action>, s': System)
    requires Inv(s) && r in s.procs && s.procs[r] == RecheckRejected(a, 1, first)
    requires a in s.disk.accounts && a !in s.disk.creds
    requires s.disk.accounts[a].user == Some(u) && u != NIL && v in s.ring.table
    ensures Leads(s, acts, s') && Calm(acts)
    ensures LoadCredential(s'.disk, s'.ring, a) == Ok(Snapshot(a, 1, Invalid, Some(second)))
  {
    var reissue, m := Reissue(s, a, u, v, 1, second);
    LeadsInv(s, reissue, m);
    var mark := Marking(r, Done);
    s' := LandMark(m, a, 1, r, first, second);
    LeadsOn(s, reissue, m, mark, s');
    CalmJoin(reissue, [mark]);
    acts := reissue + [mark];
  }

  lemma MarkTheWrongToken(s: System, a: Uuid, first: Token, second: Token) returns (acts: seq<Action>, s': System)
    requires Inv(s) && Stored(s, a, 1, first) && first != second && first != ""
    ensures Leads(s, acts, s') && NeverRefused(acts, second)
    ensures LoadCredential(s'.disk, s'.ring, a) == Ok(Snapshot(a, 1, Invalid, Some(second)))
  {
    var r := UnusedPid(s.procs.Keys);
    var halve, m, u, v := RefuseAndHalve(s, a, first, r);
    var mark;
    mark, s' := ReissueAndMark(m, a, first, second, r, u, v);
    LeadsFurther(s, halve, m, mark, s');
    JoinNeverRefused(halve, mark, second);
    acts := halve + mark;
  }

  /** From the empty directory, in one process that never dies: two snapshots of
      one account and generation carry different tokens, and the second token is
      marked invalid although the verifier never refused it. */
  lemma OneProcessMarksTheWrongToken(a: Uuid, u: Uuid, first: Token, second: Token)
    returns (s0: System, early: seq<Action>, s: System, later: seq<Action>, s': System)
    requires a != NIL && u != NIL && first != second && first != ""
    ensures Init(s0) && Leads(s0, early, s) && Leads(s, later, s') && Leads(s0, early + later, s')
    ensures NeverRefused(early + later, second)
    ensures LoadCredential(s.disk, s.ring, a) == Ok(Snapshot(a, 1, Valid, Some(first)))
    ensures LoadCredential(s'.disk, s'.ring, a) == Ok(Snapshot(a, 1, Invalid, Some(second)))
  {
    s0, early, s := StoreFirst(a, u, first);
    later, s' := MarkTheWrongToken(s, a, first, second);
    LeadsFurther(s0, early, s, later, s');
    assert NeverRefused([], second);
    JoinNeverRefused([], early, second);
    assert [] + early == early;
    JoinNeverRefused(early, later, second);
  }
}
