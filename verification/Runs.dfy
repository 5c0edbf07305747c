/** Putting runs of the protocol together, action by action. */
module Runs {
  import opened Texts
  import opened Records
  import opened Protocol
  import opened StoreInvariant
  import opened ProtocolInvariant

  /** The actions `acts` lead from `s` to `s'`. */
  ghost predicate Leads(s: System, acts: seq<Action>, s': System) {
    exists ss :: Steps(ss, acts) && ss[0] == s && ss[|acts|] == s'
  }

  lemma LeadsNowhere(s: System)
    ensures Leads(s, [], s)
  {
    assert Steps([s], []);
  }

  lemma LeadsOn(s: System, acts: seq<Action>, m: System, act: Action, s': System)
    requires Leads(s, acts, m) && Next(m, act, s')
    ensures Leads(s, acts + [act], s')
  {
    var ss :| Steps(ss, acts) && ss[0] == s && ss[|acts|] == m;
    var ss', acts' := ss + [s'], acts + [act];
    forall i | 0 <= i < |acts'| ensures Next(ss'[i], acts'[i], ss'[i + 1]) {
      if i < |acts| { assert Next(ss[i], acts[i], ss[i + 1]); }
    }
    assert Steps(ss', acts') && ss'[|acts'|] == s';
  }

  lemma OneStep(s: System, act: Action, s': System)
    requires Next(s, act, s')
    ensures Leads(s, [act], s')
  {
    LeadsNowhere(s);
    LeadsOn(s, [], s, act, s');
    assert [] + [act] == [act];
  }

  lemma ThreeSteps(s: System, a: Action, s1: System, b: Action, s2: System, c: Action, s3: System)
    requires Next(s, a, s1) && Next(s1, b, s2) && Next(s2, c, s3)
    ensures Leads(s, [a, b, c], s3)
  {
    OneStep(s, a, s1);
    LeadsOn(s, [a], s1, b, s2);
    LeadsOn(s, [a] + [b], s2, c, s3);
    assert [a] + [b] + [c] == [a, b, c];
  }

  lemma Joined(ss: seq<System>, acts: seq<Action>, tt: seq<System>, more: seq<Action>)
    requires Steps(ss, acts) && Steps(tt, more) && ss[|acts|] == tt[0]
    ensures Steps(ss[..|acts|] + tt, acts + more)
  {
    var n, all, both := |acts|, ss[..|acts|] + tt, acts + more;
    forall i | 0 <= i < |both| ensures Next(all[i], both[i], all[i + 1]) {
      if i < n {
        assert Next(ss[i], acts[i], ss[i + 1]);
      } else {
        assert Next(tt[i - n], more[i - n], tt[i - n + 1]);
      }
    }
  }

  lemma LeadsFurther(s: System, acts: seq<Action>, m: System, more: seq<Action>, s': System)
    requires Leads(s, acts, m) && Leads(m, more, s')
    ensures Leads(s, acts + more, s')
  {
    var ss :| Steps(ss, acts) && ss[0] == s && ss[|acts|] == m;
    var tt :| Steps(tt, more) && tt[0] == m && tt[|more|] == s';
    Joined(ss, acts, tt, more);
    var all := ss[..|acts|] + tt;
    assert all[0] == s && all[|acts + more|] == s';
  }

  lemma Prepended(s: System, act: Action, ss: seq<System>, acts: seq<Action>)
    requires Steps(ss, acts) && Next(s, act, ss[0])
    ensures Steps([s] + ss, [act] + acts)
  {
    var all, both := [s] + ss, [act] + acts;
    forall i | 0 <= i < |both| ensures Next(all[i], both[i], all[i + 1]) {
      if i > 0 { assert Next(ss[i - 1], acts[i - 1], ss[i]); }
    }
  }

  lemma LeadsInv(s: System, acts: seq<Action>, s': System)
    requires Inv(s) && Leads(s, acts, s')
    ensures Inv(s')
  {
    var ss :| Steps(ss, acts) && ss[0] == s && ss[|acts|] == s';
    StepsInv(ss, acts, |acts|);
  }

  /** Nothing is deleted, no process dies, and the verifier refuses nothing. */
  ghost predicate Calm(acts: seq<Action>) {
    forall i :: 0 <= i < |acts| ==> !acts[i].DeletingAccount? && (acts[i].Verifying? ==> acts[i].user.Some?)
  }

  /** A client number that is not in use. */
  lemma {:induction false} UnusedPid(pids: set<nat>) returns (q: nat)
    ensures forall p :: p in pids ==> p < q
  {
    if pids == {} {
      q := 0;
    } else {
      var p :| p in pids;
      var r := UnusedPid(pids - {p});
      q := if r > p then r else p + 1;
      forall x | x in pids ensures x < q {
        if x != p { assert x in pids - {p}; }
      }
    }
  }

  // ---- storing any token at any generation -----------------------------------------------------

  /** The credential file of `a` is gone or a tombstone of generation `g`. */
  predicate Blank(d: Disk, a: Uuid, g: nat) {
    && a in d.accounts && Generation(d, a) == g
    && (a in d.creds ==> d.creds[a] == Tombstone(a, g))
  }

  /** Clearing `n` times turns nothing into a tombstone of generation `n`. */
  lemma {:induction false} ClearRepeatedly(s: System, a: Uuid, n: nat) returns (acts: seq<Action>, s': System)
    requires Blank(s.disk, a, 0) && a !in s.disk.creds
    ensures Leads(s, acts, s') && Calm(acts) && Blank(s'.disk, a, n) && (n > 0 ==> a in s'.disk.creds)
    ensures s'.procs == s.procs && s'.ring == s.ring && s'.disk.accounts == s.disk.accounts
  {
    if n == 0 {
      acts, s' := [], s;
      LeadsNowhere(s);
    } else {
      var m;
      acts, m := ClearRepeatedly(s, a, n - 1);
      var act, o := Clearing(a, n - 1, Done), Clear(m.disk, a, n - 1, Done);
      s' := StoreStep(m, o).(h := IdealClear(m.h, o.renamed, a));
      assert Next(m, act, s');
      LeadsOn(s, acts, m, act, s');
      acts := acts + [act];
    }
  }

  /** Account `a` can take a token that verifies as `u`. */
  predicate Ready(s: System, a: Uuid, u: Uuid) {
    && a in s.disk.accounts && s.disk.accounts[a].enabled && s.disk.accounts[a].user == Some(u)
    && u != NIL && s.ring.active in s.ring.table
  }

  lemma MakeReady(s: System, a: Uuid, u: Uuid, v: Version) returns (acts: seq<Action>, s': System)
    requires a in s.disk.accounts && s.disk.accounts[a].user == Some(u) && u != NIL && v in s.ring.table
    ensures Leads(s, acts, s') && Calm(acts) && Ready(s', a, u)
    ensures s'.procs == s.procs && s'.disk.creds == s.disk.creds && s'.ring.table == s.ring.table
  {
    var enable, rotate := EnablingAccount(a, true, Done), Rotating(v);
    var m := StoreStep(s, SetAccountEnabled(s.disk, a, true, Done));
    assert Next(s, enable, m);
    s' := m.(ring := m.ring.(active := v));
    assert Next(m, rotate, s');
    OneStep(s, enable, m);
    LeadsOn(s, [enable], m, rotate, s');
    acts := [enable] + [rotate];
  }

  lemma StartRenewal(s: System, a: Uuid, q: nat) returns (s': System)
    requires a in s.disk.accounts && q !in s.procs
    ensures Next(s, Starting(q, RenewalStart(a, s.disk.accounts[a])), s')
    ensures s' == Continue(s, q, RenewalStart(a, s.disk.accounts[a]))
  {
    s' := Continue(s, q, RenewalStart(a, s.disk.accounts[a]));
  }

  lemma LoadBlank(s: System, a: Uuid, copy: Account, g: nat, q: nat) returns (s': System)
    requires Blank(s.disk, a, g) && q in s.procs && s.procs[q] == RenewalStart(a, copy)
    ensures Next(s, Loading(q), s') && s' == Continue(s, q, RenewalReady(a, copy, g))
  {
    assert LoadCredential(s.disk, s.ring, a) == Ok(Snapshot(a, g, Missing, None));
    s' := Continue(s, q, RenewalReady(a, copy, g));
  }

  lemma AcceptToken(s: System, a: Uuid, copy: Account, g: nat, q: nat, token: Token, u: Uuid) returns (s': System)
    requires q in s.procs && s.procs[q] == RenewalReady(a, copy, g) && copy.user == Some(u) && u != NIL
    ensures Next(s, Verifying(q, token, Some(u)), s') && s'.disk == s.disk && s'.ring == s.ring
    ensures s'.procs == s.procs[q := RenewalVerified(a, copy, g, token, u)]
  {
    s' := Continue(s, q, RenewalVerified(a, copy, g, token, u)).(h := s.h.(accepted := s.h.accepted + {(token, u)}));
  }

  /** A renewal of `a` by client `q`, up to its replace. */
  lemma VerifyRenewal(s: System, a: Uuid, u: Uuid, g: nat, q: nat, token: Token) returns (acts: seq<Action>, s': System)
    requires Ready(s, a, u) && Blank(s.disk, a, g) && q !in s.procs
    ensures Leads(s, acts, s') && Calm(acts) && s'.disk == s.disk && s'.ring == s.ring
    ensures s'.procs == s.procs[q := RenewalVerified(a, s.disk.accounts[a], g, token, u)]
  {
    var copy := s.disk.accounts[a];
    var start, load, verify := Starting(q, RenewalStart(a, copy)), Loading(q), Verifying(q, token, Some(u));
    var s1 := StartRenewal(s, a, q);
    var s2 := LoadBlank(s1, a, copy, g, q);
    s' := AcceptToken(s2, a, copy, g, q, token, u);
    ThreeSteps(s, start, s1, load, s2, verify, s');
    acts := [start, load, verify];
  }

  lemma WouldSucceed(s: System, a: Uuid, u: Uuid, g: nat, q: nat, token: Token)
    requires Inv(s) && Ready(s, a, u) && Blank(s.disk, a, g)
    requires q in s.procs && s.procs[q] == RenewalVerified(a, s.disk.accounts[a], g, token, u)
    ensures ReplaceRefusal(s.disk, s.ring, RequestOf(s.procs[q], "")).None?
  {
    assert !DuplicateBinding(s.disk, s.disk.accounts[a].deployment, u, a);
  }

  lemma CommitRenewal(s: System, a: Uuid, u: Uuid, g: nat, q: nat, token: Token) returns (s': System)
    requires Inv(s) && Ready(s, a, u) && Blank(s.disk, a, g)
    requires q in s.procs && s.procs[q] == RenewalVerified(a, s.disk.accounts[a], g, token, u)
    ensures Next(s, Replacing(q, "", 0, Done, Done), s') && s'.ring == s.ring
    ensures Generation(s'.disk, a) == g + 1 && a in s'.disk.creds && ValidRecord(s'.disk.creds[a])
    ensures StoredToken(s'.disk, a) == Some(token) && s'.disk.creds[a].state.Valid?
    ensures s'.procs == s.procs[q := RenewalDone(a, g, g + 1, Some(Valid))]
  {
    var p := s.procs[q];
    var req := RequestOf(p, "");
    WouldSucceed(s, a, u, g, q, token);
    var o := Replace(s.disk, s.ring, req, 0, Done, Done);
    s' := Continue(StoreStep(s, o), q, AfterReplace(p, o.result, g)).(h := IdealReplace(s.h, o.renamed, a, token));
  }

  /** The credential of `a` is a valid one of generation `g` that holds `token`. */
  ghost predicate Stored(s: System, a: Uuid, g: int, token: Token) {
    LoadCredential(s.disk, s.ring, a) == Ok(Snapshot(a, g, Valid, Some(token)))
  }

  lemma CommitStored(s: System, a: Uuid, u: Uuid, g: nat, q: nat, token: Token) returns (s': System)
    requires Inv(s) && Ready(s, a, u) && Blank(s.disk, a, g)
    requires q in s.procs && s.procs[q] == RenewalVerified(a, s.disk.accounts[a], g, token, u)
    ensures Next(s, Replacing(q, "", 0, Done, Done), s') && Stored(s', a, g + 1, token)
    ensures forall p :: p in s.procs && p != q ==> p in s'.procs && s'.procs[p] == s.procs[p]
  {
    s' := CommitRenewal(s, a, u, g, q, token);
    StepInv(s, Replacing(q, "", 0, Done, Done), s');
    LoadIsIdeal(s'.disk, s'.ring, s'.h, a);
  }

  lemma CommitCalmly(s: System, a: Uuid, u: Uuid, g: nat, q: nat, token: Token) returns (acts: seq<Action>, s': System)
    requires Inv(s) && Ready(s, a, u) && Blank(s.disk, a, g)
    requires q in s.procs && s.procs[q] == RenewalVerified(a, s.disk.accounts[a], g, token, u)
    ensures Leads(s, acts, s') && Calm(acts) && Stored(s', a, g + 1, token)
    ensures forall p :: p in s.procs && p != q ==> p in s'.procs && s'.procs[p] == s.procs[p]
  {
    var replace := Replacing(q, "", 0, Done, Done);
    s' := CommitStored(s, a, u, g, q, token);
    OneStep(s, replace, s');
    acts := [replace];
  }

  lemma CalmJoin(x: seq<Action>, y: seq<Action>)
    requires Calm(x) && Calm(y)
    ensures Calm(x + y)
  {
  }

  /** Without a credential file, clears and one renewal lead to a replace at any
      generation. */
  lemma PrepareReissue(s: System, a: Uuid, u: Uuid, v: Version, g: nat, token: Token, q: nat)
    returns (acts: seq<Action>, s': System)
    requires a in s.disk.accounts && s.disk.accounts[a].user == Some(u) && u != NIL && v in s.ring.table
    requires a !in s.disk.creds && q !in s.procs
    ensures Leads(s, acts, s') && Calm(acts) && Ready(s', a, u) && Blank(s'.disk, a, g)
    ensures s'.procs == s.procs[q := RenewalVerified(a, s'.disk.accounts[a], g, token, u)]
  {
    var acts1, s1 := MakeReady(s, a, u, v);
    var acts2, s2 := ClearRepeatedly(s1, a, g);
    var acts3, s3 := VerifyRenewal(s2, a, u, g, q, token);
    LeadsFurther(s, acts1, s1, acts2, s2);
    LeadsFurther(s, acts1 + acts2, s2, acts3, s3);
    CalmJoin(acts1, acts2);
    CalmJoin(acts1 + acts2, acts3);
    acts, s' := acts1 + acts2 + acts3, s3;
  }

  /** Without a credential file any token can be stored at any generation, and
      no other client notices. */
  lemma Reissue(s: System, a: Uuid, u: Uuid, v: Version, g: nat, token: Token) returns (acts: seq<Action>, s': System)
    requires Inv(s) && a in s.disk.accounts && s.disk.accounts[a].user == Some(u) && u != NIL && v in s.ring.table
    requires a !in s.disk.creds && g >= 1
    ensures Leads(s, acts, s') && Calm(acts) && Stored(s', a, g, token)
    ensures forall p :: p in s.procs ==> p in s'.procs && s'.procs[p] == s.procs[p]
  {
    var q := UnusedPid(s.procs.Keys);
    var prepare, m := PrepareReissue(s, a, u, v, g - 1, token, q);
    LeadsInv(s, prepare, m);
    var commit;
    commit, s' := CommitCalmly(m, a, u, g - 1, q, token);
    LeadsFurther(s, prepare, m, commit, s');
    CalmJoin(prepare, commit);
    acts := prepare + commit;
    KeptApart(s.procs, m.procs, s'.procs, q);
  }

  lemma KeptApart(x: map<nat, Proc>, y: map<nat, Proc>, z: map<nat, Proc>, q: nat)
    requires q !in x && q in y && y == x[q := y[q]] && forall p :: p in y && p != q ==> p in z && z[p] == y[p]
    ensures forall p :: p in x ==> p in z && z[p] == x[p]
  {
  }

  // ---- a recheck ---------------------------------------------------------------------------------

  /** A recheck whose token the verifier refuses. */
  lemma Refuse(s: System, a: Uuid, g: int, token: Token, r: nat) returns (acts: seq<Action>, s': System)
    requires Stored(s, a, g, token) && token != "" && r !in s.procs
    ensures acts == [Starting(r, RecheckStart(a, g)), Loading(r), Verifying(r, token, None)]
    ensures Leads(s, acts, s') && s' == Continue(s, r, RecheckRejected(a, g, token))
  {
    var start, load, verify := Starting(r, RecheckStart(a, g)), Loading(r), Verifying(r, token, None);
    var s1 := Continue(s, r, RecheckStart(a, g));
    assert Next(s, start, s1);
    var s2 := Continue(s1, r, RecheckLoaded(a, g, token));
    assert Next(s1, load, s2);
    var s3 := Continue(s2, r, RecheckRejected(a, g, token));
    assert Next(s2, verify, s3);
    ThreeSteps(s, start, s1, load, s2, verify, s3);
    acts := [start, load, verify];
    s' := Continue(s, r, RecheckRejected(a, g, token));
    assert s'.procs == s3.procs;
  }

  /** The mark of a waiting recheck, wherever it lands. */
  lemma LandMark(s: System, a: Uuid, g: int, r: nat, refused: Token, token: Token) returns (s': System)
    requires Inv(s) && Stored(s, a, g, token) && r in s.procs && s.procs[r] == RecheckRejected(a, g, refused)
    ensures Next(s, Marking(r, Done), s')
    ensures LoadCredential(s'.disk, s'.ring, a) == Ok(Snapshot(a, g, Invalid, Some(token)))
  {
    LoadIsIdeal(s.disk, s.ring, s.h, a);
    var o := MarkInvalid(s.disk, a, g, Done);
    s' := Continue(StoreStep(s, o), r, Failed).(h := IdealMark(s.h, o.renamed, a));
    assert Next(s, Marking(r, Done), s');
  }

  // ---- from the empty directory ----------------------------------------------------------------

  /** An empty directory and one account that is bound to `u`. */
  lemma FirstAccount(a: Uuid, u: Uuid) returns (s0: System, add: Action, s1: System)
    requires a != NIL && u != NIL
    ensures Init(s0) && Next(s0, add, s1) && add.AddingAccount? && Inv(s1) && s1.procs == map[]
    ensures a in s1.disk.accounts && s1.disk.accounts[a].user == Some(u) && s1.disk.accounts[a].deployment == NIL
    ensures a !in s1.disk.creds && "k" in s1.ring.table
  {
    var acct := Account(NIL, Some(u), "", false, true);
    s0 := System(Disk(map[], map[], map[]), Ring(map["k" := 0], "k"), map[], History({}, {}, {}, map[]));
    add := AddingAccount(a, acct, Done);
    s1 := StoreStep(s0, AddAccount(s0.disk, a, acct, Done)).(h := s0.h.(ids := s0.h.ids + {a}));
    assert Next(s0, add, s1);
    StepInv(s0, add, s1);
  }

  /** A first account, and token `first` stored for it. */
  lemma StoreFirst(a: Uuid, u: Uuid, first: Token) returns (s0: System, acts: seq<Action>, s: System)
    requires a != NIL && u != NIL
    ensures Init(s0) && Leads(s0, acts, s) && Calm(acts) && Inv(s) && Stored(s, a, 1, first)
  {
    var add, s1;
    s0, add, s1 := FirstAccount(a, u);
    OneStep(s0, add, s1);
    var more;
    more, s := Reissue(s1, a, u, "k", 1, first);
    LeadsFurther(s0, [add], s1, more, s);
    CalmJoin([add], more);
    acts := [add] + more;
    LeadsInv(s1, more, s);
  }
}
