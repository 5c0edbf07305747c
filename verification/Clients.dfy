/** What each client achieves when it meets no obstacle: rechecks, renewals and
    enrollments that run to their end, and the obstacle of a foreign key. */
module Clients {
  import opened Texts
  import opened Records
  import opened Protocol
  import opened StoreInvariant
  import opened ProtocolInvariant
  import opened Runs
  import opened StoreAnswers

  // ---- a recheck ---------------------------------------------------------------------------

  /** A stored token that the verifier refuses is marked invalid under its
      generation. */
  lemma RecheckMarksRefusedToken(s: System, a: Uuid, g: int, token: Token) returns (acts: seq<Action>, s': System)
    requires Inv(s) && Stored(s, a, g, token) && token != ""
    ensures Leads(s, acts, s') && LoadCredential(s'.disk, s'.ring, a) == Ok(Snapshot(a, g, Invalid, Some(token)))
  {
    var r := UnusedPid(s.procs.Keys);
    var refuse, m := Refuse(s, a, g, token, r);
    LeadsInv(s, refuse, m);
    s' := LandMark(m, a, g, r, token, token);
    LeadsOn(s, refuse, m, Marking(r, Done), s');
    acts := refuse + [Marking(r, Done)];
  }

  // ---- a renewal ---------------------------------------------------------------------------

  lemma LoadsForRenewal(s: System, q: nat, a: Uuid, copy: Account) returns (s': System)
    requires q in s.procs && s.procs[q] == RenewalStart(a, copy) && LoadCredential(s.disk, s.ring, a).Ok?
    ensures Next(s, Loading(q), s')
    ensures s' == Continue(s, q, RenewalReady(a, copy, LoadCredential(s.disk, s.ring, a).value.generation))
  {
    s' := Continue(s, q, RenewalReady(a, copy, LoadCredential(s.disk, s.ring, a).value.generation));
  }

  lemma VerifiesForRenewal(s: System, q: nat, a: Uuid, copy: Account, g: int, token: Token, u: Uuid)
    returns (s': System)
    requires q in s.procs && s.procs[q] == RenewalReady(a, copy, g) && u != NIL
    requires copy.user == Some(u) || (copy.user.None? && copy.bindOnFirst)
    ensures Next(s, Verifying(q, token, Some(u)), s') && s'.disk == s.disk && s'.ring == s.ring
    ensures s'.procs == s.procs[q := RenewalVerified(a, copy, g, token, u)]
  {
    s' := Continue(s, q, RenewalVerified(a, copy, g, token, u)).(h := s.h.(accepted := s.h.accepted + {(token, u)}));
  }

  lemma Renews(s: System, q: nat, a: Uuid, copy: Account, g: int, token: Token, u: Uuid) returns (s': System)
    requires q in s.procs && s.procs[q] == RenewalVerified(a, copy, g, token, u)
    requires LoadCredential(s.disk, s.ring, a).Ok? && LoadCredential(s.disk, s.ring, a).value.generation == g
    requires MayReplace(s.disk, a, u) && !BoundElsewhere(s.disk, a, u) && s.ring.active in s.ring.table
    ensures Next(s, Replacing(q, "", 0, Done, Done), s') && Stored(s', a, g + 1, token)
    ensures q in s'.procs && s'.procs[q] == RenewalDone(a, g, g + 1, Some(Valid))
  {
    var p := s.procs[q];
    var req := RequestOf(p, "");
    ReplaceSucceedsIff(s.disk, s.ring, req, 0);
    ReplacedLoads(s.disk, s.ring, req, 0, Done, Done);
    var o := Replace(s.disk, s.ring, req, 0, Done, Done);
    s' := Continue(StoreStep(s, o), q, AfterReplace(p, o.result, Generation(s.disk, a)))
          .(h := IdealReplace(s.h, o.renamed, a, token));
  }

  lemma ReadiesRenewal(s: System, q: nat, a: Uuid, u: Uuid, token: Token) returns (acts: seq<Action>, s': System)
    requires MayReplace(s.disk, a, u) && LoadCredential(s.disk, s.ring, a).Ok? && q !in s.procs
    ensures Leads(s, acts, s') && s'.disk == s.disk && s'.ring == s.ring
    ensures var g := LoadCredential(s.disk, s.ring, a).value.generation;
            q in s'.procs && s'.procs[q] == RenewalVerified(a, s.disk.accounts[a], g, token, u)
  {
    var copy, g := s.disk.accounts[a], LoadCredential(s.disk, s.ring, a).value.generation;
    var s1 := StartRenewal(s, a, q);
    var s2 := LoadsForRenewal(s1, q, a, copy);
    s' := VerifiesForRenewal(s2, q, a, copy, g, token, u);
    acts := [Starting(q, RenewalStart(a, copy)), Loading(q), Verifying(q, token, Some(u))];
    ThreeSteps(s, acts[0], s1, acts[1], s2, acts[2], s');
  }

  /** A renewal with a token of the right user stores it under the next
      generation, also when it is the account's first token. */
  lemma RenewalSucceeds(s: System, a: Uuid, u: Uuid, token: Token) returns (acts: seq<Action>, s': System)
    requires MayReplace(s.disk, a, u) && !BoundElsewhere(s.disk, a, u) && s.ring.active in s.ring.table
    requires LoadCredential(s.disk, s.ring, a).Ok?
    ensures Leads(s, acts, s') && Stored(s', a, LoadCredential(s.disk, s.ring, a).value.generation + 1, token)
  {
    var q := UnusedPid(s.procs.Keys);
    var ready, m := ReadiesRenewal(s, q, a, u, token);
    s' := Renews(m, q, a, s.disk.accounts[a], LoadCredential(s.disk, s.ring, a).value.generation, token, u);
    LeadsOn(s, ready, m, Replacing(q, "", 0, Done, Done), s');
    acts := ready + [Replacing(q, "", 0, Done, Done)];
  }

  // ---- the steps of an enrollment --------------------------------------------------------------

  lemma Begins(s: System, q: nat, job: Job) returns (s': System)
    requires q !in s.procs && job.user != NIL
    ensures Next(s, Starting(q, EnrollStart(job)), s') && s'.disk == s.disk && s'.ring == s.ring
    ensures s'.procs == s.procs[q := EnrollStart(job)] && s'.h.ids == s.h.ids && s'.h.keyIds == s.h.keyIds
  {
    s' := Continue(s, q, EnrollStart(job)).(h := Accepting(s.h, EnrollStart(job)));
  }

  lemma FindsKeyFree(s: System, q: nat, job: Job) returns (s': System)
    requires q in s.procs && s.procs[q] == EnrollStart(job) && job.blob !in s.disk.keys
    ensures Next(s, CheckingDigest(q), s') && s' == Continue(s, q, EnrollCleared(job, false))
  {
    s' := Continue(s, q, EnrollCleared(job, false));
  }

  lemma CreatesAccount(s: System, q: nat, job: Job, newId: Uuid) returns (s': System)
    requires q in s.procs && s.procs[q] == EnrollCleared(job, false) && newId !in s.h.ids && newId != NIL
    requires forall b :: b in s.disk.accounts ==> !BoundTo(s.disk.accounts[b], job.deployment, job.user)
    ensures Next(s, ResolvingAccount(q, None, newId, Done), s')
    ensures s'.procs == s.procs[q := EnrollReady(job, false, newId, 0)] && s'.ring == s.ring
    ensures var acct := Account(job.deployment, Some(job.user), job.username, false, true);
            s'.disk == s.disk.(accounts := s.disk.accounts[newId := acct])
    ensures s'.h.keyIds == s.h.keyIds
  {
    var o := LookupOrCreate(s.disk, job.deployment, job.user, job.username, None, newId, Done);
    s' := Continue(StoreStep(s, o), q, EnrollReady(job, false, newId, 0)).(h := s.h.(ids := s.h.ids + {newId}));
  }

  /** The replace of an enrollment that may store its token. */
  lemma StoresToken(s: System, q: nat, job: Job, keyExists: bool, a: Uuid, g: int) returns (s': System)
    requires q in s.procs && s.procs[q] == EnrollReady(job, keyExists, a, g)
    requires LoadCredential(s.disk, s.ring, a).Ok? && LoadCredential(s.disk, s.ring, a).value.generation == g
    requires MayReplace(s.disk, a, job.user) && !BoundElsewhere(s.disk, a, job.user) && s.ring.active in s.ring.table
    ensures Next(s, Replacing(q, "", 0, Done, Done), s') && s'.ring == s.ring
    ensures s'.procs == s.procs[q := EnrollStored(job, keyExists, a, g + 1)]
    ensures LoadCredential(s'.disk, s'.ring, a) == Ok(Snapshot(a, g + 1, Valid, Some(job.token)))
    ensures s'.disk.keys == s.disk.keys && a in s'.disk.accounts && s'.h.keyIds == s.h.keyIds
    ensures s'.disk.accounts[a].enabled && s'.disk.accounts[a].deployment == s.disk.accounts[a].deployment
  {
    var p := s.procs[q];
    var req := RequestOf(p, "");
    ReplaceSucceedsIff(s.disk, s.ring, req, 0);
    ReplacedLoads(s.disk, s.ring, req, 0, Done, Done);
    var o := Replace(s.disk, s.ring, req, 0, Done, Done);
    s' := Continue(StoreStep(s, o), q, AfterReplace(p, o.result, Generation(s.disk, a)))
          .(h := IdealReplace(s.h, o.renamed, a, job.token));
  }

  lemma LinksNewKey(s: System, q: nat, job: Job, a: Uuid, g: int, keyId: Uuid) returns (s': System)
    requires q in s.procs && s.procs[q] == EnrollStored(job, false, a, g) && keyId !in s.h.keyIds
    requires job.blob !in s.disk.keys && a in s.disk.accounts && s.disk.accounts[a].enabled
    ensures Next(s, Linking(q, keyId, Done), s') && s'.ring == s.ring
    ensures s'.procs == s.procs[q := EnrollDone(job, a, g)]
    ensures s'.disk.accounts == s.disk.accounts && s'.disk.creds == s.disk.creds
    ensures LookupByPublicKey(s'.disk, s.disk.accounts[a].deployment, job.blob)
            == Ok((a, KeyRecord(keyId, a, job.blob, true)))
  {
    var o := Link(s.disk, s.procs[q], keyId, Done);
    s' := Continue(StoreStep(s, o), q, EnrollDone(job, a, g)).(h := s.h.(keyIds := s.h.keyIds + {keyId}));
  }

  // ---- a first enrollment ----------------------------------------------------------------------

  /** The credential and the key with which the identity of `job` can connect. */
  ghost predicate Enrolled(s: System, job: Job, a: Uuid, g: int) {
    && LoadCredential(s.disk, s.ring, a) == Ok(Snapshot(a, g, Valid, Some(job.token)))
    && var r := LookupByPublicKey(s.disk, job.deployment, job.blob); r.Ok? && r.value.0 == a
  }

  lemma GetsAccount(s: System, q: nat, job: Job, newId: Uuid) returns (acts: seq<Action>, s': System)
    requires q !in s.procs && job.user != NIL && job.blob !in s.disk.keys && newId !in s.h.ids && newId != NIL
    requires forall b :: b in s.disk.accounts ==> !BoundTo(s.disk.accounts[b], job.deployment, job.user)
    ensures Leads(s, acts, s') && s'.procs == s.procs[q := EnrollReady(job, false, newId, 0)] && s'.ring == s.ring
    ensures var acct := Account(job.deployment, Some(job.user), job.username, false, true);
            s'.disk == s.disk.(accounts := s.disk.accounts[newId := acct])
    ensures s'.h.keyIds == s.h.keyIds
  {
    var s1 := Begins(s, q, job);
    var s2 := FindsKeyFree(s1, q, job);
    s' := CreatesAccount(s2, q, job, newId);
    acts := [Starting(q, EnrollStart(job)), CheckingDigest(q), ResolvingAccount(q, None, newId, Done)];
    ThreeSteps(s, acts[0], s1, acts[1], s2, acts[2], s');
  }

  lemma StoresAndLinks(s: System, q: nat, job: Job, a: Uuid, keyId: Uuid) returns (acts: seq<Action>, s': System)
    requires q in s.procs && s.procs[q] == EnrollReady(job, false, a, 0) && s.ring.active in s.ring.table
    requires MayReplace(s.disk, a, job.user) && !BoundElsewhere(s.disk, a, job.user) && a !in s.disk.creds
    requires s.disk.accounts[a].deployment == job.deployment && job.blob !in s.disk.keys && keyId !in s.h.keyIds
    ensures Leads(s, acts, s') && Enrolled(s', job, a, 1) && q in s'.procs && s'.procs[q] == EnrollDone(job, a, 1)
  {
    var store, link := Replacing(q, "", 0, Done, Done), Linking(q, keyId, Done);
    var s1 := StoresToken(s, q, job, false, a, 0);
    s' := LinksNewKey(s1, q, job, a, 1, keyId);
    OneStep(s, store, s1);
    LeadsOn(s, [store], s1, link, s');
    acts := [store] + [link];
  }

  /** An identity without an account, with a key that nobody has, is enrolled: at
      the end its key authenticates as a new account that holds its token. */
  lemma FirstEnrollmentSucceeds(s: System, job: Job, newId: Uuid, keyId: Uuid) returns (acts: seq<Action>, s': System)
    requires Inv(s) && job.user != NIL && job.blob !in s.disk.keys && s.ring.active in s.ring.table
    requires newId !in s.h.ids && newId != NIL && keyId !in s.h.keyIds
    requires forall b :: b in s.disk.accounts ==> !BoundTo(s.disk.accounts[b], job.deployment, job.user)
    ensures Leads(s, acts, s') && Enrolled(s', job, newId, 1)
    ensures exists q :: q in s'.procs && s'.procs[q] == EnrollDone(job, newId, 1)
  {
    var q := UnusedPid(s.procs.Keys);
    assert newId !in s.disk.creds;
    var get, m := GetsAccount(s, q, job, newId);
    var link;
    link, s' := StoresAndLinks(m, q, job, newId, keyId);
    LeadsFurther(s, get, m, link, s');
    acts := get + link;
  }

  // ---- enrolling again -----------------------------------------------------------------------------

  lemma FindsKeyOwned(s: System, q: nat, job: Job) returns (s': System)
    requires q in s.procs && s.procs[q] == EnrollStart(job) && job.blob in s.disk.keys
    ensures Next(s, CheckingDigest(q), s') && s' == Continue(s, q, EnrollOwned(job, s.disk.keys[job.blob].owner))
  {
    s' := Continue(s, q, EnrollOwned(job, s.disk.keys[job.blob].owner));
  }

  lemma FindsOwnerSame(s: System, q: nat, job: Job, owner: Uuid) returns (s': System)
    requires q in s.procs && s.procs[q] == EnrollOwned(job, owner)
    requires owner in s.disk.accounts && s.disk.accounts[owner].user == Some(job.user)
    ensures Next(s, CheckingOwner(q), s') && s' == Continue(s, q, EnrollCleared(job, true))
  {
    s' := Continue(s, q, EnrollCleared(job, true));
  }

  lemma FindsAccount(s: System, q: nat, job: Job, a: Uuid, newId: Uuid) returns (s': System)
    requires q in s.procs && s.procs[q] == EnrollCleared(job, true) && newId !in s.h.ids && newId != NIL
    requires a in s.disk.accounts && BoundTo(s.disk.accounts[a], job.deployment, job.user)
    ensures Next(s, ResolvingAccount(q, Some(a), newId, Done), s')
    ensures s'.procs == s.procs[q := EnrollResolved(job, true, a)] && s'.ring == s.ring && s'.h.keyIds == s.h.keyIds
    ensures var acct := s.disk.accounts[a].(username := job.username);
            s'.disk == s.disk.(accounts := s.disk.accounts[a := acct])
  {
    var o := LookupOrCreate(s.disk, job.deployment, job.user, job.username, Some(a), newId, Done);
    s' := Continue(StoreStep(s, o), q, EnrollResolved(job, true, a)).(h := s.h.(ids := s.h.ids + {newId}));
    assert s.disk.accounts[a].username == job.username ==>
             s.disk.accounts[a := s.disk.accounts[a].(username := job.username)] == s.disk.accounts;
  }

  lemma LoadsGeneration(s: System, q: nat, job: Job, a: Uuid) returns (s': System)
    requires q in s.procs && s.procs[q] == EnrollResolved(job, true, a) && LoadCredential(s.disk, s.ring, a).Ok?
    ensures Next(s, Loading(q), s')
    ensures s' == Continue(s, q, EnrollReady(job, true, a, LoadCredential(s.disk, s.ring, a).value.generation))
  {
    s' := Continue(s, q, EnrollReady(job, true, a, LoadCredential(s.disk, s.ring, a).value.generation));
  }

  lemma FindsKeyLinked(s: System, q: nat, job: Job, a: Uuid, g: int, keyId: Uuid) returns (s': System)
    requires q in s.procs && s.procs[q] == EnrollStored(job, true, a, g) && keyId !in s.h.keyIds
    requires LookupByPublicKey(s.disk, job.deployment, job.blob).Ok? && s.disk.keys[job.blob].owner == a
    ensures Next(s, Linking(q, keyId, Done), s') && s'.ring == s.ring && s'.disk == s.disk
    ensures s'.procs == s.procs[q := EnrollDone(job, a, g)]
  {
    s' := Continue(s, q, EnrollDone(job, a, g)).(h := s.h.(keyIds := s.h.keyIds + {keyId}));
  }

  /** What a new user name changes: neither loads nor key lookups. */
  lemma RenamedAccount(d: Disk, ring: Ring, a: Uuid, name: string, deployment: Uuid, blob: Blob)
    requires a in d.accounts
    ensures var d' := d.(accounts := d.accounts[a := d.accounts[a].(username := name)]);
            && LoadCredential(d', ring, a) == LoadCredential(d, ring, a)
            && LookupByPublicKey(d', deployment, blob) == LookupByPublicKey(d, deployment, blob)
            && (forall user :: MayReplace(d, a, user) ==> MayReplace(d', a, user))
  {
  }

  lemma ClearsOwner(s: System, q: nat, job: Job, a: Uuid) returns (acts: seq<Action>, s': System)
    requires q !in s.procs && job.user != NIL && job.blob in s.disk.keys && s.disk.keys[job.blob].owner == a
    requires a in s.disk.accounts && s.disk.accounts[a].user == Some(job.user)
    ensures Leads(s, acts, s') && s'.disk == s.disk && s'.ring == s.ring
    ensures s'.procs == s.procs[q := EnrollCleared(job, true)] && s'.h.ids == s.h.ids && s'.h.keyIds == s.h.keyIds
  {
    var s1 := Begins(s, q, job);
    var s2 := FindsKeyOwned(s1, q, job);
    s' := FindsOwnerSame(s2, q, job, a);
    acts := [Starting(q, EnrollStart(job)), CheckingDigest(q), CheckingOwner(q)];
    ThreeSteps(s, acts[0], s1, acts[1], s2, acts[2], s');
  }

  /** Whoever can already connect with a key can enroll it again with a new
      token, which is then stored under the next generation. */
  lemma ReenrollmentSucceeds(s: System, job: Job, a: Uuid, newId: Uuid, keyId: Uuid)
    returns (acts: seq<Action>, s': System)
    requires Inv(s) && job.user != NIL && s.ring.active in s.ring.table
    requires newId !in s.h.ids && newId != NIL && keyId !in s.h.keyIds
    requires var r := LookupByPublicKey(s.disk, job.deployment, job.blob); r.Ok? && r.value.0 == a
    requires a in s.disk.accounts && s.disk.accounts[a].user == Some(job.user) && LoadCredential(s.disk, s.ring, a).Ok?
    ensures Leads(s, acts, s') && Enrolled(s', job, a, LoadCredential(s.disk, s.ring, a).value.generation + 1)
  {
    var q := UnusedPid(s.procs.Keys);
    var clear, m := ClearsOwner(s, q, job, a);
    LeadsInv(s, clear, m);
    var finish;
    finish, s' := FinishesAgain(m, q, job, a, LoadCredential(s.disk, s.ring, a).value.generation, newId, keyId);
    LeadsFurther(s, clear, m, finish, s');
    acts := clear + finish;
  }

  lemma FinishesAgain(s: System, q: nat, job: Job, a: Uuid, g: int, newId: Uuid, keyId: Uuid)
    returns (acts: seq<Action>, s': System)
    requires Inv(s) && q in s.procs && s.procs[q] == EnrollCleared(job, true) && job.user != NIL
    requires newId !in s.h.ids && newId != NIL && keyId !in s.h.keyIds && s.ring.active in s.ring.table
    requires var r := LookupByPublicKey(s.disk, job.deployment, job.blob); r.Ok? && r.value.0 == a
    requires a in s.disk.accounts && BoundTo(s.disk.accounts[a], job.deployment, job.user) && s.disk.accounts[a].enabled
    requires var r := LoadCredential(s.disk, s.ring, a); r.Ok? && r.value.generation == g
    ensures Leads(s, acts, s') && Enrolled(s', job, a, g + 1)
  {
    var resolve := ResolvingAccount(q, Some(a), newId, Done);
    var m := FindsAccount(s, q, job, a, newId);
    RenamedAccount(s.disk, s.ring, a, job.username, job.deployment, job.blob);
    OneStep(s, resolve, m);
    LeadsInv(s, [resolve], m);
    UniqueIsNotElsewhere(m.disk, a, job.user);
    var store;
    store, s' := StoresAgain(m, q, job, a, g, keyId);
    LeadsFurther(s, [resolve], m, store, s');
    acts := [resolve] + store;
  }

  lemma UniqueIsNotElsewhere(d: Disk, a: Uuid, user: Uuid)
    requires UniqueBindings(d) && a in d.accounts && d.accounts[a].user == Some(user)
    ensures !BoundElsewhere(d, a, user)
  {
  }

  lemma StoresAgain(s: System, q: nat, job: Job, a: Uuid, g: int, keyId: Uuid) returns (acts: seq<Action>, s': System)
    requires q in s.procs && s.procs[q] == EnrollResolved(job, true, a) && keyId !in s.h.keyIds
    requires MayReplace(s.disk, a, job.user) && !BoundElsewhere(s.disk, a, job.user) && s.ring.active in s.ring.table
    requires var r := LoadCredential(s.disk, s.ring, a); r.Ok? && r.value.generation == g
    requires var r := LookupByPublicKey(s.disk, job.deployment, job.blob); r.Ok? && r.value.0 == a
    ensures Leads(s, acts, s') && Enrolled(s', job, a, g + 1)
  {
    var s1 := LoadsGeneration(s, q, job, a);
    var s2 := StoresToken(s1, q, job, true, a, g);
    s' := FindsKeyLinked(s2, q, job, a, g + 1, keyId);
    acts := [Loading(q), Replacing(q, "", 0, Done, Done), Linking(q, keyId, Done)];
    ThreeSteps(s, acts[0], s1, acts[1], s2, acts[2], s');
  }

  // ---- an enrollment that loses the race ---------------------------------------------------------

  /** Another writer came first: the enrollment stores nothing, goes on with the
      generation that it finds, and still links its key. */
  lemma LosingEnrollmentStillLinks(s: System, q: nat, job: Job, a: Uuid, expected: int, keyId: Uuid)
    returns (acts: seq<Action>, s': System)
    requires q in s.procs && s.procs[q] == EnrollReady(job, false, a, expected) && keyId !in s.h.keyIds
    requires LoadCredential(s.disk, s.ring, a).Ok? && LoadCredential(s.disk, s.ring, a).value.generation != expected
    requires MayReplace(s.disk, a, job.user) && job.blob !in s.disk.keys
    ensures Leads(s, acts, s') && s'.disk.creds == s.disk.creds && s'.disk.accounts == s.disk.accounts
    ensures q in s'.procs && s'.procs[q] == EnrollDone(job, a, LoadCredential(s.disk, s.ring, a).value.generation)
    ensures var r := LookupByPublicKey(s'.disk, s.disk.accounts[a].deployment, job.blob); r.Ok? && r.value.0 == a
  {
    var g := LoadCredential(s.disk, s.ring, a).value.generation;
    var s1 := LosesReplace(s, q, job, a, expected);
    var s2 := Continue(s1, q, EnrollStored(job, false, a, g));
    assert Next(s1, Loading(q), s2);
    s' := LinksNewKey(s2, q, job, a, g, keyId);
    acts := [Replacing(q, "", 0, Done, Done), Loading(q), Linking(q, keyId, Done)];
    ThreeSteps(s, acts[0], s1, acts[1], s2, acts[2], s');
  }

  lemma LosesReplace(s: System, q: nat, job: Job, a: Uuid, expected: int) returns (s': System)
    requires q in s.procs && s.procs[q] == EnrollReady(job, false, a, expected)
    requires LoadCredential(s.disk, s.ring, a).Ok? && LoadCredential(s.disk, s.ring, a).value.generation != expected
    requires MayReplace(s.disk, a, job.user)
    ensures Next(s, Replacing(q, "", 0, Done, Done), s')
    ensures s' == Continue(s, q, EnrollLost(job, false, a, expected))
  {
    s' := Continue(s, q, EnrollLost(job, false, a, expected));
  }

  // ---- somebody else's key ---------------------------------------------------------------------------

  /** A key whose account is bound to another identity, or to none, ends the
      enrollment before anything is written. */
  lemma ForeignKeyEndsEnrollment(s: System, act: Action, s': System)
    requires Next(s, act, s') && act.CheckingOwner?
    ensures var p := Acting(s, act);
            && p.EnrollOwned? && s'.disk == s.disk
            && (if p.owner in s.disk.accounts && s.disk.accounts[p.owner].user == Some(p.job.user)
                then Acting(s', act) == EnrollCleared(p.job, true) else Acting(s', act) == Failed)
  {
  }
}
