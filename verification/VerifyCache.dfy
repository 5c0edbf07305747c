/** CachedVerifier: concurrent verifications share a flight per key, and only
    authoritative verdicts are kept, for a bounded time. */
module VerifyCache {
  import opened Texts
  import opened Records
  import opened Protocol
  import opened ProtocolInvariant
  import opened CredentialTheorems
  import opened Runs
  import opened HalfDeletion

  // ---- state ----------------------------------------------------------------------

  /** What the verifier says about a token; `Unauthorized` is the 401 class. */
  datatype Verdict = Accepted(id: Uuid, username: string) | Unauthorized | Failure(detail: int)

  datatype Given = Given(token: Token, verdict: Verdict, at: int)

  datatype Entry = Entry(valid: bool, coderId: Uuid, cachedAt: int)

  datatype Caller = Caller(key: Binding, token: Token)

  datatype Phase = Entering | Asking | Replied(verdict: Verdict)

  /** One singleflight call: the leader's key and token, and everyone who waits. */
  datatype Flight = Flight(key: Binding, token: Token, phase: Phase, waiting: seq<Caller>)

  datatype Source = Fresh | Cached(since: int)

  datatype Served = Served(caller: Caller, answer: Verdict, source: Source, at: int)

  datatype State = State(ttl: int, now: int, cache: map<Binding, Entry>, flights: map<string, Flight>,
                         given: seq<Given>, served: seq<Served>)

  datatype Action =
    | Call(caller: Caller)
    | Enter(flight: string)
    | Reply(flight: string, verdict: Verdict)
    | Finish(flight: string)
    | Invalidate(key: Binding)
    | Tick(elapsed: nat)

  // ---- steps -------------------------------------------------------------------------

  /** A cached identity carries the user ID only. */
  function AnswerOf(e: Entry): Verdict {
    if e.valid then Accepted(e.coderId, "") else Unauthorized
  }

  function Hand(waiting: seq<Caller>, answer: Verdict, source: Source, at: int): (r: seq<Served>)
    ensures |r| == |waiting| && forall i :: 0 <= i < |r| ==> r[i] == Served(waiting[i], answer, source, at)
  {
    seq(|waiting|, i requires 0 <= i < |waiting| => Served(waiting[i], answer, source, at))
  }

  /** Land flight `f` with an answer for everyone waiting on it. */
  function Land(s: State, f: string, answer: Verdict, source: Source): State
    requires f in s.flights
  {
    s.(flights := s.flights - {f}, served := s.served + Hand(s.flights[f].waiting, answer, source, s.now))
  }

  function Remember(s: State, key: Binding, v: Verdict): State {
    match v
    case Accepted(id, _) => s.(cache := s.cache[key := Entry(true, id, s.now)])
    case Unauthorized => s.(cache := s.cache[key := Entry(false, NIL, s.now)])
    case Failure(_) => s
  }

  predicate Enabled(s: State, act: Action) {
    match act
    case Enter(f) => f in s.flights && s.flights[f].phase.Entering?
    case Reply(f, _) => f in s.flights && s.flights[f].phase.Asking?
    case Finish(f) => f in s.flights && s.flights[f].phase.Replied?
    case _ => true
  }

  function Step(s: State, act: Action): State
    requires Enabled(s, act)
  {
    match act
    case Call(c) =>
      var f := FlightKey(c.key);
      if f in s.flights then s.(flights := s.flights[f := s.flights[f].(waiting := s.flights[f].waiting + [c])])
      else s.(flights := s.flights[f := Flight(c.key, c.token, Entering, [c])])
    case Enter(f) =>
      var fl := s.flights[f];
      if fl.key in s.cache && s.now - s.cache[fl.key].cachedAt < s.ttl
      then Land(s, f, AnswerOf(s.cache[fl.key]), Cached(s.cache[fl.key].cachedAt))
      else s.(cache := s.cache - {fl.key}, flights := s.flights[f := fl.(phase := Asking)])
    case Reply(f, v) =>
      s.(given := s.given + [Given(s.flights[f].token, v, s.now)],
         flights := s.flights[f := s.flights[f].(phase := Replied(v))])
    case Finish(f) =>
      var fl := s.flights[f];
      Land(Remember(s, fl.key, fl.phase.verdict), f, fl.phase.verdict, Fresh)
    case Invalidate(key) => s.(cache := s.cache - {key})
    case Tick(elapsed) => s.(now := s.now + elapsed)
  }

  ghost predicate Run(ss: seq<State>, acts: seq<Action>) {
    && |ss| == |acts| + 1
    && ss[0].ttl > 0 && ss[0].cache == map[] && ss[0].flights == map[] && ss[0].given == [] && ss[0].served == []
    && forall i :: 0 <= i < |acts| ==> Enabled(ss[i], acts[i]) && ss[i + 1] == Step(ss[i], acts[i])
  }

  // ---- agreement ------------------------------------------------------------------------

  /** The answer repeats the verdict, possibly without the username. */
  predicate Repeats(answer: Verdict, v: Verdict) {
    answer == v || (answer.Accepted? && v.Accepted? && answer.id == v.id)
  }

  predicate Backs(g: Given, token: Token, answer: Verdict, limit: int) {
    g.token == token && Repeats(answer, g.verdict) && g.at <= limit
  }

  ghost predicate GaveBefore(s: State, token: Token, answer: Verdict, limit: int) {
    exists i :: 0 <= i < |s.given| && Backs(s.given[i], token, answer, limit)
  }

  /** The verifier gave this answer for this caller's own token; an answer from
      the cache was stored less than ttl ago, after the verdict, and is a
      success or a 401. */
  ghost predicate Justified(s: State, x: Served) {
    && GaveBefore(s, x.caller.token, x.answer, match x.source case Fresh => x.at case Cached(since) => since)
    && (x.source.Cached? ==> x.source.since <= x.at < x.source.since + s.ttl && !x.answer.Failure?)
  }

  /** Every caller of a key brings the same token. */
  ghost predicate CallsAgree(acts: seq<Action>, tokenOf: Binding -> Token) {
    forall i :: 0 <= i < |acts| && acts[i].Call? ==> acts[i].caller.token == tokenOf(acts[i].caller.key)
  }

  ghost predicate FlightOk(s: State, f: string, tokenOf: Binding -> Token)
    requires f in s.flights
  {
    var fl := s.flights[f];
    && FlightKey(fl.key) == f && fl.token == tokenOf(fl.key)
    && (forall i :: 0 <= i < |fl.waiting| ==> fl.waiting[i] == Caller(fl.key, tokenOf(fl.key)))
    && (fl.phase.Replied? ==> GaveBefore(s, fl.token, fl.phase.verdict, s.now))
  }

  ghost predicate EntryOk(s: State, key: Binding, tokenOf: Binding -> Token)
    requires key in s.cache
  {
    s.cache[key].cachedAt <= s.now && GaveBefore(s, tokenOf(key), AnswerOf(s.cache[key]), s.cache[key].cachedAt)
  }

  ghost predicate Inv(s: State, tokenOf: Binding -> Token) {
    && (forall f :: f in s.flights ==> FlightOk(s, f, tokenOf))
    && (forall key :: key in s.cache ==> EntryOk(s, key, tokenOf))
    && (forall i :: 0 <= i < |s.served| ==> Justified(s, s.served[i]))
  }

  lemma GaveGrows(s: State, s': State, token: Token, answer: Verdict, limit: int, limit': int)
    requires GaveBefore(s, token, answer, limit) && s.given <= s'.given && limit <= limit'
    ensures GaveBefore(s', token, answer, limit')
  {
    var i :| 0 <= i < |s.given| && Backs(s.given[i], token, answer, limit);
    assert s'.given[i] == s.given[i];
  }

  /** Facts that only age survive every step. */
  lemma Aging(s: State, s': State, tokenOf: Binding -> Token)
    requires Inv(s, tokenOf) && s.given <= s'.given && s.now <= s'.now && s.ttl == s'.ttl
    ensures forall f | f in s'.flights && f in s.flights && s'.flights[f] == s.flights[f] :: FlightOk(s', f, tokenOf)
    ensures forall key | key in s'.cache && key in s.cache && s'.cache[key] == s.cache[key] :: EntryOk(s', key, tokenOf)
    ensures forall i | 0 <= i < |s.served| :: Justified(s', s.served[i])
  {
    forall f | f in s'.flights && f in s.flights && s'.flights[f] == s.flights[f] ensures FlightOk(s', f, tokenOf) {
      if s.flights[f].phase.Replied? {
        GaveGrows(s, s', s.flights[f].token, s.flights[f].phase.verdict, s.now, s'.now);
      }
    }
    forall key | key in s'.cache && key in s.cache && s'.cache[key] == s.cache[key] ensures EntryOk(s', key, tokenOf) {
      GaveGrows(s, s', tokenOf(key), AnswerOf(s.cache[key]), s.cache[key].cachedAt, s.cache[key].cachedAt);
    }
    forall i | 0 <= i < |s.served| ensures Justified(s', s.served[i]) {
      var x := s.served[i];
      var limit := match x.source case Fresh => x.at case Cached(since) => since;
      GaveGrows(s, s', x.caller.token, x.answer, limit, limit);
    }
  }

  /** Only flight `f` changed, and it is in order; cache entries may have gone. */
  lemma FlightChanged(s: State, f: string, s': State, tokenOf: Binding -> Token)
    requires Inv(s, tokenOf) && s.given <= s'.given && s.now == s'.now && s.ttl == s'.ttl
    requires s'.served == s.served && f in s'.flights && FlightOk(s', f, tokenOf)
    requires forall key :: key in s'.cache ==> key in s.cache && s'.cache[key] == s.cache[key]
    requires forall g :: g in s'.flights && g != f ==> g in s.flights && s'.flights[g] == s.flights[g]
    ensures Inv(s', tokenOf)
  {
    Aging(s, s', tokenOf);
  }

  lemma CallInv(s: State, c: Caller, tokenOf: Binding -> Token)
    requires Inv(s, tokenOf) && c.token == tokenOf(c.key)
    ensures Inv(Step(s, Call(c)), tokenOf)
  {
    var s', f := Step(s, Call(c)), FlightKey(c.key);
    if f in s.flights {
      assert FlightOk(s, f, tokenOf);
      FlightKeyInjective(c.key, s.flights[f].key);
      if s.flights[f].phase.Replied? {
        GaveGrows(s, s', s.flights[f].token, s.flights[f].phase.verdict, s.now, s.now);
      }
    }
    FlightChanged(s, f, s', tokenOf);
  }

  lemma ReplyInv(s: State, f: string, v: Verdict, tokenOf: Binding -> Token)
    requires Inv(s, tokenOf) && Enabled(s, Reply(f, v))
    ensures Inv(Step(s, Reply(f, v)), tokenOf)
  {
    var s' := Step(s, Reply(f, v));
    assert FlightOk(s, f, tokenOf);
    assert s'.given[|s.given|] == Given(s.flights[f].token, v, s.now) && Repeats(v, v);
    assert GaveBefore(s', s.flights[f].token, v, s'.now);
    FlightChanged(s, f, s', tokenOf);
  }

  lemma RememberInv(s: State, key: Binding, v: Verdict, tokenOf: Binding -> Token)
    requires Inv(s, tokenOf) && GaveBefore(s, tokenOf(key), v, s.now)
    ensures Inv(Remember(s, key, v), tokenOf)
  {
    var s' := Remember(s, key, v);
    Aging(s, s', tokenOf);
    var i :| 0 <= i < |s.given| && Backs(s.given[i], tokenOf(key), v, s.now);
    if !v.Failure? {
      assert Repeats(AnswerOf(s'.cache[key]), s'.given[i].verdict);
      assert EntryOk(s', key, tokenOf);
    }
  }

  lemma LandInv(s: State, f: string, answer: Verdict, source: Source, tokenOf: Binding -> Token)
    requires Inv(s, tokenOf) && f in s.flights
    requires Justified(s, Served(Caller(s.flights[f].key, tokenOf(s.flights[f].key)), answer, source, s.now))
    ensures Inv(Land(s, f, answer, source), tokenOf)
  {
    var s', c := Land(s, f, answer, source), Caller(s.flights[f].key, tokenOf(s.flights[f].key));
    Aging(s, s', tokenOf);
    assert FlightOk(s, f, tokenOf);
    forall i | 0 <= i < |s'.served| ensures Justified(s', s'.served[i]) {
      if i >= |s.served| {
        assert s'.served[i] == Served(c, answer, source, s.now);
        var limit := match source case Fresh => s.now case Cached(since) => since;
        GaveGrows(s, s', c.token, answer, limit, limit);
      }
    }
  }

  lemma EnterInv(s: State, f: string, tokenOf: Binding -> Token)
    requires Inv(s, tokenOf) && Enabled(s, Enter(f))
    ensures Inv(Step(s, Enter(f)), tokenOf)
  {
    var fl := s.flights[f];
    if f in Step(s, Enter(f)).flights {
      assert FlightOk(s, f, tokenOf);
      FlightChanged(s, f, Step(s, Enter(f)), tokenOf);
    } else {
      assert EntryOk(s, fl.key, tokenOf);
      LandInv(s, f, AnswerOf(s.cache[fl.key]), Cached(s.cache[fl.key].cachedAt), tokenOf);
    }
  }

  lemma FinishInv(s: State, f: string, tokenOf: Binding -> Token)
    requires Inv(s, tokenOf) && Enabled(s, Finish(f))
    ensures Inv(Step(s, Finish(f)), tokenOf)
  {
    var fl := s.flights[f];
    assert FlightOk(s, f, tokenOf);
    RememberInv(s, fl.key, fl.phase.verdict, tokenOf);
    LandInv(Remember(s, fl.key, fl.phase.verdict), f, fl.phase.verdict, Fresh, tokenOf);
  }

  lemma StepInv(s: State, act: Action, tokenOf: Binding -> Token)
    requires Inv(s, tokenOf) && Enabled(s, act)
    requires act.Call? ==> act.caller.token == tokenOf(act.caller.key)
    ensures Inv(Step(s, act), tokenOf)
  {
    match act
    case Call(c) => CallInv(s, c, tokenOf);
    case Enter(f) => EnterInv(s, f, tokenOf);
    case Reply(f, v) => ReplyInv(s, f, v, tokenOf);
    case Finish(f) => FinishInv(s, f, tokenOf);
    case Invalidate(_) => Aging(s, Step(s, act), tokenOf);
    case Tick(_) => Aging(s, Step(s, act), tokenOf);
  }

  lemma {:induction false} RunInv(ss: seq<State>, acts: seq<Action>, tokenOf: Binding -> Token, i: nat)
    requires Run(ss, acts) && CallsAgree(acts, tokenOf) && i < |ss|
    ensures Inv(ss[i], tokenOf)
  {
    if i > 0 {
      RunInv(ss, acts, tokenOf, i - 1);
      StepInv(ss[i - 1], acts[i - 1], tokenOf);
    }
  }

  // ---- exactly when the answers agree -------------------------------------------------------

  /** All calls are made by callers in `callers`. */
  ghost predicate CallsFrom(acts: seq<Action>, callers: iset<Caller>) {
    forall i :: 0 <= i < |acts| && acts[i].Call? ==> acts[i].caller in callers
  }

  ghost predicate AllJustified(ss: seq<State>) {
    forall i, n :: 0 <= i < |ss| && 0 <= n < |ss[i].served| ==> Justified(ss[i], ss[i].served[n])
  }

  /** Every answer of every run that `callers` can make is justified. */
  ghost predicate AlwaysAgrees(callers: iset<Caller>) {
    forall ss: seq<State>, acts: seq<Action> :: Run(ss, acts) && CallsFrom(acts, callers) ==> AllJustified(ss)
  }

  ghost predicate OneTokenPerKey(callers: iset<Caller>) {
    forall c, c' :: c in callers && c' in callers && c.key == c'.key ==> c.token == c'.token
  }

  ghost function TokenOf(callers: iset<Caller>): Binding -> Token {
    key => if exists c: Caller :: c in callers && c.key == key
           then (var c: Caller :| c in callers && c.key == key; c.token) else ""
  }

  /** Two callers with one key and two tokens: the second is served, from the
      cache, the verdict on the first one's token. */
  lemma MixedUp(ttl: int, c: Caller, c': Caller) returns (ss: seq<State>, acts: seq<Action>)
    requires ttl > 0 && c.key == c'.key && c.token != c'.token
    ensures Run(ss, acts) && ss[0].ttl == ttl && CallsFrom(acts, iset{c, c'})
    ensures var s := ss[|acts|]; |s.served| == 2 && s.served[1].caller == c' && !Justified(s, s.served[1])
  {
    var f := FlightKey(c.key);
    acts := [Call(c), Enter(f), Reply(f, Unauthorized), Finish(f), Call(c'), Enter(f)];
    var s0 := State(ttl, 0, map[], map[], [], []);
    var s1 := Step(s0, acts[0]);
    var s2 := Step(s1, acts[1]);
    var s3 := Step(s2, acts[2]);
    var s4 := Step(s3, acts[3]);
    var s5 := Step(s4, acts[4]);
    var s6 := Step(s5, acts[5]);
    ss := [s0, s1, s2, s3, s4, s5, s6];
    assert s6.given == [Given(c.token, Unauthorized, 0)];
    assert s6.served[1] == Served(c', Unauthorized, Cached(0), 0);
  }

  /** The cache agrees with the verifier, whatever is called in whatever order,
      iff no two callers bring different tokens for one key. */
  lemma AgreesIffOneTokenPerKey(callers: iset<Caller>)
    ensures AlwaysAgrees(callers) <==> OneTokenPerKey(callers)
  {
    if OneTokenPerKey(callers) {
      var tokenOf := TokenOf(callers);
      forall ss: seq<State>, acts: seq<Action> | Run(ss, acts) && CallsFrom(acts, callers) ensures AllJustified(ss) {
        forall i | 0 <= i < |ss| ensures Inv(ss[i], tokenOf) {
          RunInv(ss, acts, tokenOf, i);
        }
      }
    }
    if !OneTokenPerKey(callers) {
      var c, c' :| c in callers && c' in callers && c.key == c'.key && c.token != c'.token;
      var ss, acts := MixedUp(1, c, c');
      assert CallsFrom(acts, callers) && !AllJustified(ss);
    }
  }

  // ---- with the store ---------------------------------------------------------------------

  /** The caller's token is that of a credential snapshot which the running
      process, started at `birth`, has taken. */
  ghost predicate FromSnapshot(store: seq<System>, birth: nat, c: Caller) {
    exists k :: birth <= k < |store| && SnapshotAt(store[k], c)
  }

  ghost predicate SnapshotAt(s: System, c: Caller) {
    var r := LoadCredential(s.disk, s.ring, c.key.account);
    r.Ok? && r.value.generation == c.key.generation && r.value.token == Some(c.token)
  }

  /** Callers with tokens from snapshots of accounts that were not half deleted
      in the life of the process. */
  ghost function Callers(store: seq<System>, birth: nat): iset<Caller>
    requires birth < |store|
  {
    iset c: Caller | FromSnapshot(store, birth, c) && NeverHalved(store, birth, |store| - 1, c.key.account)
  }

  /** Such callers are only ever answered with what the verifier said about
      their very token. */
  lemma AnswersAgreeWithVerifier(store: seq<System>, storeActs: seq<Protocol.Action>, birth: nat)
    requires Protocol.Run(store, storeActs) && birth < |store|
    ensures AlwaysAgrees(Callers(store, birth))
  {
    forall c, c' | c in Callers(store, birth) && c' in Callers(store, birth) && c.key == c'.key
      ensures c.token == c'.token
    {
      SameSnapshot(store, storeActs, birth, c, c');
    }
    AgreesIffOneTokenPerKey(Callers(store, birth));
  }

  lemma SameSnapshot(store: seq<System>, storeActs: seq<Protocol.Action>, birth: nat, c: Caller, c': Caller)
    requires Protocol.Run(store, storeActs) && birth < |store| && c.key == c'.key
    requires c in Callers(store, birth) && c' in Callers(store, birth)
    ensures c.token == c'.token
  {
    var k :| birth <= k < |store| && SnapshotAt(store[k], c);
    var k' :| birth <= k' < |store| && SnapshotAt(store[k'], c');
    if k <= k' {
      OrderedSnapshots(store, storeActs, k, k', c, c');
    } else {
      OrderedSnapshots(store, storeActs, k', k, c', c);
    }
  }

  lemma OrderedSnapshots(store: seq<System>, storeActs: seq<Protocol.Action>, k: nat, k': nat, c: Caller, c': Caller)
    requires Protocol.Run(store, storeActs) && k <= k' < |store| && NeverHalved(store, k, k', c.key.account)
    requires SnapshotAt(store[k], c) && SnapshotAt(store[k'], c') && c.key == c'.key
    ensures c.token == c'.token
  {
    ProtocolInvariant.RunInv(store, storeActs, 0);
    SnapshotsAgree(store, storeActs, k, k', c.key.account);
  }

  /** A caller with a snapshot's token, and those with later snapshots of the
      same key. */
  ghost function WithLater(c: Caller, s: System): iset<Caller> {
    iset x: Caller | x == c || (x.key == c.key && SnapshotAt(s, x))
  }

  /** A process holds a snapshot while DeleteAccount stops at `after` and lives
      on.  The cache can come to disagree with the verifier exactly when the
      cascade stopped between its last two unlinks. */
  lemma VerdictsMixIffHalved(s: System, c: Caller, after: Disk)
    requires ProtocolInvariant.Inv(s) && SnapshotAt(s, c)
    requires c.key.account in s.disk.accounts && CascadePoint(s.disk, c.key.account, after)
    ensures HalfDeleted(s.disk, after, c.key.account) <==>
            exists acts, s' :: LeadsWhole(AfterDeletion(s, c.key.account, after), acts, s', c.key.account)
                               && !AlwaysAgrees(WithLater(c, s'))
  {
    var a, s1 := c.key.account, AfterDeletion(s, c.key.account, after);
    LoadIsIdeal(s.disk, s.ring, s.h, a);
    if HalfDeleted(s.disk, after, a) {
      var other := c.token + "x";
      SnapshotReusedIffHalved(s, a, after, other);
      var acts, s' :| LeadsWhole(s1, acts, s', a) && Reused(s', a, Generation(s.disk, a), other);
      var d := Caller(c.key, other);
      assert c in WithLater(c, s') && d in WithLater(c, s');
      AgreesIffOneTokenPerKey(WithLater(c, s'));
    }
    forall acts, s' | LeadsWhole(s1, acts, s', a) && !AlwaysAgrees(WithLater(c, s'))
      ensures HalfDeleted(s.disk, after, a)
    {
      AgreesIffOneTokenPerKey(WithLater(c, s'));
      var x :| x in WithLater(c, s') && x.token != c.token;
      assert Reused(s', a, Generation(s.disk, a), x.token);
      SnapshotReusedIffHalved(s, a, after, x.token);
    }
  }

  /** A half deletion that the process survives breaks it: a store run from the
      empty directory without a crash, and a cache run on tokens of its
      snapshots, in which a caller is served the verdict on another token. */
  lemma OneProcessMixesVerdicts(a: Uuid, u: Uuid, first: Token, second: Token, ttl: int)
    returns (store: seq<System>, storeActs: seq<Protocol.Action>, ss: seq<State>, acts: seq<Action>)
    requires a != NIL && u != NIL && first != second && first != "" && ttl > 0
    ensures Protocol.Run(store, storeActs) && NeverRefused(storeActs, second)
    ensures Run(ss, acts) && ss[0].ttl == ttl && CallsFrom(acts, iset c: Caller | FromSnapshot(store, 0, c))
    ensures var s := ss[|acts|]; |s.served| == 2 && !Justified(s, s.served[1])
  {
    var s0, early, s, later, s' := OneProcessMarksTheWrongToken(a, u, first, second);
    var xs: seq<System> :| Steps(xs, early) && xs[0] == s0 && xs[|early|] == s;
    var ys: seq<System> :| Steps(ys, later) && ys[0] == s && ys[|later|] == s';
    Joined(xs, early, ys, later);
    store, storeActs := xs[..|early|] + ys, early + later;
    var key := Binding(NIL, a, 1);
    var c, c' := Caller(key, first), Caller(key, second);
    assert store[|early|] == s && SnapshotAt(s, c);
    assert store[|storeActs|] == s' && SnapshotAt(s', c');
    ss, acts := MixedUp(ttl, c, c');
  }
}
