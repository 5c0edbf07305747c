/** What callers of the verification cache get: every one of them one answer,
    and a stored verdict for as long as it is fresh. */
module CacheService {
  import opened Texts
  import opened Records
  import opened VerifyCache

  /** Flights are filed under their own key and carry callers of that key. */
  ghost predicate Filed(s: State) {
    forall f :: f in s.flights ==> FiledAt(s, f)
  }

  ghost predicate FiledAt(s: State, f: string)
    requires f in s.flights
  {
    && FlightKey(s.flights[f].key) == f
    && forall i :: 0 <= i < |s.flights[f].waiting| ==> FlightKey(s.flights[f].waiting[i].key) == f
  }

  /** Steps leave a flight alone, move its phase, let one caller join, or end it. */
  lemma FlightsMove(s: State, act: Action, f: string)
    requires Enabled(s, act) && f in Step(s, act).flights
    ensures var s' := Step(s, act);
            if act.Call? && FlightKey(act.caller.key) == f then
              s'.flights[f] == if f in s.flights then
                                 s.flights[f].(waiting := s.flights[f].waiting + [act.caller])
                               else Flight(act.caller.key, act.caller.token, Entering, [act.caller])
            else
              f in s.flights && s'.flights[f] == s.flights[f].(phase := s'.flights[f].phase)
  {
  }

  lemma FiledStep(s: State, act: Action)
    requires Filed(s) && Enabled(s, act)
    ensures Filed(Step(s, act))
  {
    forall f | f in Step(s, act).flights ensures FiledAt(Step(s, act), f) {
      FlightsMove(s, act, f);
    }
  }

  lemma {:induction false} FiledRun(ss: seq<State>, acts: seq<Action>, i: nat)
    requires Run(ss, acts) && i < |ss|
    ensures Filed(ss[i])
  {
    if i > 0 {
      FiledRun(ss, acts, i - 1);
      FiledStep(ss[i - 1], acts[i - 1]);
    }
  }

  // ---- one answer each ---------------------------------------------------------------------

  /** The callers so far, in the order of their calls. */
  function Called(acts: seq<Action>): seq<Caller> {
    if acts == [] then []
    else
      var last := acts[|acts| - 1];
      Called(acts[..|acts| - 1]) + if last.Call? then [last.caller] else []
  }

  function Answered(served: seq<Served>): (r: seq<Caller>)
    ensures |r| == |served|
  {
    seq(|served|, i requires 0 <= i < |served| => served[i].caller)
  }

  function Waiting(s: State, f: string): seq<Caller> {
    if f in s.flights then s.flights[f].waiting else []
  }

  lemma AnsweredMore(served: seq<Served>, waiting: seq<Caller>, answer: Verdict, source: Source, at: int)
    ensures Answered(served + Hand(waiting, answer, source, at)) == Answered(served) + waiting
  {
  }

  /** Answers to `c` and its places in flight `f`. */
  function Accounted(s: State, f: string, c: Caller): int {
    multiset(Answered(s.served))[c] + multiset(Waiting(s, f))[c]
  }

  /** `c` waits in flight `f` only. */
  ghost predicate OnlyIn(s: State, f: string, c: Caller) {
    forall g :: g in s.flights && g != f ==> c !in s.flights[g].waiting
  }

  lemma FiledIsOnlyIn(s: State, f: string, c: Caller)
    requires Filed(s) && FlightKey(c.key) == f
    ensures OnlyIn(s, f, c)
  {
    forall g | g in s.flights && g != f ensures c !in s.flights[g].waiting {
      assert FiledAt(s, g);
    }
  }

  lemma LandAccounts(s: State, g: string, answer: Verdict, source: Source, f: string, c: Caller)
    requires g in s.flights && OnlyIn(s, f, c)
    ensures Accounted(Land(s, g, answer, source), f, c) == Accounted(s, f, c)
  {
    AnsweredMore(s.served, s.flights[g].waiting, answer, source, s.now);
    if g != f {
      assert multiset(s.flights[g].waiting)[c] == 0;
    }
  }

  lemma CallAccounts(s: State, d: Caller, f: string, c: Caller)
    requires FlightKey(c.key) == f
    ensures Accounted(Step(s, Call(d)), f, c) == Accounted(s, f, c) + if d == c then 1 else 0
  {
    var s' := Step(s, Call(d));
    if FlightKey(d.key) == f {
      assert s'.flights[f].waiting == Waiting(s, f) + [d];
      assert multiset([d])[c] == if d == c then 1 else 0;
    }
  }

  lemma EnterAccounts(s: State, g: string, f: string, c: Caller)
    requires Enabled(s, Enter(g)) && OnlyIn(s, f, c)
    ensures Accounted(Step(s, Enter(g)), f, c) == Accounted(s, f, c)
  {
    var key := s.flights[g].key;
    if g !in Step(s, Enter(g)).flights {
      LandAccounts(s, g, AnswerOf(s.cache[key]), Cached(s.cache[key].cachedAt), f, c);
    }
  }

  lemma FinishAccounts(s: State, g: string, f: string, c: Caller)
    requires Enabled(s, Finish(g)) && OnlyIn(s, f, c)
    ensures Accounted(Step(s, Finish(g)), f, c) == Accounted(s, f, c)
  {
    var fl := s.flights[g];
    LandAccounts(Remember(s, fl.key, fl.phase.verdict), g, fl.phase.verdict, Fresh, f, c);
  }

  lemma StepAccounts(s: State, act: Action, f: string, c: Caller)
    requires Enabled(s, act) && OnlyIn(s, f, c) && FlightKey(c.key) == f
    ensures Accounted(Step(s, act), f, c) == Accounted(s, f, c) + if act == Call(c) then 1 else 0
  {
    match act
    case Call(d) => CallAccounts(s, d, f, c);
    case Enter(g) => EnterAccounts(s, g, f, c);
    case Finish(g) => FinishAccounts(s, g, f, c);
    case _ =>
  }

  lemma CalledMore(acts: seq<Action>, i: nat, c: Caller)
    requires 0 < i <= |acts|
    ensures multiset(Called(acts[..i]))[c]
            == multiset(Called(acts[..i - 1]))[c] + if acts[i - 1] == Call(c) then 1 else 0
  {
    assert acts[..i][..i - 1] == acts[..i - 1] && acts[..i][i - 1] == acts[i - 1];
    if acts[i - 1].Call? {
      assert multiset([acts[i - 1].caller])[c] == if acts[i - 1] == Call(c) then 1 else 0;
    }
  }

  lemma {:induction false} CallsAccounted(ss: seq<State>, acts: seq<Action>, i: nat, c: Caller, f: string)
    requires Run(ss, acts) && i < |ss| && FlightKey(c.key) == f
    ensures multiset(Called(acts[..i]))[c] == Accounted(ss[i], f, c)
  {
    if i > 0 {
      CallsAccounted(ss, acts, i - 1, c, f);
      FiledRun(ss, acts, i - 1);
      FiledIsOnlyIn(ss[i - 1], f, c);
      StepAccounts(ss[i - 1], acts[i - 1], f, c);
      CalledMore(acts, i, c);
    }
  }

  /** In every run each call has been answered exactly once or still waits: no
      caller is forgotten, and none is answered twice. */
  lemma EveryCallAnsweredOnce(ss: seq<State>, acts: seq<Action>, i: nat, c: Caller)
    requires Run(ss, acts) && i < |ss|
    ensures multiset(Called(acts[..i]))[c]
            == multiset(Answered(ss[i].served))[c] + multiset(Waiting(ss[i], FlightKey(c.key)))[c]
  {
    CallsAccounted(ss, acts, i, c, FlightKey(c.key));
  }

  // ---- as long as it is fresh ----------------------------------------------------------------

  /** `e` is stored under `key`, which flies as `f`, and fresh, and no
      verification of `key` is under way. */
  ghost predicate Stored(s: State, key: Binding, f: string, e: Entry) {
    && key in s.cache && s.cache[key] == e && s.now - e.cachedAt < s.ttl
    && (f in s.flights ==> s.flights[f].phase.Entering? && s.flights[f].key == key)
    && forall g :: g in s.flights && g != f ==> s.flights[g].key != key
  }

  /** The answer of `e` for all who wait in `f`. */
  function Serve(s: State, f: string, e: Entry): seq<Served> {
    Hand(Waiting(s, f), AnswerOf(e), Cached(e.cachedAt), s.now)
  }

  lemma StoredStep(s: State, act: Action, key: Binding, f: string, e: Entry)
    requires Enabled(s, act) && Stored(s, key, f, e) && act != Invalidate(key)
    requires act.Call? ==> (FlightKey(act.caller.key) == f <==> act.caller.key == key)
    requires Step(s, act).now - e.cachedAt < s.ttl
    ensures Stored(Step(s, act), key, f, e)
    ensures !(act.Reply? && act.flight == f)
    ensures act == Enter(f) ==> Step(s, act).served == s.served + Serve(s, f, e)
  {
    match act
    case Call(c) => StoredCall(s, c, key, f, e);
    case _ =>
  }

  lemma StoredCall(s: State, c: Caller, key: Binding, f: string, e: Entry)
    requires Stored(s, key, f, e) && (FlightKey(c.key) == f <==> c.key == key)
    ensures Stored(Step(s, Call(c)), key, f, e)
  {
    forall g | g in Step(s, Call(c)).flights ensures g != f ==> Step(s, Call(c)).flights[g].key != key {
      FlightsMove(s, Call(c), g);
    }
  }

  /** The entry that a verdict leaves: a success or a 401, nothing else. */
  function EntryFor(v: Verdict, now: int): Option<Entry> {
    match v
    case Accepted(id, _) => Some(Entry(true, id, now))
    case Unauthorized => Some(Entry(false, NIL, now))
    case Failure(_) => None
  }

  /** Other flights are of other keys. */
  lemma OneFlightPerKey(s: State, key: Binding)
    requires Filed(s)
    ensures forall g :: g in s.flights && g != FlightKey(key) ==> s.flights[g].key != key
    ensures FlightKey(key) in s.flights ==> s.flights[FlightKey(key)].key == key
  {
    forall g | g in s.flights && g != FlightKey(key) ensures s.flights[g].key != key {
      assert FiledAt(s, g);
    }
    if FlightKey(key) in s.flights {
      assert FiledAt(s, FlightKey(key));
      FlightKeyInjective(key, s.flights[FlightKey(key)].key);
    }
  }

  lemma FinishStores(s: State, key: Binding, f: string, e: Entry)
    requires s.ttl > 0 && Enabled(s, Finish(f)) && s.flights[f].key == key
    requires EntryFor(s.flights[f].phase.verdict, s.now) == Some(e)
    requires forall g :: g in s.flights && g != f ==> s.flights[g].key != key
    ensures Stored(Step(s, Finish(f)), key, f, e)
  {
  }

  /** What the verifier could not decide is not stored. */
  lemma FailureIsNotStored(s: State, f: string)
    requires Enabled(s, Finish(f)) && s.flights[f].phase.verdict.Failure?
    ensures Step(s, Finish(f)).cache == s.cache
  {
  }

  ghost predicate StoresAt(ss: seq<State>, acts: seq<Action>, i: nat, key: Binding, e: Entry) {
    && i < |acts| && i < |ss| && acts[i] == Finish(FlightKey(key)) && Enabled(ss[i], acts[i])
    && EntryFor(ss[i].flights[FlightKey(key)].phase.verdict, ss[i].now) == Some(e)
  }

  lemma StoredFirst(ss: seq<State>, acts: seq<Action>, i: nat, key: Binding, e: Entry)
    requires Run(ss, acts) && StoresAt(ss, acts, i, key, e)
    ensures Stored(ss[i + 1], key, FlightKey(key), e)
  {
    KeepsTtl(ss, acts, i);
    FiledRun(ss, acts, i);
    OneFlightPerKey(ss[i], key);
    FinishStores(ss[i], key, FlightKey(key), e);
  }

  lemma StoredNext(ss: seq<State>, acts: seq<Action>, j: nat, key: Binding, f: string, e: Entry)
    requires Run(ss, acts) && j < |acts| && Stored(ss[j], key, f, e) && acts[j] != Invalidate(key)
    requires acts[j].Call? ==> (FlightKey(acts[j].caller.key) == f <==> acts[j].caller.key == key)
    requires ss[j + 1].now - e.cachedAt < ss[0].ttl
    ensures Stored(ss[j + 1], key, f, e)
    ensures !(acts[j].Reply? && acts[j].flight == f)
    ensures acts[j] == Enter(f) ==> ss[j + 1].served == ss[j].served + Serve(ss[j], f, e)
  {
    KeepsTtl(ss, acts, j);
    StoredStep(ss[j], acts[j], key, f, e);
  }

  lemma {:induction false} StoredUntil(ss: seq<State>, acts: seq<Action>, i: nat, j: nat, key: Binding, e: Entry)
    requires Run(ss, acts) && i < j < |ss| && StoresAt(ss, acts, i, key, e)
    requires forall k :: i < k < j ==> acts[k] != Invalidate(key)
    requires ss[j].now - e.cachedAt < ss[0].ttl
    ensures Stored(ss[j], key, FlightKey(key), e)
    decreases j
  {
    if i + 1 < j {
      TimePasses(ss[j - 1], acts[j - 1]);
      StoredUntil(ss, acts, i, j - 1, key, e);
      if acts[j - 1].Call? { SameFlightIff(acts[j - 1].caller.key, key); }
      StoredNext(ss, acts, j - 1, key, FlightKey(key), e);
    } else {
      StoredFirst(ss, acts, i, key, e);
    }
  }

  lemma SameFlightIff(a: Binding, b: Binding)
    ensures FlightKey(a) == FlightKey(b) <==> a == b
  {
    if FlightKey(a) == FlightKey(b) {
      FlightKeyInjective(a, b);
    }
  }

  /** Until it is ttl old, or invalidated, a stored verdict answers everyone who
      waits for its key, and the verifier is not asked for that key. */
  lemma StoredVerdictServes(ss: seq<State>, acts: seq<Action>, i: nat, j: nat, key: Binding, e: Entry)
    requires Run(ss, acts) && i < j < |acts| && StoresAt(ss, acts, i, key, e)
    requires forall k :: i < k <= j ==> acts[k] != Invalidate(key)
    requires ss[j + 1].now - e.cachedAt < ss[0].ttl
    ensures !(acts[j].Reply? && acts[j].flight == FlightKey(key))
    ensures acts[j] == Enter(FlightKey(key)) ==> ss[j + 1].served == ss[j].served + Serve(ss[j], FlightKey(key), e)
  {
    TimePasses(ss[j], acts[j]);
    StoredUntil(ss, acts, i, j, key, e);
    if acts[j].Call? { SameFlightIff(acts[j].caller.key, key); }
    StoredNext(ss, acts, j, key, FlightKey(key), e);
  }

  lemma TimePasses(s: State, act: Action)
    requires Enabled(s, act)
    ensures s.now <= Step(s, act).now && Step(s, act).ttl == s.ttl
  {
  }

  lemma {:induction false} KeepsTtl(ss: seq<State>, acts: seq<Action>, i: nat)
    requires Run(ss, acts) && i < |ss|
    ensures ss[i].ttl == ss[0].ttl > 0
  {
    if i > 0 {
      KeepsTtl(ss, acts, i - 1);
      TimePasses(ss[i - 1], acts[i - 1]);
    }
  }
}
