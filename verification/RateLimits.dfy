/** RateLimits: the per-IP gates and the renewal gate with its single-use
    reconnect allowance, each a bounded map of token buckets. */
module RateLimits {
  import opened TokenBuckets
  import opened Eviction

  // ---- one gate as a state machine -----------------------------------------------------

  datatype Op = Attempt(key: string, at: int) | Grant(key: string, at: int)

  function NewEntry(cfg: Config, now: int): Entry
    requires cfg.Ok()
  {
    Entry(NewBucket(cfg.max, cfg.rate, now), now, false)
  }

  /** An attempt charged to an existing entry. */
  function Charge(e: Entry, now: int): (Entry, bool)
    requires Sound(e.bucket)
  {
    if e.allowance then (e.(lastSeen := now, allowance := false), true)
    else var (b, ok) := Take(e.bucket, now); (Entry(b, now, false), ok)
  }

  /** The entry an operation leaves under its own key, and the answer. */
  function Touch(op: Op, e: Entry): (Entry, bool)
    requires Sound(e.bucket)
  {
    match op
    case Attempt(_, now) => Charge(e, now)
    case Grant(_, now) => (e.(lastSeen := now, allowance := true), true)
  }

  /** One call: a missing key first makes room, and is refused when no room
      can be made; `gone` are the evicted keys. */
  ghost predicate Step(cfg: Config, m: Entries, op: Op, gone: set<string>, m': Entries, answer: bool) {
    && cfg.Ok() && SoundEntries(cfg, m)
    && if op.key in m then
         gone == {} && m' == m[op.key := Touch(op, m[op.key]).0] && answer == Touch(op, m[op.key]).1
       else
         && Evicts(cfg, m, op.at, gone)
         && if |m - gone| >= cfg.HardLimit() then m' == m - gone && !answer
            else var (e, ok) := Touch(op, NewEntry(cfg, op.at)); m' == (m - gone)[op.key := e] && answer == ok
  }

  predicate SoundEntry(cfg: Config, e: Entry) {
    Sound(e.bucket) && e.bucket.maxTokens == cfg.max && e.bucket.refillRate == cfg.rate
  }

  ghost predicate SoundEntries(cfg: Config, m: Entries) {
    forall k :: k in m ==> SoundEntry(cfg, m[k])
  }

  /** The invariant at time `now`: the map never outgrows its hard limit. */
  ghost predicate Inv(cfg: Config, m: Entries, now: int) {
    && SoundEntries(cfg, m) && |m| <= cfg.HardLimit()
    && forall k :: k in m ==> Timed(m[k], now)
  }

  class Gate {
    const cfg: Config
    var entries: Entries

    constructor (perMinute: int, maxMapSize: int, maxIdle: int)
      requires 0 < perMinute <= MINUTE
      ensures cfg == Config(perMinute, RefillRate(perMinute), maxMapSize, maxIdle) && cfg.Ok() && entries == map[]
    {
      cfg, entries := Config(perMinute, RefillRate(perMinute), maxMapSize, maxIdle), map[];
    }

    /** Evict if needed; room is made when the map is below its hard limit. */
    method MakeRoom(now: int) returns (room: bool, ghost gone: set<string>)
      modifies this
      ensures Evicts(cfg, old(entries), now, gone) && entries == old(entries) - gone
      ensures room == (|entries| < cfg.HardLimit())
    {
      entries, gone := Evict(cfg, entries, now);
      room := |entries| < cfg.HardLimit();
    }

    /** AllowPreAuthIP, AllowUnknownKeyAttempt and AllowRenewalAttempt. */
    method Allow(key: string, now: int) returns (answer: bool, ghost gone: set<string>)
      requires cfg.Ok() && SoundEntries(cfg, entries)
      modifies this
      ensures Step(cfg, old(entries), Attempt(key, now), gone, entries, answer)
    {
      if key !in entries {
        var room;
        room, gone := MakeRoom(now);
        if !room {
          return false, gone;
        }
        var (b, ok) := Take(NewBucket(cfg.max, cfg.rate, now), now);
        entries := entries[key := Entry(b, now, false)];
        return ok, gone;
      }
      gone := {};
      var e := entries[key].(lastSeen := now);
      if e.allowance {
        entries := entries[key := e.(allowance := false)];
        return true, gone;
      }
      var (b, ok) := Take(e.bucket, now);
      entries := entries[key := e.(bucket := b)];
      return ok, gone;
    }

    /** GrantReconnectAllowance: nothing happens when no room can be made. */
    method Grant(key: string, now: int) returns (ghost granted: bool, ghost gone: set<string>)
      requires cfg.Ok() && SoundEntries(cfg, entries)
      modifies this
      ensures Step(cfg, old(entries), Op.Grant(key, now), gone, entries, granted)
    {
      if key !in entries {
        var room;
        room, gone := MakeRoom(now);
        if !room {
          return false, gone;
        }
        var e := NewEntry(cfg, now);
        entries := entries[key := Entry(e.bucket, now, true)];
        return true, gone;
      }
      entries := entries[key := entries[key].(lastSeen := now, allowance := true)];
      return true, {};
    }
  }

  // ---- steps ----------------------------------------------------------------------------

  lemma MinusSize(m: Entries, gone: set<string>)
    requires gone <= m.Keys
    ensures |m - gone| == |m| - |gone|
  {
    assert (m - gone).Keys == m.Keys - gone;
  }

  /** Room is made exactly when some entry is unprotected. */
  lemma RoomIffUnprotected(cfg: Config, m: Entries, now: int, gone: set<string>)
    requires |m| <= cfg.HardLimit() && Evicts(cfg, m, now, gone)
    ensures gone <= Unprotected(m) <= m.Keys
    ensures |m - gone| < cfg.HardLimit() <==> |m| < cfg.HardLimit() || Unprotected(m) != {}
  {
    MinusSize(m, gone);
  }

  predicate Timed(e: Entry, now: int) { e.bucket.lastRefill <= e.lastSeen <= now }

  lemma TouchKeepsEntry(cfg: Config, op: Op, e: Entry)
    requires cfg.Ok() && SoundEntry(cfg, e) && Timed(e, op.at)
    ensures SoundEntry(cfg, Touch(op, e).0) && Timed(Touch(op, e).0, op.at)
  {
  }

  lemma InsertSize(m: Entries, k: string, e: Entry)
    ensures |m[k := e]| == |m| + if k in m then 0 else 1
  {
    var m' := m[k := e];
    assert m'.Keys == m.Keys + {k};
    assert k !in m ==> |m.Keys + {k}| == |m.Keys| + 1;
    assert k in m ==> m.Keys + {k} == m.Keys;
  }

  lemma StepSize(cfg: Config, m: Entries, op: Op, gone: set<string>, m': Entries, answer: bool)
    requires |m| <= cfg.HardLimit() && Step(cfg, m, op, gone, m', answer)
    ensures |m'| <= cfg.HardLimit()
  {
    if op.key in m {
      InsertSize(m, op.key, m'[op.key]);
    } else {
      MinusSize(m, gone);
      if |m - gone| < cfg.HardLimit() {
        InsertSize(m - gone, op.key, m'[op.key]);
      }
    }
  }

  lemma StepInv(cfg: Config, m: Entries, op: Op, gone: set<string>, m': Entries, answer: bool, before: int)
    requires Inv(cfg, m, before) && before <= op.at && Step(cfg, m, op, gone, m', answer)
    ensures Inv(cfg, m', op.at)
  {
    StepSize(cfg, m, op, gone, m', answer);
    TouchKeepsEntry(cfg, op, if op.key in m then m[op.key] else NewEntry(cfg, op.at));
    forall k | k in m' ensures SoundEntry(cfg, m'[k]) && Timed(m'[k], op.at) {
      if k != op.key { assert k in m && m'[k] == m[k]; }
    }
  }

  /** A pending reconnect allowance survives every call except the attempt of
      its own account, which consumes it and is allowed. */
  lemma AllowanceIsProtected(cfg: Config, m: Entries, op: Op, gone: set<string>, m': Entries, answer: bool, k: string)
    requires |m| <= cfg.HardLimit() && Step(cfg, m, op, gone, m', answer)
    requires k in m && m[k].allowance
    ensures op == Attempt(k, op.at) ==> answer && k in m' && !m'[k].allowance && m'[k].bucket == m[k].bucket
    ensures op != Attempt(k, op.at) ==> k in m' && m'[k].allowance
  {
    if op.key !in m { RoomIffUnprotected(cfg, m, op.at, gone); }
  }

  /** A new key is refused exactly when the map is full of pending allowances. */
  lemma NewKeyRefusedIff(cfg: Config, m: Entries, op: Op, gone: set<string>, m': Entries, answer: bool)
    requires |m| <= cfg.HardLimit() && Step(cfg, m, op, gone, m', answer)
    requires op.key !in m
    ensures !answer <==> |m| == cfg.HardLimit() && forall k :: k in m ==> m[k].allowance
  {
    RoomIffUnprotected(cfg, m, op.at, gone);
    assert Unprotected(m) == {} <==> forall k :: k in m ==> m[k].allowance;
  }

  // ---- runs -------------------------------------------------------------------------------

  /** A stretch of a run in the time window [from, until]. */
  ghost predicate Window(cfg: Config, ms: seq<Entries>, ops: seq<Op>, gones: seq<set<string>>, answers: seq<bool>,
                         from: int, until: int) {
    && |ms| == |ops| + 1 && |gones| == |answers| == |ops|
    && Inv(cfg, ms[0], from)
    && (forall i :: 0 <= i < |ops| ==> Step(cfg, ms[i], ops[i], gones[i], ms[i + 1], answers[i]))
    && (forall i :: 0 <= i < |ops| ==> from <= ops[i].at <= until)
    && (forall i, j :: 0 <= i < j < |ops| ==> ops[i].at <= ops[j].at)
  }

  function TimeBefore(ops: seq<Op>, from: int, i: nat): int
    requires i <= |ops|
  {
    if i == 0 then from else ops[i - 1].at
  }

  /** Over any run the map stays within its hard limit. */
  lemma {:induction false} RunInv(cfg: Config, ms: seq<Entries>, ops: seq<Op>, gones: seq<set<string>>,
                                  answers: seq<bool>, from: int, until: int, i: nat)
    requires cfg.Ok() && Window(cfg, ms, ops, gones, answers, from, until) && i < |ms|
    ensures Inv(cfg, ms[i], TimeBefore(ops, from, i))
    ensures |ms[i]| <= cfg.HardLimit()
  {
    if i > 0 {
      RunInv(cfg, ms, ops, gones, answers, from, until, i - 1);
      assert TimeBefore(ops, from, i - 1) <= ops[i - 1].at;
      StepInv(cfg, ms[i - 1], ops[i - 1], gones[i - 1], ms[i], answers[i - 1], TimeBefore(ops, from, i - 1));
    }
  }

  // ---- the sliding-window bound --------------------------------------------------------------

  function Count(b: bool): nat { if b then 1 else 0 }

  /** Allowed attempts of `k` from call `i` on. */
  function Allowed(ops: seq<Op>, answers: seq<bool>, k: string, i: nat): nat
    requires |ops| == |answers| && i <= |ops|
    decreases |ops| - i
  {
    if i == |ops| then 0 else Count(ops[i].Attempt? && ops[i].key == k && answers[i]) + Allowed(ops, answers, k, i + 1)
  }

  /** Grants to `k` from call `i` on. */
  function Grants(ops: seq<Op>, k: string, i: nat): nat
    requires i <= |ops|
    decreases |ops| - i
  {
    if i == |ops| then 0 else Count(ops[i].Grant? && ops[i].key == k) + Grants(ops, k, i + 1)
  }

  predicate Pending(m: Entries, k: string) { k in m && m[k].allowance }

  ghost predicate NeverEvicted(gones: seq<set<string>>, k: string, i: nat) {
    forall j :: i <= j < |gones| ==> k !in gones[j]
  }

  lemma OtherKeyUntouched(cfg: Config, m: Entries, op: Op, gone: set<string>, m': Entries, answer: bool, k: string)
    requires Step(cfg, m, op, gone, m', answer) && k != op.key && k !in gone
    ensures k in m' <==> k in m
    ensures k in m ==> m'[k] == m[k]
  {
  }

  /** From a state that holds `k`, the allowed attempts are bounded by what its
      bucket can supply, the pending allowance and later grants. */
  lemma {:induction false} SupplyBound(cfg: Config, ms: seq<Entries>, ops: seq<Op>, gones: seq<set<string>>,
                                       answers: seq<bool>, from: int, until: int, k: string, i: nat)
    requires cfg.Ok() && Window(cfg, ms, ops, gones, answers, from, until) && i <= |ops|
    requires NeverEvicted(gones, k, i) && k in ms[i] && Sound(ms[i][k].bucket) && ms[i][k].bucket.lastRefill <= until
    ensures Allowed(ops, answers, k, i)
            <= Supply(ms[i][k].bucket, until) + Count(Pending(ms[i], k)) + Grants(ops, k, i)
    decreases |ops| - i
  {
    if i == |ops| {
      QuotientAtLeast(0, until - ms[i][k].bucket.lastRefill, ms[i][k].bucket.refillRate);
    } else {
      if ops[i].key == k {
        TakeSpendsSupply(ms[i][k].bucket, ops[i].at, until);
      } else {
        OtherKeyUntouched(cfg, ms[i], ops[i], gones[i], ms[i + 1], answers[i], k);
      }
      SupplyBound(cfg, ms, ops, gones, answers, from, until, k, i + 1);
    }
  }

  /** In any window in which its entry is not evicted, a key is allowed at most
      max + 1 + (window / refill interval) attempts, plus one for an allowance
      pending at the start and one for each grant. */
  lemma {:induction false} WindowBound(cfg: Config, ms: seq<Entries>, ops: seq<Op>, gones: seq<set<string>>,
                                       answers: seq<bool>, from: int, until: int, k: string, i: nat)
    requires cfg.Ok() && Window(cfg, ms, ops, gones, answers, from, until) && i <= |ops| && from <= until
    requires NeverEvicted(gones, k, i)
    ensures Allowed(ops, answers, k, i)
            <= cfg.max + 1 + (until - from) / cfg.rate + Count(Pending(ms[i], k)) + Grants(ops, k, i)
    decreases |ops| - i
  {
    if i == |ops| {
      QuotientAtLeast(0, until - from, cfg.rate);
    } else {
      if ops[i].key != k {
        OtherKeyUntouched(cfg, ms[i], ops[i], gones[i], ms[i + 1], answers[i], k);
        WindowBound(cfg, ms, ops, gones, answers, from, until, k, i + 1);
      } else if ops[i].Attempt? && k in ms[i + 1] && !Pending(ms[i], k) {
        ChargedBound(cfg, ms, ops, gones, answers, from, until, k, i);
      } else {
        UnchargedStep(cfg, ms[i], ops[i], gones[i], ms[i + 1], answers[i]);
        WindowBound(cfg, ms, ops, gones, answers, from, until, k, i + 1);
      }
    }
  }

  /** A call that does not reach the bucket is paid for by an allowance. */
  lemma UnchargedStep(cfg: Config, m: Entries, op: Op, gone: set<string>, m': Entries, answer: bool)
    requires Step(cfg, m, op, gone, m', answer)
    requires !(op.Attempt? && op.key in m' && !Pending(m, op.key))
    ensures Count(op.Attempt? && answer) + Count(Pending(m', op.key)) <= Count(Pending(m, op.key)) + Count(op.Grant?)
  {
  }

  lemma ChargedBound(cfg: Config, ms: seq<Entries>, ops: seq<Op>, gones: seq<set<string>>, answers: seq<bool>,
                     from: int, until: int, k: string, i: nat)
    requires cfg.Ok() && Window(cfg, ms, ops, gones, answers, from, until) && i < |ops|
    requires NeverEvicted(gones, k, i) && ops[i] == Attempt(k, ops[i].at) && !Pending(ms[i], k)
    requires k in ms[i + 1]
    ensures Allowed(ops, answers, k, i) <= cfg.max + 1 + (until - from) / cfg.rate + Grants(ops, k, i)
  {
    RunInv(cfg, ms, ops, gones, answers, from, until, i + 1);
    var now := ops[i].at;
    var b := if k in ms[i] then ms[i][k].bucket else NewBucket(cfg.max, cfg.rate, now);
    assert (ms[i + 1][k].bucket, answers[i]) == Take(b, now) && !ms[i + 1][k].allowance;
    SupplyAfterTake(b, now, until);
    SupplyBound(cfg, ms, ops, gones, answers, from, until, k, i + 1);
    QuotientMonotone(until - now, until - from, cfg.rate);
  }

  /** Every call that is not turned away for want of room leaves its key seen
      now, and only its own. */
  lemma CallsStampTheirKey(cfg: Config, m: Entries, op: Op, gone: set<string>, m': Entries, answer: bool, k: string)
    requires Step(cfg, m, op, gone, m', answer) && k in m'
    ensures if k == op.key then m'[k].lastSeen == op.at else k in m && m'[k] == m[k]
  {
  }

  // ---- what is granted -----------------------------------------------------------------------

  /** From call `i` on, `k` finds a token at its next attempt: it has one, or the
      attempt comes an interval after the last refill. */
  ghost predicate Rested(cfg: Config, m: Entries, ops: seq<Op>, k: string, i: nat) {
    k in m && m[k].bucket.tokens < 1 ==>
      forall j :: i <= j < |ops| && ops[j] == Attempt(k, ops[j].at) ==>
        ops[j].at - m[k].bucket.lastRefill >= cfg.rate
  }

  /** The attempts of `k` are at least one refill interval apart. */
  ghost predicate Spaced(cfg: Config, ops: seq<Op>, k: string) {
    forall i, j :: 0 <= i < j < |ops| && ops[i] == Attempt(k, ops[i].at) && ops[j] == Attempt(k, ops[j].at)
      ==> ops[j].at - ops[i].at >= cfg.rate
  }

  lemma RestedIsAllowed(cfg: Config, e: Entry, now: int)
    requires cfg.Ok() && SoundEntry(cfg, e) && e.bucket.lastRefill <= now
    requires e.bucket.tokens >= 1 || now - e.bucket.lastRefill >= cfg.rate
    ensures Charge(e, now).1
    ensures Charge(e, now).0.bucket == e.bucket || Charge(e, now).0.bucket.lastRefill <= now
  {
    if now - e.bucket.lastRefill >= cfg.rate {
      QuotientAtLeast(1, now - e.bucket.lastRefill, cfg.rate);
    }
  }

  lemma RestedStep(cfg: Config, ms: seq<Entries>, ops: seq<Op>, gones: seq<set<string>>, answers: seq<bool>,
                   from: int, until: int, k: string, i: nat)
    requires cfg.Ok() && Window(cfg, ms, ops, gones, answers, from, until) && i < |ops|
    requires Spaced(cfg, ops, k) && Rested(cfg, ms[i], ops, k, i)
    ensures Rested(cfg, ms[i + 1], ops, k, i + 1)
    ensures ops[i] == Attempt(k, ops[i].at) && k in ms[i + 1] ==> answers[i]
  {
    RunInv(cfg, ms, ops, gones, answers, from, until, i);
    assert TimeBefore(ops, from, i) <= ops[i].at;
    if k in ms[i + 1] {
      if ops[i].key != k {
        SurvivorUntouched(cfg, ms[i], ops[i], gones[i], ms[i + 1], answers[i], k);
      } else {
        RestedTouch(cfg, ms[i], ops, gones[i], ms[i + 1], answers[i], i);
      }
    }
  }

  lemma RestedTouch(cfg: Config, m: Entries, ops: seq<Op>, gone: set<string>, m': Entries, answer: bool, i: nat)
    requires cfg.Ok() && i < |ops| && Step(cfg, m, ops[i], gone, m', answer) && ops[i].key in m'
    requires Spaced(cfg, ops, ops[i].key) && Rested(cfg, m, ops, ops[i].key, i)
    requires forall x :: x in m ==> Timed(m[x], ops[i].at)
    ensures Rested(cfg, m', ops, ops[i].key, i + 1) && (ops[i].Attempt? ==> answer)
  {
    var k, now := ops[i].key, ops[i].at;
    var e := if k in m then m[k] else NewEntry(cfg, now);
    TouchKeepsEntry(cfg, ops[i], e);
    assert (m'[k], answer) == Touch(ops[i], e);
    if ops[i].Attempt? {
      assert ops[i] == Attempt(k, now);
      RestedIsAllowed(cfg, e, now);
    }
  }

  lemma SurvivorUntouched(cfg: Config, m: Entries, op: Op, gone: set<string>, m': Entries, answer: bool, k: string)
    requires Step(cfg, m, op, gone, m', answer) && k != op.key && k in m'
    ensures k in m && m'[k] == m[k]
  {
  }

  lemma {:induction false} RestedThroughout(
      cfg: Config, ms: seq<Entries>, ops: seq<Op>, gones: seq<set<string>>, answers: seq<bool>,
      from: int, until: int, k: string, i: nat)
    requires cfg.Ok() && Window(cfg, ms, ops, gones, answers, from, until) && i <= |ops|
    requires Spaced(cfg, ops, k) && Rested(cfg, ms[0], ops, k, 0)
    ensures Rested(cfg, ms[i], ops, k, i)
  {
    if i > 0 {
      RestedThroughout(cfg, ms, ops, gones, answers, from, until, k, i - 1);
      RestedStep(cfg, ms, ops, gones, answers, from, until, k, i - 1);
    }
  }

  /** A key whose attempts are at least one refill interval apart is never
      denied, evictions or not, unless there is no room for it at all. */
  lemma SpacedNeverDenied(cfg: Config, ms: seq<Entries>, ops: seq<Op>, gones: seq<set<string>>, answers: seq<bool>,
                          from: int, until: int, k: string, i: nat)
    requires cfg.Ok() && Window(cfg, ms, ops, gones, answers, from, until) && i < |ops|
    requires Spaced(cfg, ops, k) && Rested(cfg, ms[0], ops, k, 0) && ops[i] == Attempt(k, ops[i].at)
    ensures answers[i] || (k !in ms[i] && |ms[i]| == cfg.HardLimit() && forall x :: x in ms[i] ==> ms[i][x].allowance)
  {
    RestedThroughout(cfg, ms, ops, gones, answers, from, until, k, i);
    RestedStep(cfg, ms, ops, gones, answers, from, until, k, i);
    RunInv(cfg, ms, ops, gones, answers, from, until, i);
    if k !in ms[i] {
      NewKeyRefusedIff(cfg, ms[i], ops[i], gones[i], ms[i + 1], answers[i]);
    }
  }

  /** A granted allowance pays for the key's next attempt, however many other
      calls come between. */
  lemma {:induction false} GrantPaysNextAttempt(
      cfg: Config, ms: seq<Entries>, ops: seq<Op>, gones: seq<set<string>>, answers: seq<bool>,
      from: int, until: int, k: string, i: nat, j: nat)
    requires cfg.Ok() && Window(cfg, ms, ops, gones, answers, from, until) && i < j < |ops|
    requires ops[i] == Op.Grant(k, ops[i].at) && answers[i]
    requires forall n :: i < n < j ==> ops[n] != Attempt(k, ops[n].at)
    ensures k in ms[j] && ms[j][k].allowance
    ensures ops[j] == Attempt(k, ops[j].at) ==> answers[j] && k in ms[j + 1] && ms[j + 1][k].bucket == ms[j][k].bucket
    decreases j
  {
    if i + 1 < j {
      GrantPaysNextAttempt(cfg, ms, ops, gones, answers, from, until, k, i, j - 1);
      RunInv(cfg, ms, ops, gones, answers, from, until, j - 1);
      AllowanceIsProtected(cfg, ms[j - 1], ops[j - 1], gones[j - 1], ms[j], answers[j - 1], k);
    } else {
      GrantedIsPending(cfg, ms[i], ops[i], gones[i], ms[j], answers[i]);
    }
    RunInv(cfg, ms, ops, gones, answers, from, until, j);
    AllowanceIsProtected(cfg, ms[j], ops[j], gones[j], ms[j + 1], answers[j], k);
  }

  lemma GrantedIsPending(cfg: Config, m: Entries, op: Op, gone: set<string>, m': Entries, answer: bool)
    requires Step(cfg, m, op, gone, m', answer) && op.Grant? && answer
    ensures op.key in m' && m'[op.key].allowance
  {
  }

  /** After an eviction of a full map the protected entries are left when all
      others were idle; otherwise at least those, and just fewer entries than
      half the limit when there were enough to remove. */
  lemma EvictionLeaves(cfg: Config, m: Entries, now: int, gone: set<string>)
    requires |m| == cfg.HardLimit() && Evicts(cfg, m, now, gone)
    ensures var limit, spared := if cfg.maxMapSize < 1 then 1 else cfg.maxMapSize, |m| - |Unprotected(m)|;
            var half := if limit < 4 then 1 else limit / 2;
            var allIdle := forall k :: k in Unprotected(m) ==> m[k].lastSeen < now - cfg.maxIdle;
            |m - gone| == if allIdle || half - 1 < spared then spared else half - 1
  {
    RoomIffUnprotected(cfg, m, now, gone);
    MinusSize(m, gone);
    UnprotectedSize(m);
  }

  lemma UnprotectedSize(m: Entries)
    ensures |Unprotected(m)| <= |m|
  {
    assert Unprotected(m) <= m.Keys;
    assert m.Keys == Unprotected(m) + (m.Keys - Unprotected(m));
  }

  // ---- idle eviction cannot be observed -----------------------------------------------------------

  /** The same gate without a bound on its map. */
  function Unbounded(cfg: Config, m: Entries, op: Op): (Entries, bool)
    requires cfg.Ok() && SoundEntries(cfg, m)
  {
    var (e, ok) := Touch(op, if op.key in m then m[op.key] else NewEntry(cfg, op.at));
    (m[op.key := e], ok)
  }

  ghost predicate NoneGranted(m: Entries) {
    forall k :: k in m ==> !m[k].allowance
  }

  /** What links the two gates at time `now`, as far as `k` can tell: the bounded
      one has the other's entry for `k`, or has evicted it. */
  ghost predicate Shadows(cfg: Config, m: Entries, all: Entries, k: string, now: int) {
    && NoneGranted(m) && NoneGranted(all) && SoundEntries(cfg, all)
    && (k in m ==> k in all && all[k] == m[k])
    && forall x :: x in all ==> Timed(all[x], now)
  }

  /** Without allowances every attempt finds room. */
  lemma TouchedMap(cfg: Config, m: Entries, op: Op, gone: set<string>, m': Entries, answer: bool)
    requires |m| <= cfg.HardLimit() && Step(cfg, m, op, gone, m', answer) && NoneGranted(m)
    ensures var (e, ok) := Touch(op, if op.key in m then m[op.key] else NewEntry(cfg, op.at));
            m' == (m - gone)[op.key := e] && answer == ok
    ensures op.Attempt? ==> NoneGranted(m')
  {
    if op.key in m {
      assert m - gone == m;
    } else {
      RoomIffUnprotected(cfg, m, op.at, gone);
      if x :| x in m { assert x in Unprotected(m); }
    }
  }

  lemma UnboundedSound(cfg: Config, all: Entries, op: Op)
    requires cfg.Ok() && SoundEntries(cfg, all) && NoneGranted(all) && op.Attempt?
    requires forall k :: k in all ==> Timed(all[k], op.at)
    ensures var all' := Unbounded(cfg, all, op).0;
            SoundEntries(cfg, all') && NoneGranted(all') && forall k :: k in all' ==> Timed(all'[k], op.at)
  {
    TouchKeepsEntry(cfg, op, if op.key in all then all[op.key] else NewEntry(cfg, op.at));
  }

  /** An entry that is full again answers and goes on as a new one. */
  lemma FullEntryIsNew(cfg: Config, e: Entry, op: Op)
    requires cfg.Ok() && op.Attempt? && SoundEntry(cfg, e) && !e.allowance && FullAgain(e.bucket, op.at)
    ensures Touch(op, e) == Touch(op, NewEntry(cfg, op.at))
  {
    FullAgainIsNew(e.bucket, op.at);
    FullAgainIsNew(NewBucket(cfg.max, cfg.rate, op.at), op.at);
  }

  /** A call of `k` after its eviction finds the evicted bucket full again. */
  predicate Harmless(m: Entries, all: Entries, op: Op, k: string) {
    op.key == k && k !in m && k in all ==> 0 < all[k].bucket.refillRate && FullAgain(all[k].bucket, op.at)
  }

  lemma ShadowsStep(cfg: Config, m: Entries, op: Op, gone: set<string>, m': Entries, answer: bool,
                    all: Entries, before: int, k: string)
    requires cfg.Ok() && op.Attempt? && before <= op.at && |m| <= cfg.HardLimit()
    requires Shadows(cfg, m, all, k, before) && Harmless(m, all, op, k) && Step(cfg, m, op, gone, m', answer)
    ensures var (all', ok) := Unbounded(cfg, all, op);
            Shadows(cfg, m', all', k, op.at) && (op.key == k ==> answer == ok)
  {
    TouchedMap(cfg, m, op, gone, m', answer);
    UnboundedSound(cfg, all, op);
    if op.key == k && k !in m && k in all {
      FullEntryIsNew(cfg, all[k], op);
    }
  }

  /** The unbounded gate run on the same calls. */
  ghost predicate Parallel(cfg: Config, ops: seq<Op>, alls: seq<Entries>) {
    && cfg.Ok() && |alls| == |ops| + 1 && alls[0] == map[]
    && forall j :: 0 <= j < |ops| ==> SoundEntries(cfg, alls[j]) && alls[j + 1] == Unbounded(cfg, alls[j], ops[j]).0
  }

  /** Whenever `k` comes back after an eviction, its bucket would be full again. */
  ghost predicate AlwaysHarmless(ms: seq<Entries>, alls: seq<Entries>, ops: seq<Op>, k: string) {
    && |ms| == |alls| == |ops| + 1
    && forall j :: 0 <= j < |ops| ==> Harmless(ms[j], alls[j], ops[j], k)
  }

  lemma ShadowsAt(cfg: Config, ms: seq<Entries>, ops: seq<Op>, gones: seq<set<string>>, answers: seq<bool>,
                  from: int, until: int, alls: seq<Entries>, k: string, i: nat)
    requires Window(cfg, ms, ops, gones, answers, from, until) && i < |ops|
    requires ops[i].Attempt? && AlwaysHarmless(ms, alls, ops, k) && Parallel(cfg, ops, alls)
    requires Shadows(cfg, ms[i], alls[i], k, TimeBefore(ops, from, i))
    ensures Shadows(cfg, ms[i + 1], alls[i + 1], k, TimeBefore(ops, from, i + 1))
    ensures ops[i].key == k ==> answers[i] == Unbounded(cfg, alls[i], ops[i]).1
  {
    RunInv(cfg, ms, ops, gones, answers, from, until, i);
    assert TimeBefore(ops, from, i) <= ops[i].at;
    ShadowsStep(cfg, ms[i], ops[i], gones[i], ms[i + 1], answers[i], alls[i], TimeBefore(ops, from, i), k);
  }

  lemma {:induction false} ShadowsThroughout(
      cfg: Config, ms: seq<Entries>, ops: seq<Op>, gones: seq<set<string>>, answers: seq<bool>,
      from: int, until: int, alls: seq<Entries>, k: string, i: nat)
    requires Window(cfg, ms, ops, gones, answers, from, until) && i <= |ops|
    requires ms[0] == map[] && (forall j :: 0 <= j < |ops| ==> ops[j].Attempt?)
    requires AlwaysHarmless(ms, alls, ops, k) && Parallel(cfg, ops, alls)
    ensures Shadows(cfg, ms[i], alls[i], k, TimeBefore(ops, from, i))
  {
    if i > 0 {
      ShadowsThroughout(cfg, ms, ops, gones, answers, from, until, alls, k, i - 1);
      ShadowsAt(cfg, ms, ops, gones, answers, from, until, alls, k, i - 1);
    }
  }

  /** In every run, a key whose bucket would be full again each time it comes
      back gets the answers of a gate that never evicts, whatever happens to the
      other keys. */
  lemma FullEvictionUnobservable(cfg: Config, ms: seq<Entries>, ops: seq<Op>, gones: seq<set<string>>,
                                 answers: seq<bool>, from: int, until: int, alls: seq<Entries>, i: nat)
    requires Window(cfg, ms, ops, gones, answers, from, until) && i < |ops|
    requires ms[0] == map[] && (forall j :: 0 <= j < |ops| ==> ops[j].Attempt?)
    requires AlwaysHarmless(ms, alls, ops, ops[i].key) && Parallel(cfg, ops, alls)
    ensures answers[i] == Unbounded(cfg, alls[i], ops[i]).1
  {
    ShadowsThroughout(cfg, ms, ops, gones, answers, from, until, alls, ops[i].key, i);
    ShadowsAt(cfg, ms, ops, gones, answers, from, until, alls, ops[i].key, i);
  }

  // ---- idle entries -----------------------------------------------------------------------------

  /** Every eviction of `k` in the run finds it idle. */
  ghost predicate OnlyIdle(cfg: Config, ms: seq<Entries>, ops: seq<Op>, gones: seq<set<string>>, k: string) {
    && |ms| == |ops| + 1 && |gones| == |ops|
    && forall j :: 0 <= j < |ops| && k in gones[j] && k in ms[j] ==> Idle(cfg, ms[j], k, ops[j].at)
  }

  /** The shadow of an evicted `k` is idle. */
  ghost predicate IdleShadow(cfg: Config, m: Entries, all: Entries, k: string, now: int) {
    Shadows(cfg, m, all, k, now) && (k in all && k !in m ==> all[k].lastSeen < now - cfg.maxIdle)
  }

  lemma IdleIsFullAgain(cfg: Config, e: Entry, now: int)
    requires cfg.Ok() && cfg.maxIdle >= MINUTE && SoundEntry(cfg, e)
    requires e.bucket.lastRefill <= e.lastSeen < now - cfg.maxIdle
    ensures FullAgain(e.bucket, now)
  {
    QuotientAtLeast(cfg.max, now - e.bucket.lastRefill, cfg.rate);
    assert 1 * cfg.rate <= cfg.max * cfg.rate;
  }

  lemma IdleIsHarmless(cfg: Config, m: Entries, all: Entries, op: Op, k: string, before: int)
    requires cfg.Ok() && cfg.maxIdle >= MINUTE && before <= op.at && IdleShadow(cfg, m, all, k, before)
    ensures Harmless(m, all, op, k)
  {
    if op.key == k && k !in m && k in all {
      IdleIsFullAgain(cfg, all[k], op.at);
    }
  }

  lemma IdleShadowStep(cfg: Config, m: Entries, op: Op, gone: set<string>, m': Entries, answer: bool,
                       all: Entries, before: int, k: string)
    requires cfg.Ok() && cfg.maxIdle >= MINUTE && op.Attempt? && before <= op.at && |m| <= cfg.HardLimit()
    requires IdleShadow(cfg, m, all, k, before) && Step(cfg, m, op, gone, m', answer)
    requires k in gone && k in m ==> Idle(cfg, m, k, op.at)
    ensures IdleShadow(cfg, m', Unbounded(cfg, all, op).0, k, op.at)
  {
    IdleIsHarmless(cfg, m, all, op, k, before);
    ShadowsStep(cfg, m, op, gone, m', answer, all, before, k);
    TouchedMap(cfg, m, op, gone, m', answer);
  }

  lemma {:induction false} IdleThroughout(
      cfg: Config, ms: seq<Entries>, ops: seq<Op>, gones: seq<set<string>>, answers: seq<bool>,
      from: int, until: int, alls: seq<Entries>, k: string, i: nat)
    requires cfg.maxIdle >= MINUTE && Window(cfg, ms, ops, gones, answers, from, until) && i <= |ops|
    requires ms[0] == map[] && (forall j :: 0 <= j < |ops| ==> ops[j].Attempt?)
    requires OnlyIdle(cfg, ms, ops, gones, k) && Parallel(cfg, ops, alls)
    ensures IdleShadow(cfg, ms[i], alls[i], k, TimeBefore(ops, from, i))
  {
    if i > 0 {
      IdleThroughout(cfg, ms, ops, gones, answers, from, until, alls, k, i - 1);
      IdleAt(cfg, ms, ops, gones, answers, from, until, alls, k, i - 1);
    }
  }

  lemma IdleAt(cfg: Config, ms: seq<Entries>, ops: seq<Op>, gones: seq<set<string>>, answers: seq<bool>,
               from: int, until: int, alls: seq<Entries>, k: string, i: nat)
    requires cfg.maxIdle >= MINUTE && Window(cfg, ms, ops, gones, answers, from, until) && i < |ops|
    requires ops[i].Attempt? && OnlyIdle(cfg, ms, ops, gones, k) && Parallel(cfg, ops, alls)
    requires IdleShadow(cfg, ms[i], alls[i], k, TimeBefore(ops, from, i))
    ensures IdleShadow(cfg, ms[i + 1], alls[i + 1], k, TimeBefore(ops, from, i + 1))
    ensures Harmless(ms[i], alls[i], ops[i], k)
  {
    RunInv(cfg, ms, ops, gones, answers, from, until, i);
    assert TimeBefore(ops, from, i) <= ops[i].at;
    IdleIsHarmless(cfg, ms[i], alls[i], ops[i], k, TimeBefore(ops, from, i));
    IdleShadowStep(cfg, ms[i], ops[i], gones[i], ms[i + 1], answers[i], alls[i], TimeBefore(ops, from, i), k);
  }

  /** A key that is evicted only after being idle for at least a minute gets
      exactly the answers of a gate that never evicts, at every call, whatever
      happens to the other keys. */
  lemma IdleEvictionUnobservable(cfg: Config, ms: seq<Entries>, ops: seq<Op>, gones: seq<set<string>>,
                                 answers: seq<bool>, from: int, until: int, alls: seq<Entries>, i: nat)
    requires cfg.maxIdle >= MINUTE && Window(cfg, ms, ops, gones, answers, from, until) && i < |ops|
    requires ms[0] == map[] && (forall j :: 0 <= j < |ops| ==> ops[j].Attempt?)
    requires OnlyIdle(cfg, ms, ops, gones, ops[i].key) && Parallel(cfg, ops, alls)
    ensures answers[i] == Unbounded(cfg, alls[i], ops[i]).1
  {
    var k := ops[i].key;
    forall j | 0 <= j < |ops| ensures Harmless(ms[j], alls[j], ops[j], k) {
      IdleThroughout(cfg, ms, ops, gones, answers, from, until, alls, k, j);
      IdleAt(cfg, ms, ops, gones, answers, from, until, alls, k, j);
    }
    FullEvictionUnobservable(cfg, ms, ops, gones, answers, from, until, alls, i);
  }

  // ---- entries that are not ------------------------------------------------------------------------

  /** The answers that the attempts of `k` at the given times get. */
  ghost function AnswersTo(cfg: Config, m: Entries, k: string, times: seq<int>): seq<bool>
    requires cfg.Ok() && SoundEntries(cfg, m)
    decreases |times|
  {
    if times == [] then []
    else
      var (e, ok) := Touch(Attempt(k, times[0]), if k in m then m[k] else NewEntry(cfg, times[0]));
      [ok] + AnswersTo(cfg, m[k := e], k, times[1..])
  }

  lemma {:induction false} AnswersToIsBucket(cfg: Config, m: Entries, k: string, times: seq<int>)
    requires cfg.Ok() && SoundEntries(cfg, m) && (k in m ==> !m[k].allowance) && times != []
    ensures AnswersTo(cfg, m, k, times)
            == Answers(if k in m then m[k].bucket else NewBucket(cfg.max, cfg.rate, times[0]), times)
    decreases |times|
  {
    var (e, ok) := Touch(Attempt(k, times[0]), if k in m then m[k] else NewEntry(cfg, times[0]));
    if |times| > 1 {
      AnswersToIsBucket(cfg, m[k := e], k, times[1..]);
    } else {
      assert times[1..] == [];
    }
  }

  /** Evicting an unprotected entry can be told by the later attempts of its key,
      the first of them at `now`, iff its bucket is not full again by then. */
  lemma EvictionToldIff(cfg: Config, m: Entries, k: string, now: int)
    requires cfg.Ok() && SoundEntries(cfg, m) && k in m && !m[k].allowance && Timed(m[k], now)
    ensures (exists times :: From(times, now) && AnswersTo(cfg, m, k, times) != AnswersTo(cfg, m - {k}, k, times))
            <==> !FullAgain(m[k].bucket, now)
  {
    var b := m[k].bucket;
    ReplacementToldIff(b, now);
    forall times | From(times, now)
      ensures AnswersTo(cfg, m, k, times) == Answers(b, times)
      ensures AnswersTo(cfg, m - {k}, k, times) == Answers(NewBucket(b.maxTokens, b.refillRate, now), times)
    {
      AnswersToIsBucket(cfg, m, k, times);
      AnswersToIsBucket(cfg, m - {k}, k, times);
    }
  }

  /** With room for one key only, an attempt of another key evicts it. */
  lemma OneSlot(cfg: Config, k: string, e: Entry, other: string, now: int)
    requires cfg == Config(1, MINUTE, 1, MINUTE) && k != other && !e.allowance && SoundEntry(cfg, e)
    ensures var (e', ok) := Touch(Attempt(other, now), NewEntry(cfg, now));
            Step(cfg, map[k := e], Attempt(other, now), {k}, map[other := e'], ok)
  {
    var m: Entries := map[k := e];
    assert Unprotected(m) == {k} && m.Keys == {k} && |m| == 1 && m - {k} == map[];
  }

  /** Evicting an entry that is not idle does show: with room for one key and
      one attempt a minute, another key's attempt buys back a spent one. */
  lemma FreshEvictionIsObservable() returns (m1: Entries, m2: Entries, m3: Entries)
    ensures var cfg := Config(1, MINUTE, 1, MINUTE);
            && Step(cfg, map[], Attempt("a", 0), {}, m1, true)
            && Step(cfg, m1, Attempt("b", 1), {"a"}, m2, true)
            && Step(cfg, m2, Attempt("a", 2), {"b"}, m3, true)
            && cfg.Ok() && SoundEntries(cfg, m1) && !Unbounded(cfg, m1, Attempt("a", 2)).1
  {
    var cfg := Config(1, MINUTE, 1, MINUTE);
    var spent := Bucket(0, 1, 0, MINUTE);
    m1 := map["a" := Entry(spent, 0, false)];
    m2 := map["b" := Entry(spent.(lastRefill := 1), 1, false)];
    m3 := map["a" := Entry(spent.(lastRefill := 2), 2, false)];
    var empty: Entries := map[];
    assert |empty| == 0 && empty - {} == empty;
    OneSlot(cfg, "a", m1["a"], "b", 1);
    OneSlot(cfg, "b", m2["b"], "a", 2);
  }
}
