/** The acquire and release skeleton of handleConn, for any number of
    connections whose steps interleave on shared counters. */
module Admission {
  datatype Resource = Global | Ip | Handshake | PerKey | PerAccount

  datatype Phase =
    | Begin | HasGlobal | HasIp | Shaking | ShakeReleased | Authenticated | HasKey | Serving | Exiting | Closed

  /** One connection: its two held flags and its stack of deferred releases.
      `took` and `gave` record every acquisition and every release. */
  datatype Conn = Conn(phase: Phase, ip: string, key: string, account: string,
                       globalHeld: bool, handshakeHeld: bool, defers: seq<Resource>,
                       took: multiset<Resource>, gave: multiset<Resource>)

  type Slot = (Resource, string)

  datatype State = State(max: map<Resource, int>, conns: map<nat, Conn>, counts: map<Slot, int>)

  datatype Action =
    | Accept(id: nat, ip: string, key: string, account: string)
    | Acquire(id: nat)
    | Release(id: nat)
    | Quit(id: nat)
    | Unwind(id: nat)

  // ---- steps ---------------------------------------------------------------------

  /** The counter slot a connection uses for a resource. */
  function SlotOf(c: Conn, r: Resource): Slot {
    match r
    case Global => (Global, "")
    case Handshake => (Handshake, "")
    case Ip => (Ip, c.ip)
    case PerKey => (PerKey, c.key)
    case PerAccount => (PerAccount, c.account)
  }

  function CountAt(s: State, slot: Slot): int {
    if slot in s.counts then s.counts[slot] else 0
  }

  function Limit(s: State, r: Resource): int {
    if r in s.max then s.max[r] else 0
  }

  /** What a connection asks for next, and where it gets with it. */
  function Wants(phase: Phase): (r: (bool, Resource, Phase)) {
    match phase
    case Begin => (true, Global, HasGlobal)
    case HasGlobal => (true, Ip, HasIp)
    case HasIp => (true, Handshake, Shaking)
    case Authenticated => (true, PerKey, HasKey)
    case HasKey => (true, PerAccount, Serving)
    case _ => (false, Global, Closed)
  }

  predicate Holds(c: Conn, r: Resource) {
    match r
    case Global => c.globalHeld
    case Handshake => c.handshakeHeld
    case _ => r in c.defers
  }

  function Took(c: Conn, r: Resource, phase: Phase): Conn {
    c.(phase := phase, defers := c.defers + [r], took := c.took + multiset{r},
       globalHeld := c.globalHeld || r.Global?, handshakeHeld := c.handshakeHeld || r.Handshake?)
  }

  function Put(s: State, id: nat, c: Conn): State { s.(conns := s.conns[id := c]) }

  function Shift(s: State, slot: Slot, by_: int): State { s.(counts := s.counts[slot := CountAt(s, slot) + by_]) }

  /** Run the last deferred release; the flags keep the early ones from repeating. */
  function Unwound(c: Conn): (Conn, bool, Resource) {
    if c.defers == [] then (c.(phase := Closed), false, Global)
    else
      var r, rest := c.defers[|c.defers| - 1], c.defers[..|c.defers| - 1];
      if !Holds(c, r) then (c.(defers := rest), false, r)
      else (c.(defers := rest, gave := c.gave + multiset{r},
               globalHeld := c.globalHeld && !r.Global?, handshakeHeld := c.handshakeHeld && !r.Handshake?), true, r)
  }

  predicate Enabled(s: State, act: Action) {
    match act
    case Accept(id, _, _, _) => id !in s.conns
    case Acquire(id) => id in s.conns && Wants(s.conns[id].phase).0
    case Release(id) => id in s.conns && (s.conns[id].phase.Shaking? || s.conns[id].phase.ShakeReleased?)
    case Quit(id) => id in s.conns && !s.conns[id].phase.Exiting? && !s.conns[id].phase.Closed?
    case Unwind(id) => id in s.conns && s.conns[id].phase.Exiting?
  }

  function Step(s: State, act: Action): State
    requires Enabled(s, act)
  {
    match act
    case Accept(id, ip, key, account) =>
      Put(s, id, Conn(Begin, ip, key, account, false, false, [], multiset{}, multiset{}))
    case Acquire(id) =>
      var c := s.conns[id];
      var (_, r, next) := Wants(c.phase);
      if CountAt(s, SlotOf(c, r)) < Limit(s, r) then Put(Shift(s, SlotOf(c, r), 1), id, Took(c, r, next))
      else Put(s, id, c.(phase := Exiting))
    case Release(id) =>
      var c := s.conns[id];
      if c.phase.Shaking? then
        Put(Shift(s, SlotOf(c, Handshake), -1), id,
            c.(phase := ShakeReleased, handshakeHeld := false, gave := c.gave + multiset{Handshake}))
      else
        Put(Shift(s, SlotOf(c, Global), -1), id,
            c.(phase := Authenticated, globalHeld := false, gave := c.gave + multiset{Global}))
    case Quit(id) => Put(s, id, s.conns[id].(phase := Exiting))
    case Unwind(id) =>
      var c := s.conns[id];
      var (c', released, r) := Unwound(c);
      Put(if released then Shift(s, SlotOf(c, r), -1) else s, id, c')
  }

  ghost predicate Run(ss: seq<State>, acts: seq<Action>) {
    && |ss| == |acts| + 1 && ss[0].conns == map[] && ss[0].counts == map[]
    && forall i :: 0 <= i < |acts| ==> Enabled(ss[i], acts[i]) && ss[i + 1] == Step(ss[i], acts[i])
  }

  // ---- the invariant ------------------------------------------------------------------

  /** The connections that hold a slot. */
  ghost function Holders(conns: map<nat, Conn>, slot: Slot): set<nat> {
    set id | id in conns && Holds(conns[id], slot.0) && SlotOf(conns[id], slot.0) == slot
  }

  /** What is deferred at each phase before the exit. */
  function Stack(phase: Phase): seq<Resource> {
    match phase
    case Begin => []
    case HasGlobal => [Global]
    case HasIp => [Global, Ip]
    case HasKey => [Global, Ip, Handshake, PerKey]
    case Serving => [Global, Ip, Handshake, PerKey, PerAccount]
    case _ => [Global, Ip, Handshake]
  }

  predicate Distinct(s: seq<Resource>) {
    forall i, j :: 0 <= i < j < |s| ==> s[i] != s[j]
  }

  function Num(b: bool): int { if b then 1 else 0 }

  /** The books of one resource: taken at most once, and held until given back. */
  predicate Booked(c: Conn, r: Resource) {
    && c.took[r] == c.gave[r] + Num(Holds(c, r)) && c.took[r] <= 1
    && (r in c.defers || c.phase.Exiting? || c.phase.Closed? || c.took[r] == 0)
    && (Holds(c, r) ==> r in c.defers)
  }

  /** What a connection holds at each phase before the exit: until it is
      authenticated its place among all, its handshake while that lasts, its
      address throughout, and its key and account once it was given them. */
  predicate HoldsBy(phase: Phase, r: Resource) {
    match r
    case Global => phase.HasGlobal? || phase.HasIp? || phase.Shaking? || phase.ShakeReleased?
    case Ip => !phase.Begin? && !phase.HasGlobal?
    case Handshake => phase.Shaking?
    case PerKey => phase.HasKey? || phase.Serving?
    case PerAccount => phase.Serving?
  }

  ghost predicate ConnOk(c: Conn) {
    && (forall r :: Booked(c, r)) && Distinct(c.defers)
    && (c.phase.Closed? ==> c.defers == [])
    && (!c.phase.Exiting? && !c.phase.Closed? ==> c.defers == Stack(c.phase))
    && (!c.phase.Exiting? && !c.phase.Closed? ==>
          && (c.handshakeHeld <==> HoldsBy(c.phase, Handshake)) && (c.globalHeld <==> HoldsBy(c.phase, Global)))
  }

  ghost predicate Inv(s: State) {
    && (forall id :: id in s.conns ==> ConnOk(s.conns[id]))
    && CountsMatch(s)
  }

  ghost predicate CountsMatch(s: State) {
    forall slot :: CountAt(s, slot) == |Holders(s.conns, slot)|
  }

  /** Connection `id` goes from `c` to `c'`, touching at most resource `r`. */
  ghost predicate Touches(conns: map<nat, Conn>, id: nat, c: Conn, c': Conn, r: Resource) {
    && (if id in conns then conns[id] == c else forall q :: !Holds(c, q))
    && c'.ip == c.ip && c'.key == c.key && c'.account == c.account
    && forall q :: q != r ==> (Holds(c', q) <==> Holds(c, q))
  }

  lemma SizesDiffer(a: set<nat>, b: set<nat>, id: nat)
    requires a - {id} == b - {id}
    ensures |b| - |a| == Num(id in b) - Num(id in a)
  {
    assert |a| == |a - {id}| + Num(id in a) by {
      assert a == if id in a then (a - {id}) + {id} else a - {id};
    }
    assert |b| == |b - {id}| + Num(id in b) by {
      assert b == if id in b then (b - {id}) + {id} else b - {id};
    }
  }

  lemma HoldersFollow(conns: map<nat, Conn>, id: nat, c: Conn, c': Conn, r: Resource, slot: Slot)
    requires Touches(conns, id, c, c', r)
    ensures |Holders(conns[id := c'], slot)| - |Holders(conns, slot)|
            == if slot == SlotOf(c, r) then Num(Holds(c', r)) - Num(Holds(c, r)) else 0
  {
    var a, b := Holders(conns, slot), Holders(conns[id := c'], slot);
    assert a - {id} == b - {id};
    assert SlotOf(c', slot.0) == SlotOf(c, slot.0);
    SizesDiffer(a, b, id);
  }

  /** Exactly one connection changes its hold on exactly one resource. */
  lemma CountsFollow(s: State, s': State, id: nat, c: Conn, c': Conn, r: Resource)
    requires CountsMatch(s) && Touches(s.conns, id, c, c', r) && s'.conns == s.conns[id := c']
    requires var moved := Num(Holds(c', r)) - Num(Holds(c, r));
             s' == Put(if moved == 0 then s else Shift(s, SlotOf(c, r), moved), id, c')
    ensures CountsMatch(s')
  {
    forall slot ensures CountAt(s', slot) == |Holders(s'.conns, slot)| {
      HoldersFollow(s.conns, id, c, c', r, slot);
    }
  }

  lemma TookOk(c: Conn)
    requires ConnOk(c) && Wants(c.phase).0
    ensures var (_, r, next) := Wants(c.phase);
            !Holds(c, r) && Holds(Took(c, r, next), r) && ConnOk(Took(c, r, next))
            && forall q :: q != r ==> (Holds(Took(c, r, next), q) <==> Holds(c, q))
  {
    var (_, r, next) := Wants(c.phase);
    var c' := Took(c, r, next);
    assert Booked(c, r) && r !in c.defers;
    forall q ensures Booked(c', q) && (q != r ==> (Holds(c', q) <==> Holds(c, q))) {
      assert Booked(c, q);
    }
  }

  lemma EarlyReleaseOk(c: Conn, c': Conn, r: Resource)
    requires ConnOk(c) && c.defers == c'.defers && (r.Global? || r.Handshake?) && Holds(c, r)
    requires c' == c.(phase := c'.phase, gave := c.gave + multiset{r},
                      globalHeld := c.globalHeld && !r.Global?, handshakeHeld := c.handshakeHeld && !r.Handshake?)
    requires (c.phase.Shaking? && c'.phase.ShakeReleased? && r.Handshake?)
          || (c.phase.ShakeReleased? && c'.phase.Authenticated? && r.Global?)
    ensures ConnOk(c') && !Holds(c', r) && forall q :: q != r ==> (Holds(c', q) <==> Holds(c, q))
  {
    forall q ensures Booked(c', q) && (q != r ==> (Holds(c', q) <==> Holds(c, q))) {
      assert Booked(c, q);
    }
  }

  lemma UnwoundOk(c: Conn)
    requires ConnOk(c) && c.phase.Exiting?
    ensures var (c', released, r) := Unwound(c);
            ConnOk(c') && (released ==> Holds(c, r) && !Holds(c', r)) && (!released ==> Holds(c', r) == Holds(c, r))
            && forall q :: q != r ==> (Holds(c', q) <==> Holds(c, q))
  {
    var (c', released, r) := Unwound(c);
    if c.defers != [] {
      assert c.defers == c'.defers + [r] && r !in c'.defers;
    }
    forall q ensures Booked(c', q) && (q != r ==> (Holds(c', q) <==> Holds(c, q))) {
      assert Booked(c, q);
    }
  }

  lemma ExitOk(c: Conn)
    requires ConnOk(c)
    ensures ConnOk(c.(phase := Exiting)) && forall q :: Holds(c.(phase := Exiting), q) == Holds(c, q)
  {
    forall q ensures Booked(c.(phase := Exiting), q) { assert Booked(c, q); }
  }

  lemma AcquireInv(s: State, id: nat)
    requires Inv(s) && Enabled(s, Acquire(id))
    ensures Inv(Step(s, Acquire(id)))
  {
    var c, s' := s.conns[id], Step(s, Acquire(id));
    TookOk(c);
    ExitOk(c);
    CountsFollow(s, s', id, c, s'.conns[id], Wants(c.phase).1);
  }

  lemma ReleaseInv(s: State, id: nat)
    requires Inv(s) && Enabled(s, Release(id))
    ensures Inv(Step(s, Release(id)))
  {
    var c, s' := s.conns[id], Step(s, Release(id));
    assert ConnOk(c);
    var r := if c.phase.Shaking? then Handshake else Global;
    EarlyReleaseOk(c, s'.conns[id], r);
    CountsFollow(s, s', id, c, s'.conns[id], r);
  }

  lemma UnwindInv(s: State, id: nat)
    requires Inv(s) && Enabled(s, Unwind(id))
    ensures Inv(Step(s, Unwind(id)))
  {
    var c, s' := s.conns[id], Step(s, Unwind(id));
    UnwoundOk(c);
    CountsFollow(s, s', id, c, s'.conns[id], Unwound(c).2);
  }

  lemma StepInv(s: State, act: Action)
    requires Inv(s) && Enabled(s, act)
    ensures Inv(Step(s, act))
  {
    match act
    case Acquire(id) => AcquireInv(s, id);
    case Release(id) => ReleaseInv(s, id);
    case Unwind(id) => UnwindInv(s, id);
    case Quit(id) =>
      ExitOk(s.conns[id]);
      CountsFollow(s, Step(s, act), id, s.conns[id], Step(s, act).conns[id], Global);
    case Accept(id, _, _, _) =>
      var c := Step(s, act).conns[id];
      CountsFollow(s, Step(s, act), id, c, c, Global);
  }

  lemma {:induction false} RunInv(ss: seq<State>, acts: seq<Action>, i: nat)
    requires Run(ss, acts) && i < |ss|
    ensures Inv(ss[i])
  {
    if i == 0 {
      assert forall slot :: Holders(ss[0].conns, slot) == {};
    } else {
      RunInv(ss, acts, i - 1);
      StepInv(ss[i - 1], acts[i - 1]);
    }
  }

  // ---- results ----------------------------------------------------------------------------

  /** In every interleaving each counter equals the number of connections that
      hold it. */
  lemma CountersMatchHolders(ss: seq<State>, acts: seq<Action>, i: nat, slot: Slot)
    requires Run(ss, acts) && i < |ss|
    ensures CountAt(ss[i], slot) == |Holders(ss[i].conns, slot)|
  {
    RunInv(ss, acts, i);
  }

  lemma StepKeepsLimit(s: State, act: Action, slot: Slot)
    requires Enabled(s, act) && (CountAt(s, slot) > 0 ==> CountAt(s, slot) <= Limit(s, slot.0))
    ensures var s' := Step(s, act);
            s'.max == s.max && (CountAt(s', slot) > 0 ==> CountAt(s', slot) <= Limit(s', slot.0))
  {
  }

  lemma {:induction false} CountWithinLimit(ss: seq<State>, acts: seq<Action>, i: nat, slot: Slot)
    requires Run(ss, acts) && i < |ss|
    ensures CountAt(ss[i], slot) > 0 ==> CountAt(ss[i], slot) <= Limit(ss[i], slot.0)
  {
    if i > 0 {
      CountWithinLimit(ss, acts, i - 1, slot);
      StepKeepsLimit(ss[i - 1], acts[i - 1], slot);
    }
  }

  /** In every interleaving no slot has more holders than its limit. */
  lemma HoldersWithinLimit(ss: seq<State>, acts: seq<Action>, i: nat, slot: Slot)
    requires Run(ss, acts) && i < |ss| && Holders(ss[i].conns, slot) != {}
    ensures |Holders(ss[i].conns, slot)| <= Limit(ss[i], slot.0)
  {
    RunInv(ss, acts, i);
    CountWithinLimit(ss, acts, i, slot);
  }

  /** Whichever way a connection ends, it has given back exactly what it took,
      each ticket once. */
  lemma EveryExitGivesBack(ss: seq<State>, acts: seq<Action>, i: nat, id: nat)
    requires Run(ss, acts) && i < |ss| && id in ss[i].conns && ss[i].conns[id].phase.Closed?
    ensures ss[i].conns[id].gave == ss[i].conns[id].took
    ensures forall r :: ss[i].conns[id].gave[r] <= 1
  {
    RunInv(ss, acts, i);
    var c := ss[i].conns[id];
    assert ConnOk(c);
    forall r ensures c.gave[r] == c.took[r] && c.took[r] <= 1 {
      assert Booked(c, r);
    }
  }

  /** Once every connection has ended, every counter is back at zero. */
  lemma IdleServerHoldsNothing(ss: seq<State>, acts: seq<Action>, i: nat, slot: Slot)
    requires Run(ss, acts) && i < |ss| && forall id :: id in ss[i].conns ==> ss[i].conns[id].phase.Closed?
    ensures CountAt(ss[i], slot) == 0
  {
    RunInv(ss, acts, i);
    forall id | id in ss[i].conns ensures !Holds(ss[i].conns[id], slot.0) {
      assert ConnOk(ss[i].conns[id]) && Booked(ss[i].conns[id], slot.0);
    }
    assert Holders(ss[i].conns, slot) == {};
  }

  /** In every run a connection that is not on its way out holds exactly what
      its phase says. */
  lemma PhaseTellsHoldings(ss: seq<State>, acts: seq<Action>, i: nat, id: nat, r: Resource)
    requires Run(ss, acts) && i < |ss| && id in ss[i].conns
    requires var phase := ss[i].conns[id].phase; !phase.Exiting? && !phase.Closed?
    ensures Holds(ss[i].conns[id], r) <==> HoldsBy(ss[i].conns[id].phase, r)
  {
    RunInv(ss, acts, i);
    assert ConnOk(ss[i].conns[id]);
  }

  // ---- the limits on people -------------------------------------------------------------------

  lemma SubsetSize(a: set<nat>, b: set<nat>)
    requires a <= b
    ensures |a| <= |b|
  {
    assert b == a + (b - a);
  }

  /** At any time at most so many connections are served for one account, one
      key and one address. */
  lemma ServedWithinLimits(ss: seq<State>, acts: seq<Action>, i: nat, serving: set<nat>,
                           account: string, key: string, ip: string)
    requires Run(ss, acts) && i < |ss| && serving != {}
    requires forall id :: id in serving ==> id in ss[i].conns && ss[i].conns[id].phase.Serving?
    ensures (forall id :: id in serving ==> ss[i].conns[id].account == account) ==>
              |serving| <= Limit(ss[i], PerAccount)
    ensures (forall id :: id in serving ==> ss[i].conns[id].key == key) ==> |serving| <= Limit(ss[i], PerKey)
    ensures (forall id :: id in serving ==> ss[i].conns[id].ip == ip) ==> |serving| <= Limit(ss[i], Ip)
  {
    forall id | id in serving
      ensures Holds(ss[i].conns[id], PerAccount) && Holds(ss[i].conns[id], PerKey) && Holds(ss[i].conns[id], Ip)
    {
      PhaseTellsHoldings(ss, acts, i, id, PerAccount);
      PhaseTellsHoldings(ss, acts, i, id, PerKey);
      PhaseTellsHoldings(ss, acts, i, id, Ip);
    }
    Fits(ss, acts, i, serving, (PerAccount, account));
    Fits(ss, acts, i, serving, (PerKey, key));
    Fits(ss, acts, i, serving, (Ip, ip));
  }

  lemma Fits(ss: seq<State>, acts: seq<Action>, i: nat, ids: set<nat>, slot: Slot)
    requires Run(ss, acts) && i < |ss| && ids != {}
    requires forall id :: id in ids ==> id in ss[i].conns
    ensures ids <= Holders(ss[i].conns, slot) ==> |ids| <= Limit(ss[i], slot.0)
  {
    if ids <= Holders(ss[i].conns, slot) {
      SubsetSize(ids, Holders(ss[i].conns, slot));
      HoldersWithinLimit(ss, acts, i, slot);
    }
  }

  lemma UnauthenticatedWithinLimits(ss: seq<State>, acts: seq<Action>, i: nat, ids: set<nat>)
    requires Run(ss, acts) && i < |ss| && ids != {}
    requires forall id :: id in ids ==> id in ss[i].conns
    ensures (forall id :: id in ids ==> HoldsBy(ss[i].conns[id].phase, Global)) ==> |ids| <= Limit(ss[i], Global)
    ensures (forall id :: id in ids ==> ss[i].conns[id].phase.Shaking?) ==> |ids| <= Limit(ss[i], Handshake)
  {
    forall id, r | id in ids && !ss[i].conns[id].phase.Exiting? && !ss[i].conns[id].phase.Closed?
      ensures Holds(ss[i].conns[id], r) <==> HoldsBy(ss[i].conns[id].phase, r)
    {
      PhaseTellsHoldings(ss, acts, i, id, r);
    }
    Fits(ss, acts, i, ids, (Global, ""));
    Fits(ss, acts, i, ids, (Handshake, ""));
  }

  // ---- who is let in ----------------------------------------------------------------------------

  /** A connection gets what it asks for iff fewer hold that slot than the limit
      allows; otherwise it goes away. */
  lemma AdmittedIff(ss: seq<State>, acts: seq<Action>, i: nat, id: nat)
    requires Run(ss, acts) && i < |acts| && acts[i] == Acquire(id)
    ensures var c, c' := ss[i].conns[id], ss[i + 1].conns[id];
            var (_, r, next) := Wants(c.phase);
            if |Holders(ss[i].conns, SlotOf(c, r))| < Limit(ss[i], r) then c'.phase == next && Holds(c', r)
            else c'.phase == Exiting
  {
    RunInv(ss, acts, i);
    assert Enabled(ss[i], acts[i]) && ss[i + 1] == Step(ss[i], acts[i]);
  }

}
