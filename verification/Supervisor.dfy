/** The supervision loop of one tunnel: a select over one-shot channels, a
    cancellation ladder, and the collection of every result. */
module Supervisor {
  import opened Texts

  type Err = Option<string>

  /** What can be received in the loop.  Each channel delivers once. */
  datatype Event = ChildExit | FirstByte | Startup | Policy | Context | Up | Down | Linger

  /** The results that the environment will deliver, and whether a policy
      timeout is configured. */
  datatype Env = Env(policy: bool, wait: Err, up: Err, down: Err)

  datatype Trigger = NoTrigger | StartupTimeout | PolicyTimeout | ContextDone | ChannelClosed | StreamError

  datatype Code = Clean | CoderExited | StartTimeout | StreamFailed | Cancelled

  /** The channel variables that are not nil, and the loop's other variables. */
  datatype Loop = Loop(open: set<Event>, firstByte: bool, trigger: Trigger, upErr: Err, downErr: Err)

  datatype Result = Result(code: Code, waitErr: Err, firstByte: bool)

  /** What the supervisor does, in order. */
  datatype Act = Got(event: Event) | GraceExpired | StderrDrained | CloseStdin | CloseChannel | Terminate | Kill

  // ---- one receive ---------------------------------------------------------------------

  function Start(env: Env): Loop {
    Loop({ChildExit, FirstByte, Startup, Context, Up, Down} + if env.policy then {Policy} else {},
         false, NoTrigger, None, None)
  }

  predicate Looping(s: Loop) { ChildExit in s.open && s.trigger.NoTrigger? }

  /** One iteration that receives from an open channel. */
  function Receive(env: Env, s: Loop, e: Event): Loop {
    match e
    case ChildExit => s.(open := s.open - {ChildExit})
    case FirstByte => s.(open := s.open - {FirstByte, Startup}, firstByte := true)
    case Startup => s.(open := s.open - {Startup}, trigger := StartupTimeout)
    case Policy => s.(open := s.open - {Policy}, trigger := PolicyTimeout)
    case Context => s.(trigger := ContextDone)
    case Up =>
      var t := s.(open := s.open - {Up}, upErr := env.up);
      if env.up.Some? then t.(trigger := StreamError) else t.(open := t.open + {Linger})
    case Down =>
      var t := s.(open := s.open - {Down}, downErr := env.down);
      if env.down.Some? then t.(trigger := StreamError) else t
    case Linger => s.(open := s.open - {Linger}, trigger := ChannelClosed)
  }

  /** The loop after `trace`, if it can receive exactly that. */
  ghost predicate Reaches(env: Env, trace: seq<Event>, s: Loop) {
    if trace == [] then s == Start(env)
    else
      exists t :: Reaches(env, trace[..|trace| - 1], t) && Looping(t) && trace[|trace| - 1] in t.open
                  && s == Receive(env, t, trace[|trace| - 1])
  }

  // ---- which traces are possible ---------------------------------------------------------

  /** Receiving `e` ends the loop. */
  predicate Ends(env: Env, e: Event) {
    match e
    case FirstByte => false
    case Up => env.up.Some?
    case Down => env.down.Some?
    case _ => true
  }

  /** The traces of the loop, said without its variables: every channel
      delivers at most once, the startup timer only before a first byte, the
      policy timer only if configured, the linger timer only after the input
      ended, and nothing follows an event that ends the loop. */
  ghost predicate Possible(env: Env, trace: seq<Event>) {
    && Once(trace)
    && (forall i :: 0 <= i < |trace| && trace[i].Startup? ==> FirstByte !in trace[..i])
    && (forall i :: 0 <= i < |trace| && trace[i].Linger? ==> Up in trace[..i])
    && (Policy in trace ==> env.policy)
    && (forall i :: 0 <= i < |trace| - 1 ==> !Ends(env, trace[i]))
  }

  ghost predicate Once(trace: seq<Event>) {
    forall i, j :: 0 <= i < j < |trace| ==> trace[i] != trace[j]
  }

  /** The variables as the trace alone determines them. */
  ghost function After(env: Env, trace: seq<Event>): Loop {
    Loop(
      (set e | e in Start(env).open + {Linger} && IsOpen(env, trace, e)),
      FirstByte in trace,
      if trace == [] then NoTrigger else TriggerOf(env, trace[|trace| - 1]),
      if Up in trace then env.up else None,
      if Down in trace then env.down else None)
  }

  ghost predicate IsOpen(env: Env, trace: seq<Event>, e: Event) {
    match e
    case Context => true
    case Startup => Startup !in trace && FirstByte !in trace
    case Linger => Linger !in trace && Up in trace && env.up.None?
    case _ => e !in trace
  }

  ghost function TriggerOf(env: Env, e: Event): Trigger {
    match e
    case Startup => StartupTimeout
    case Policy => PolicyTimeout
    case Context => ContextDone
    case Linger => ChannelClosed
    case Up => if env.up.Some? then StreamError else NoTrigger
    case Down => if env.down.Some? then StreamError else NoTrigger
    case _ => NoTrigger
  }

  lemma {:induction false} TracesAreExactly(env: Env, trace: seq<Event>, s: Loop)
    ensures Reaches(env, trace, s) <==> Possible(env, trace) && s == After(env, trace)
    decreases |trace|
  {
    if trace == [] {
      assert After(env, []) == Start(env);
    } else {
      var n := |trace| - 1;
      var before, e := trace[..n], trace[n];
      var t := After(env, before);
      TracesAreExactly(env, before, t);
      if u :| Reaches(env, before, u) && Looping(u) && e in u.open && s == Receive(env, u, e) {
        TracesAreExactly(env, before, u);
      }
      assert trace == before + [e];
      ExtendsIff(env, before, e);
      if Possible(env, before) && Looping(t) && e in t.open {
        ReceiveIsAfter(env, before, e);
      }
    }
  }

  lemma LoopingIff(env: Env, trace: seq<Event>)
    requires Possible(env, trace)
    ensures Looping(After(env, trace)) <==> trace == [] || !Ends(env, trace[|trace| - 1])
  {
    if ChildExit in trace {
      var i :| 0 <= i < |trace| && trace[i] == ChildExit;
      assert Ends(env, trace[i]);
    }
  }

  lemma ExtendsIff(env: Env, trace: seq<Event>, e: Event)
    ensures Possible(env, trace + [e])
            <==> Possible(env, trace) && Looping(After(env, trace)) && e in After(env, trace).open
  {
    if Possible(env, trace + [e]) {
      PossiblePrefix(env, trace, e);
      LoopingIff(env, trace);
      PossibleIsOpen(env, trace, e);
    }
    if Possible(env, trace) && Looping(After(env, trace)) && e in After(env, trace).open {
      LoopingIff(env, trace);
      OpenIsNew(env, trace, e);
      OpenIsPossible(env, trace, e);
    }
  }

  lemma PossibleIsOpen(env: Env, trace: seq<Event>, e: Event)
    requires Possible(env, trace + [e])
    ensures e in After(env, trace).open
  {
    var all := trace + [e];
    assert all[|trace|] == e && all[..|trace|] == trace;
    assert forall i :: 0 <= i < |trace| ==> all[i] == trace[i];
    assert e !in trace;
    if e.Linger? {
      var i :| 0 <= i < |trace| && trace[i] == Up;
      assert !Ends(env, all[i]);
    }
  }

  lemma OpenIsNew(env: Env, trace: seq<Event>, e: Event)
    requires Possible(env, trace) && e in After(env, trace).open
    requires trace == [] || !Ends(env, trace[|trace| - 1])
    ensures e !in trace
  {
    if e.Context? && e in trace {
      var i :| 0 <= i < |trace| && trace[i] == e;
      assert Ends(env, trace[i]);
    }
  }

  lemma OpenIsPossible(env: Env, trace: seq<Event>, e: Event)
    requires Possible(env, trace) && e in After(env, trace).open && e !in trace
    requires trace == [] || !Ends(env, trace[|trace| - 1])
    ensures Possible(env, trace + [e])
  {
    var all := trace + [e];
    OnceMore(trace, e);
    forall i | 0 <= i < |all|
      ensures all[i].Startup? ==> FirstByte !in all[..i]
      ensures all[i].Linger? ==> Up in all[..i]
    {
      assert all[..i] == trace[..i];
      assert i < |trace| ==> all[i] == trace[i];
    }
  }

  lemma OnceMore(trace: seq<Event>, e: Event)
    requires Once(trace) && e !in trace
    ensures Once(trace + [e])
  {
  }

  lemma PossiblePrefix(env: Env, trace: seq<Event>, e: Event)
    requires Possible(env, trace + [e])
    ensures Possible(env, trace) && (trace == [] || !Ends(env, trace[|trace| - 1]))
  {
    var all := trace + [e];
    assert forall i :: 0 <= i < |trace| ==> all[i] == trace[i] && all[..i] == trace[..i];
    if trace != [] {
      assert !Ends(env, all[|trace| - 1]);
    }
  }

  lemma ReceiveIsAfter(env: Env, trace: seq<Event>, e: Event)
    requires Possible(env, trace) && Looping(After(env, trace)) && e in After(env, trace).open
    ensures Receive(env, After(env, trace), e) == After(env, trace + [e])
  {
    var all := trace + [e];
    assert all[|trace|] == e;
    assert forall x :: x in all <==> x in trace || x == e;
    forall x ensures x in Receive(env, After(env, trace), e).open <==> x in After(env, all).open {
      ReceiveOpens(env, trace, e, x);
    }
  }

  lemma OpenIff(env: Env, trace: seq<Event>, e: Event)
    ensures e in After(env, trace).open <==> (e.Policy? ==> env.policy) && IsOpen(env, trace, e)
  {
  }

  lemma InMore(trace: seq<Event>, e: Event, x: Event)
    ensures x in trace + [e] <==> x in trace || x == e
  {
  }

  lemma ReceiveOpens(env: Env, trace: seq<Event>, e: Event, x: Event)
    requires e in After(env, trace).open && (Linger in trace ==> Up in trace)
    ensures x in Receive(env, After(env, trace), e).open <==> x in After(env, trace + [e]).open
  {
    OpenIff(env, trace, e);
    OpenIff(env, trace, x);
    OpenIff(env, trace + [e], x);
    InMore(trace, e, x);
    InMore(trace, e, FirstByte);
    InMore(trace, e, Up);
  }

  // ---- the whole supervision ----------------------------------------------------------------

  /** A trace that has left the loop. */
  ghost predicate Complete(env: Env, trace: seq<Event>) {
    Possible(env, trace) && trace != [] && Ends(env, trace[|trace| - 1])
  }

  ghost function Receipts(trace: seq<Event>): (r: seq<Act>)
    ensures |r| == |trace|
  {
    seq(|trace|, i requires 0 <= i < |trace| => Got(trace[i]))
  }

  ghost function Ladder(expired: bool): seq<Act> {
    [CloseStdin, Terminate, CloseChannel] + (if expired then [GraceExpired, Kill] else []) + [Got(ChildExit)]
  }

  ghost function Collection(trace: seq<Event>): seq<Act> {
    [CloseChannel, CloseStdin]
    + (if Up in trace then [] else [Got(Up)])
    + (if Down in trace then [] else [Got(Down)])
    + [StderrDrained]
  }

  ghost function Acts(trace: seq<Event>, expired: bool): seq<Act> {
    Receipts(trace) + (if ChildExit in trace then [] else Ladder(expired)) + Collection(trace)
  }

  /** cancelChild. */
  method CancelChild(env: Env) returns (waitErr: Err, expired: bool, acts: seq<Act>)
    ensures waitErr == env.wait && acts == Ladder(expired)
    ensures Ordered(acts) && ExactlyOnce(acts, Got(ChildExit)) && acts[|acts| - 1] == Got(ChildExit)
    ensures Terminate in acts && (Kill in acts <==> expired) && ClosesFirst(acts)
  {
    acts := [CloseStdin, Terminate, CloseChannel];
    expired := *;
    if expired {
      acts := acts + [GraceExpired, Kill];
    }
    waitErr := env.wait;
    acts := acts + [Got(ChildExit)];
    LadderLaws(expired);
  }

  lemma LadderLaws(expired: bool)
    ensures var acts := Ladder(expired);
            && Ordered(acts) && ExactlyOnce(acts, Got(ChildExit)) && acts[|acts| - 1] == Got(ChildExit)
            && Terminate in acts && (Kill in acts <==> expired) && ClosesFirst(acts)
  {
    var acts := Ladder(expired);
    LadderCount(expired);
    LadderOrder(expired);
    assert acts[0] == CloseStdin && acts[1] == Terminate && acts[2] == CloseChannel;
    assert expired ==> acts[4] == Kill;
  }

  /** The select loop of Supervise, for every order in which the channels may
      deliver. */
  method SelectLoop(env: Env) returns (s: Loop, trace: seq<Event>, acts: seq<Act>)
    ensures Complete(env, trace) && s == After(env, trace) && acts == Receipts(trace)
  {
    s := Start(env);
    trace, acts := [], [];
    TracesAreExactly(env, [], s);
    while Looping(s)
      invariant Possible(env, trace) && s == After(env, trace)
      invariant Looping(s) <==> trace == [] || !Ends(env, trace[|trace| - 1])
      invariant acts == Receipts(trace)
      decreases s.trigger.NoTrigger?, |s.open - {Linger}|
    {
      var e :| e in s.open;
      Iterates(env, trace, e);
      ReceiptsMore(trace, e);
      s, trace, acts := Receive(env, s, e), trace + [e], acts + [Got(e)];
    }
  }

  lemma ReceiptsMore(trace: seq<Event>, e: Event)
    ensures Receipts(trace + [e]) == Receipts(trace) + [Got(e)]
  {
  }

  /** One iteration: the trace stays possible and the measure goes down. */
  lemma Iterates(env: Env, trace: seq<Event>, e: Event)
    requires Possible(env, trace) && Looping(After(env, trace)) && e in After(env, trace).open
    ensures var s, s', trace' := After(env, trace), Receive(env, After(env, trace), e), trace + [e];
            && Possible(env, trace') && s' == After(env, trace')
            && (Looping(s') <==> !Ends(env, e))
            && (s'.trigger.NoTrigger? ==> |s'.open - {Linger}| < |s.open - {Linger}|)
  {
    ExtendsIff(env, trace, e);
    ReceiveIsAfter(env, trace, e);
    ReceiveShrinks(env, After(env, trace), e);
    LoopingIff(env, trace + [e]);
  }

  /** The results not received in the loop are received once it has ended. */
  method CollectResults(env: Env, s: Loop, ghost trace: seq<Event>) returns (upErr: Err, downErr: Err, acts: seq<Act>)
    requires s == After(env, trace)
    ensures upErr == env.up && downErr == env.down && acts == Collection(trace)
  {
    upErr, downErr := s.upErr, s.downErr;
    acts := [CloseChannel, CloseStdin];
    if Up in s.open {
      upErr := env.up;
      acts := acts + [Got(Up)];
    }
    if Down in s.open {
      downErr := env.down;
      acts := acts + [Got(Down)];
    }
    acts := acts + [StderrDrained];
  }

  /** The result code in terms of the trace alone. */
  ghost predicate CodeSays(env: Env, trace: seq<Event>, code: Code)
    requires trace != []
  {
    var last := trace[|trace| - 1];
    && (code == Clean <==> last == ChildExit && FirstByte in trace && env.up.None? && env.down.None?)
    && (code == CoderExited <==> last == ChildExit && FirstByte !in trace)
    && (code == StartTimeout <==> last == Startup)
    && (code == Cancelled <==> last in {Policy, Context, Linger})
    && (code == StreamFailed
        <==> last in {Up, Down}
             || (last == ChildExit && FirstByte in trace && (env.up.Some? || env.down.Some?)))
  }

  method Supervise(env: Env) returns (res: Result, trace: seq<Event>, expired: bool, acts: seq<Act>)
    ensures Complete(env, trace) && acts == Acts(trace, expired)
    ensures res.waitErr == env.wait && (res.firstByte <==> FirstByte in trace)
    ensures CodeSays(env, trace, res.code)
  {
    var s;
    s, trace, acts := SelectLoop(env);
    LastExit(env, trace);
    expired := false;
    var waitErr := env.wait;
    if s.trigger != NoTrigger {
      var ladder;
      waitErr, expired, ladder := CancelChild(env);
      acts := acts + ladder;
    } else {
      assert acts + [] == acts;
    }
    var upErr, downErr, rest := CollectResults(env, s, trace);
    acts := acts + rest;
    var code := match s.trigger
      case NoTrigger =>
        if !s.firstByte then CoderExited else if upErr.Some? || downErr.Some? then StreamFailed else Clean
      case StartupTimeout => StartTimeout
      case StreamError => StreamFailed
      case _ => Cancelled;
    res := Result(code, waitErr, s.firstByte);
  }

  /** The measure of the loop. */
  lemma ReceiveShrinks(env: Env, s: Loop, e: Event)
    requires s.trigger.NoTrigger? && e in s.open
    ensures var t := Receive(env, s, e);
            t.trigger.NoTrigger? ==> |t.open - {Linger}| < |s.open - {Linger}|
  {
    var t := Receive(env, s, e);
    if t.trigger.NoTrigger? {
      assert e in s.open - {Linger} && e !in t.open;
      assert t.open - {Linger} <= (s.open - {Linger}) - {e};
      SmallerSet(t.open - {Linger}, (s.open - {Linger}) - {e});
    }
  }

  lemma {:induction false} SmallerSet(a: set<Event>, b: set<Event>)
    requires a <= b
    ensures |a| <= |b|
  {
    if a != {} {
      var x :| x in a;
      SmallerSet(a - {x}, b - {x});
    }
  }

  lemma LastExit(env: Env, trace: seq<Event>)
    requires Complete(env, trace)
    ensures ChildExit in trace <==> trace[|trace| - 1] == ChildExit
    ensures TriggerOf(env, trace[|trace| - 1]).NoTrigger? <==> ChildExit in trace
  {
    if ChildExit in trace {
      var i :| 0 <= i < |trace| && trace[i] == ChildExit;
      assert Ends(env, trace[i]);
    }
  }

  // ---- what every supervision keeps --------------------------------------------------------

  ghost predicate ExactlyOnce(acts: seq<Act>, a: Act) {
    multiset(acts)[a] == 1
  }

  lemma {:induction false} ReceiptsCount(trace: seq<Event>, a: Act)
    requires Once(trace)
    ensures multiset(Receipts(trace))[a] == if a.Got? && a.event in trace then 1 else 0
    decreases |trace|
  {
    if trace != [] {
      var n := |trace| - 1;
      ReceiptsCount(trace[..n], a);
      assert trace == trace[..n] + [trace[n]];
      assert Receipts(trace) == Receipts(trace[..n]) + [Got(trace[n])];
    }
  }

  lemma LadderCount(expired: bool)
    ensures var m := multiset(Ladder(expired));
            m[Got(ChildExit)] == 1 && m[StderrDrained] == m[Got(Up)] == m[Got(Down)] == 0
  {
    var l := Ladder(expired);
    if expired {
      assert l == [CloseStdin, Terminate, CloseChannel, GraceExpired, Kill, Got(ChildExit)];
    } else {
      assert l == [CloseStdin, Terminate, CloseChannel, Got(ChildExit)];
    }
  }

  lemma CollectionCount(trace: seq<Event>)
    ensures var m := multiset(Collection(trace));
            && m[Got(ChildExit)] == 0 && m[StderrDrained] == 1
            && m[Got(Up)] == (if Up in trace then 0 else 1) && m[Got(Down)] == (if Down in trace then 0 else 1)
  {
  }

  /** The child's exit and the result of each copy loop are received exactly
      once, and so is the end of stderr. */
  lemma EveryResultOnce(env: Env, trace: seq<Event>, expired: bool)
    requires Complete(env, trace)
    ensures var acts := Acts(trace, expired);
            && ExactlyOnce(acts, Got(ChildExit)) && ExactlyOnce(acts, StderrDrained)
            && ExactlyOnce(acts, Got(Up)) && ExactlyOnce(acts, Got(Down))
  {
    ReceiptsCount(trace, Got(ChildExit));
    ReceiptsCount(trace, Got(Up));
    ReceiptsCount(trace, Got(Down));
    ReceiptsCount(trace, StderrDrained);
    LadderCount(expired);
    CollectionCount(trace);
    var ladder := if ChildExit in trace then [] else Ladder(expired);
    assert multiset(Acts(trace, expired)) == multiset(Receipts(trace)) + multiset(ladder) + multiset(Collection(trace));
  }

  /** No signal in what is received or collected, and no exit after the ladder. */
  lemma QuietParts(trace: seq<Event>)
    ensures forall i :: 0 <= i < |Receipts(trace)| ==> Receipts(trace)[i].Got?
    ensures forall i :: 0 <= i < |Collection(trace)| ==>
              !Signal(Collection(trace)[i]) && Collection(trace)[i] != Got(ChildExit)
  {
  }

  predicate Signal(a: Act) { a == Terminate || a == Kill }

  /** Signals come before the child is reaped, and a kill comes after a request
      to terminate and the end of the grace. */
  ghost predicate Ordered(acts: seq<Act>) {
    && (forall i, j :: 0 <= i < |acts| && 0 <= j < |acts| && Signal(acts[i]) && acts[j] == Got(ChildExit) ==> i < j)
    && (forall i :: 0 <= i < |acts| && acts[i] == Kill ==> GraceExpired in acts[..i] && Terminate in acts[..i])
  }

  lemma LadderOrder(expired: bool)
    ensures Ordered(Ladder(expired)) && Ladder(expired)[1] == Terminate
  {
    var l := Ladder(expired);
    if expired {
      assert l == [CloseStdin, Terminate, CloseChannel, GraceExpired, Kill, Got(ChildExit)];
      assert l[..4][1] == Terminate && l[..4][3] == GraceExpired;
    } else {
      assert l == [CloseStdin, Terminate, CloseChannel, Got(ChildExit)];
    }
  }

  /** Acts that neither signal nor reap do not disturb the order. */
  lemma OrderedInContext(before: seq<Act>, mid: seq<Act>, later: seq<Act>)
    requires Ordered(mid)
    requires forall i :: 0 <= i < |before| ==> !Signal(before[i]) && before[i] != Got(ChildExit)
    requires forall i :: 0 <= i < |later| ==> !Signal(later[i]) && later[i] != Got(ChildExit)
    ensures Ordered(before + mid + later)
  {
    var acts, n := before + mid + later, |before|;
    forall i | 0 <= i < |acts| ensures n <= i < n + |mid| ==> acts[i] == mid[i - n] {
    }
    forall i | 0 <= i < |acts| && acts[i] == Kill ensures GraceExpired in acts[..i] && Terminate in acts[..i] {
      assert mid[i - n] == Kill;
      assert acts[..i] == before + mid[..i - n];
    }
  }

  /** A signal is sent only when something other than the child's exit ended the
      loop, and only while the child has not been reaped; the process group is
      killed only after it was asked to terminate and the grace ran out. */
  lemma SignalsOnlyLiveChild(env: Env, trace: seq<Event>, expired: bool)
    requires Complete(env, trace)
    ensures Ordered(Acts(trace, expired))
    ensures Terminate in Acts(trace, expired) <==> trace[|trace| - 1] != ChildExit
  {
    LastExit(env, trace);
    QuietParts(trace);
    if ChildExit in trace {
      var acts := Receipts(trace) + Collection(trace);
      assert Acts(trace, expired) == acts;
      assert forall i :: 0 <= i < |acts| ==> !Signal(acts[i]);
    } else {
      LadderOrder(expired);
      OrderedInContext(Receipts(trace), Ladder(expired), Collection(trace));
      assert Acts(trace, expired)[|trace| + 1] == Ladder(expired)[1];
    }
  }

  lemma {:induction false} OnceCount(trace: seq<Event>)
    requires Once(trace)
    ensures |set e | e in trace| == |trace|
    decreases |trace|
  {
    if trace != [] {
      var n := |trace| - 1;
      OnceCount(trace[..n]);
      assert trace == trace[..n] + [trace[n]];
      assert (set e | e in trace) == (set e | e in trace[..n]) + {trace[n]};
    }
  }

  /** From `n` on the channel and stdin are closed, each before any result of a
      copy loop is received. */
  ghost predicate Unblocks(acts: seq<Act>, n: nat) {
    exists c, i :: n <= c < |acts| && n <= i < |acts| && acts[c] == CloseChannel && acts[i] == CloseStdin
                   && forall j :: n <= j < |acts| && (acts[j] == Got(Up) || acts[j] == Got(Down)) ==> c < j && i < j
  }

  /** What the copy loops may be parked on is closed after the receive that ends
      the loop and before their results are waited for; the end of stderr comes
      last. */
  lemma ClosedBeforeCollected(env: Env, trace: seq<Event>, expired: bool)
    requires Complete(env, trace)
    ensures var acts := Acts(trace, expired);
            && |acts| > |trace| && acts[..|trace|] == Receipts(trace) && Unblocks(acts, |trace|)
            && acts[|acts| - 1] == StderrDrained
  {
    var acts, n, ladder := Acts(trace, expired), |trace|, if ChildExit in trace then [] else Ladder(expired);
    var m := n + |ladder|;
    assert acts[m] == CloseChannel && acts[m + 1] == CloseStdin;
    forall j | n <= j < |acts| && (acts[j] == Got(Up) || acts[j] == Got(Down)) ensures m + 1 < j {
      if j < m {
        assert acts[j] == ladder[j - n];
        LadderNeverCollects(expired);
      }
    }
  }

  lemma LadderNeverCollects(expired: bool)
    ensures forall i :: 0 <= i < |Ladder(expired)| ==> Ladder(expired)[i] != Got(Up) && Ladder(expired)[i] != Got(Down)
  {
  }

  /** In the ladder stdin is closed, the child asked to terminate and then the
      channel closed, all before the exit is received. */
  ghost predicate ClosesFirst(acts: seq<Act>) {
    exists i, t, c :: 0 <= i < t < c < |acts| - 1
                      && acts[i] == CloseStdin && acts[t] == Terminate && acts[c] == CloseChannel
                      && acts[|acts| - 1] == Got(ChildExit)
  }

  /** The loop receives at most three times before the event that ends it, and a
      startup timeout or an early exit never follows a first byte. */
  lemma RunsAreShort(env: Env, trace: seq<Event>)
    requires Possible(env, trace)
    ensures |trace| <= 4
    ensures Startup in trace ==> FirstByte !in trace
  {
    if Startup in trace {
      var i :| 0 <= i < |trace| && trace[i] == Startup;
      assert Ends(env, trace[i]);
      assert trace == trace[..i] + [Startup];
    }
    if trace != [] {
      var before := trace[..|trace| - 1];
      OnceCount(before);
      SmallerSet(set e | e in before, {FirstByte, Up, Down});
    }
  }
}
