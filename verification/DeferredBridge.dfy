/** Serving a session whose transport is still starting, compared with serving
    it on a transport that was there from the beginning. */
module DeferredBridge {
  import opened SessionBridge

  // ---- collecting while the transport starts -----------------------------------------

  /** The branch the select of BridgePendingSession takes. */
  datatype Early = Dropped | Hangup | Blank | Asked(req: Request) | TransportFailed | TransportReady

  datatype Outcome = Pending | CanceledEarly | OuterGone | Unavailable | Bridged(queued: seq<Request>)

  /** The requests that arrive before the first branch that leaves the loop. */
  function Requests(events: seq<Early>): seq<Request> {
    if events == [] then []
    else match events[0]
      case Asked(req) => [req] + Requests(events[1..])
      case Blank => Requests(events[1..])
      case _ => []
  }

  /** The branch that leaves the loop, if any. */
  function Leaves(events: seq<Early>): Early {
    if events == [] then Blank
    else if events[0].Asked? || events[0].Blank? then Leaves(events[1..])
    else events[0]
  }

  /** The acknowledged requests, in arrival order. */
  function Queue(reqs: seq<Request>): (r: seq<Request>)
    ensures |r| <= |reqs|
  {
    if reqs == [] then []
    else if Accepts(reqs[0]) then [reqs[0]] + Queue(reqs[1..])
    else Queue(reqs[1..])
  }

  function EarlyDecisions(reqs: seq<Request>): (r: seq<bool>)
    ensures |r| == |reqs|
  {
    seq(|reqs|, i requires 0 <= i < |reqs| => Accepts(reqs[i]))
  }

  lemma {:induction false} QueueAppend(reqs: seq<Request>, req: Request)
    ensures Queue(reqs + [req]) == Queue(reqs) + if Accepts(req) then [req] else []
    decreases |reqs|
  {
    if reqs == [] {
      assert reqs + [req] == [req];
    } else {
      assert (reqs + [req])[1..] == reqs[1..] + [req];
      QueueAppend(reqs[1..], req);
    }
  }

  lemma {:induction false} QueueAcknowledged(reqs: seq<Request>)
    ensures Acknowledged(Queue(reqs))
    decreases |reqs|
  {
    if reqs != [] {
      QueueAcknowledged(reqs[1..]);
    }
  }

  lemma CollectStep(read: seq<Request>, req: Request, later: seq<Request>)
    ensures Queue(read + [req]) == Queue(read) + if Accepts(req) then [req] else []
    ensures EarlyDecisions(read + [req]) == EarlyDecisions(read) + [Accepts(req)]
    ensures read + ([req] + later) == (read + [req]) + later
  {
    QueueAppend(read, req);
  }

  /** BridgePendingSession up to the hand-over to the live bridge. */
  method BridgePendingSession(events: seq<Early>) returns (outcome: Outcome, decisions: seq<bool>)
    ensures decisions == EarlyDecisions(Requests(events))
    ensures match Leaves(events)
            case Dropped => outcome == CanceledEarly
            case Hangup => outcome == OuterGone
            case TransportFailed => outcome == Unavailable
            case TransportReady => outcome == Bridged(Queue(Requests(events)))
            case _ => outcome == Pending
  {
    var queued: seq<Request> := [];
    decisions := [];
    ghost var read: seq<Request> := [];
    var i := 0;
    while i < |events|
      invariant 0 <= i <= |events|
      invariant Requests(events) == read + Requests(events[i..])
      invariant Leaves(events) == Leaves(events[i..])
      invariant queued == Queue(read) && decisions == EarlyDecisions(read)
    {
      var event := events[i];
      assert events[i..][0] == event && events[i..][1..] == events[i + 1..];
      assert read + [] == read;
      i := i + 1;
      match event {
        case Dropped => return CanceledEarly, decisions;
        case Hangup => return OuterGone, decisions;
        case TransportFailed => return Unavailable, decisions;
        case TransportReady => return Bridged(queued), decisions;
        case Blank =>
        case Asked(req) =>
          var d := QueueDecision(req);
          QueueAcceptsIff(req);
          CollectStep(read, req, Requests(events[i..]));
          decisions := decisions + [d.valid];
          read := read + [req];
          if d.valid && d.queueable {
            queued := queued + [req];
          }
      }
    }
    assert read + [] == read;
    return Pending, decisions;
  }

  // ---- the wait goroutine -----------------------------------------------------------------

  lemma {:induction false} WaitingIsStarted(inner: Inner, b: Bridge, queued: seq<Request>)
    requires b.waiting == b.started
    ensures var r := Replay(inner, b, queued).bridge; r.waiting == r.started
    decreases |queued|
  {
    if queued != [] {
      WaitingIsStarted(inner, Apply(inner, b, queued[0]).bridge, queued[1..]);
    }
  }

  lemma {:induction false} LiveCollects(inner: Inner, b: Bridge, events: seq<Event>)
    requires b.waiting == b.started
    ensures var s := Live(inner, b, events); !s.end.Running? ==> s.collected == s.bridge.waiting
    decreases |events|
  {
    if events != [] {
      match events[0]
      case Arrived(req) => LiveCollects(inner, Apply(inner, b, req).bridge, events[1..]);
      case _ => LiveCollects(inner, b, events[1..]);
    }
  }

  lemma {:induction false} ReplaySplit(inner: Inner, b: Bridge, queued: seq<Request>, n: nat)
    requires n <= |queued|
    ensures var r := Replay(inner, b, queued[..n]);
            Replay(inner, b, queued) == if r.ok then Replay(inner, r.bridge, queued[n..]) else r
    decreases n
  {
    if n == 0 {
      assert queued[0..] == queued;
    } else {
      assert queued[..n][0] == queued[0] && queued[..n][1..] == queued[1..][..n - 1]
             && queued[1..][n - 1..] == queued[n..];
      ReplaySplit(inner, Apply(inner, b, queued[0]).bridge, queued[1..], n - 1);
    }
  }

  /** Replayed up to its first start, and the queue goes on. */
  ghost predicate StartThenMore(inner: Inner, queued: seq<Request>) {
    exists n :: 0 < n < |queued| && IsStart(queued[n - 1].kind) && Replay(inner, IDLE, queued[..n]).ok
  }

  lemma {:induction false} StartedAfter(inner: Inner, b: Bridge, queued: seq<Request>)
    requires Acknowledged(queued) && Replay(inner, b, queued).ok
    ensures Replay(inner, b, queued).bridge.started
            <==> b.started || (queued != [] && IsStart(queued[|queued| - 1].kind))
    decreases |queued|
  {
    if queued != [] {
      var r := Apply(inner, b, queued[0]);
      AcceptedIsCall(queued[0]);
      StartedAfter(inner, r.bridge, queued[1..]);
      if r.bridge.started {
        ReplayAfterStart(inner, r.bridge, queued[1..]);
      }
    }
  }

  lemma {:induction false} FindStart(inner: Inner, b: Bridge, queued: seq<Request>) returns (n: nat)
    requires Acknowledged(queued) && !b.started
    requires !Replay(inner, b, queued).ok && Replay(inner, b, queued).bridge.started
    ensures 0 < n < |queued| && IsStart(queued[n - 1].kind) && Replay(inner, b, queued[..n]).ok
    decreases |queued|
  {
    var r := Apply(inner, b, queued[0]);
    if r.bridge.started {
      n := 1;
      assert queued[..1][1..] == [];
    } else {
      var m := FindStart(inner, r.bridge, queued[1..]);
      n := m + 1;
      assert queued[..n][0] == queued[0] && queued[..n][1..] == queued[1..][..m];
    }
  }

  /** A bridge that ends has received the result of the wait it launched, except
      exactly when an acknowledged queue goes on after an accepted start: the
      replay then fails and leaves the wait behind. */
  lemma WaitUncollectedIff(inner: Inner, queued: seq<Request>, events: seq<Event>)
    requires Acknowledged(queued) && !Forward(inner, queued, events).end.Running?
    ensures var s := Forward(inner, queued, events);
            s.bridge.waiting && !s.collected <==> StartThenMore(inner, queued)
  {
    var r := Replay(inner, IDLE, queued);
    WaitingIsStarted(inner, IDLE, queued);
    LiveCollects(inner, r.bridge, events);
    if !r.ok && r.bridge.started {
      var n := FindStart(inner, IDLE, queued);
    }
    if n :| 0 < n < |queued| && IsStart(queued[n - 1].kind) && Replay(inner, IDLE, queued[..n]).ok {
      var p := Replay(inner, IDLE, queued[..n]).bridge;
      ReplaySplit(inner, IDLE, queued, n);
      StartedAfter(inner, IDLE, queued[..n]);
      ReplayAfterStart(inner, p, queued[n..]);
    }
  }

  // ---- deferral is transparent --------------------------------------------------------------

  function Arrivals(reqs: seq<Request>): (r: seq<Event>)
    ensures |r| == |reqs|
  {
    seq(|reqs|, i requires 0 <= i < |reqs| => Arrived(reqs[i]))
  }

  /** No request that the queue refuses would have been passed on by the live
      bridge. */
  ghost predicate NothingLost(started: bool, reqs: seq<Request>)
    decreases |reqs|
  {
    reqs != [] ==>
      if Accepts(reqs[0]) then NothingLost(started || IsStart(reqs[0].kind), reqs[1..])
      else CallFor(started, reqs[0]).None? && NothingLost(started, reqs[1..])
  }

  lemma ArrivalsCons(reqs: seq<Request>, events: seq<Event>)
    requires reqs != []
    ensures var all := Arrivals(reqs) + events;
            all != [] && all[0] == Arrived(reqs[0]) && all[1..] == Arrivals(reqs[1..]) + events
  {
    assert Arrivals(reqs) == [Arrived(reqs[0])] + Arrivals(reqs[1..]);
  }

  lemma LiveArrival(inner: Inner, b: Bridge, reqs: seq<Request>, events: seq<Event>)
    requires reqs != [] && !Apply(inner, b, reqs[0]).done
    ensures var r := Apply(inner, b, reqs[0]);
            Live(inner, b, Arrivals(reqs) + events)
            == Decided(r.ok, Live(inner, r.bridge, Arrivals(reqs[1..]) + events))
  {
    ArrivalsCons(reqs, events);
  }

  lemma QueueCons(reqs: seq<Request>)
    requires reqs != [] && Accepts(reqs[0])
    ensures Queue(reqs) != [] && Queue(reqs)[0] == reqs[0] && Queue(reqs)[1..] == Queue(reqs[1..])
  {
  }

  /** A request that is applied, or that neither bridge passes on. */
  lemma AppliedWhen(inner: Inner, b: Bridge, req: Request)
    requires if Accepts(req) then Apply(inner, b, req).ok else CallFor(b.started, req).None?
    ensures var r := Apply(inner, b, req);
            && r.ok == Accepts(req) && !r.done
            && (if r.ok then r.bridge.started == (b.started || IsStart(req.kind)) else r.bridge == b)
  {
    if Accepts(req) {
      AcceptedIsCall(req);
    }
  }

  /** A request whose early answer is the live one, and its part in the replay. */
  lemma QueuedStep(inner: Inner, b: Bridge, reqs: seq<Request>)
    requires reqs != [] && Replay(inner, b, Queue(reqs)).ok && NothingLost(b.started, reqs)
    ensures var r := Apply(inner, b, reqs[0]);
            && r.ok == Accepts(reqs[0]) && !r.done
            && Replay(inner, b, Queue(reqs)) == Replay(inner, r.bridge, Queue(reqs[1..]))
            && NothingLost(r.bridge.started, reqs[1..])
  {
    if Accepts(reqs[0]) {
      QueueCons(reqs);
    }
    AppliedWhen(inner, b, reqs[0]);
  }

  lemma EarlyDecisionsCons(reqs: seq<Request>)
    requires reqs != []
    ensures EarlyDecisions(reqs) == [Accepts(reqs[0])] + EarlyDecisions(reqs[1..])
  {
  }

  lemma DecidedPrepended(ok: bool, decisions: seq<bool>, s: Served)
    ensures Decided(ok, Prepended(decisions, s)) == Prepended([ok] + decisions, s)
  {
    assert [ok] + (decisions + s.decisions) == ([ok] + decisions) + s.decisions;
  }

  lemma {:induction false} DeferredMatchesLive(inner: Inner, b: Bridge, reqs: seq<Request>, events: seq<Event>)
    requires Replay(inner, b, Queue(reqs)).ok && NothingLost(b.started, reqs)
    ensures Live(inner, b, Arrivals(reqs) + events)
            == Prepended(EarlyDecisions(reqs), Live(inner, Replay(inner, b, Queue(reqs)).bridge, events))
    decreases |reqs|
  {
    var s := Live(inner, Replay(inner, b, Queue(reqs)).bridge, events);
    if reqs == [] {
      assert Arrivals(reqs) + events == events;
      assert [] + s.decisions == s.decisions;
    } else {
      QueuedStep(inner, b, reqs);
      DeferredMatchesLive(inner, Apply(inner, b, reqs[0]).bridge, reqs[1..], events);
      LiveArrival(inner, b, reqs, events);
      EarlyDecisionsCons(reqs);
      DecidedPrepended(Accepts(reqs[0]), EarlyDecisions(reqs[1..]), s);
    }
  }

  /** When the early decisions match the live ones, the live bridge has called
      the inner session at least once per queued request, and once per queued
      request only if nothing was lost. */
  lemma {:induction false} LiveCallsCounted(inner: Inner, b: Bridge, reqs: seq<Request>)
    requires Live(inner, b, Arrivals(reqs)).decisions == EarlyDecisions(reqs)
    ensures |Live(inner, b, Arrivals(reqs)).bridge.log| >= |b.log| + |Queue(reqs)|
    ensures |Live(inner, b, Arrivals(reqs)).bridge.log| == |b.log| + |Queue(reqs)| ==> NothingLost(b.started, reqs)
    decreases |reqs|
  {
    if reqs != [] {
      var r := Apply(inner, b, reqs[0]);
      ArrivalsCons(reqs, []);
      EarlyDecisionsCons(reqs);
      assert Arrivals(reqs) + [] == Arrivals(reqs) && Arrivals(reqs[1..]) + [] == Arrivals(reqs[1..]);
      var s := Live(inner, b, Arrivals(reqs));
      assert s.decisions[0] == Accepts(reqs[0]) && s.decisions[1..] == EarlyDecisions(reqs[1..]);
      if Accepts(reqs[0]) {
        AcceptedIsCall(reqs[0]);
      }
      if r.done {
        QueueAcceptsIff(reqs[0]);
        assert false;
      } else {
        var t := Live(inner, r.bridge, Arrivals(reqs[1..]));
        assert t.decisions == ([r.ok] + t.decisions)[1..];
        LiveCallsCounted(inner, r.bridge, reqs[1..]);
      }
    }
  }

  /** Answering early and replaying cannot be told from a transport that was
      there all along, whatever follows: same decisions, same inner calls in
      the same order, same end. */
  ghost predicate Transparent(inner: Inner, reqs: seq<Request>) {
    forall events :: Live(inner, IDLE, Arrivals(reqs) + events)
                     == Prepended(EarlyDecisions(reqs), Forward(inner, Queue(reqs), events))
  }

  /** That is so iff nothing queued follows the first queued start, the inner
      session consents to the queued calls, and no request refused early would
      have been passed on live. */
  lemma DeferralTransparentIff(inner: Inner, reqs: seq<Request>)
    ensures Acknowledged(Queue(reqs))
    ensures Transparent(inner, reqs)
            <==> StartIsLast(Queue(reqs)) && ConsentsTo(inner, [], Calls(Queue(reqs))) && NothingLost(false, reqs)
  {
    var queue := Queue(reqs);
    QueueAcknowledged(reqs);
    ReplaySucceedsIff(inner, IDLE, queue);
    if Replay(inner, IDLE, queue).ok && NothingLost(false, reqs) {
      forall events ensures Live(inner, IDLE, Arrivals(reqs) + events)
                            == Prepended(EarlyDecisions(reqs), Forward(inner, queue, events)) {
        DeferredMatchesLive(inner, IDLE, reqs, events);
      }
    }
    if Transparent(inner, reqs) {
      assert Arrivals(reqs) + [] == Arrivals(reqs);
      var live, deferred := Live(inner, IDLE, Arrivals(reqs) + []), Forward(inner, queue, []);
      assert live == Prepended(EarlyDecisions(reqs), deferred);
      LiveNeverReplays(inner, IDLE, Arrivals(reqs));
      assert live.decisions == EarlyDecisions(reqs);
      LiveCallsCounted(inner, IDLE, reqs);
    }
  }

  lemma {:induction false} LiveNeverReplays(inner: Inner, b: Bridge, events: seq<Event>)
    ensures !Live(inner, b, events).end.ReplayFailed?
    decreases |events|
  {
    if events != [] {
      match events[0]
      case Arrived(req) => LiveNeverReplays(inner, Apply(inner, b, req).bridge, events[1..]);
      case _ => LiveNeverReplays(inner, b, events[1..]);
    }
  }

  /** A window change that arrives while the transport starts is one request
      that a client can tell. */
  lemma EarlyResizeIsObservable(inner: Inner, before: seq<Request>, resize: Request)
    requires resize.kind.WindowChange? && ParseResize(resize.payload).Some?
    ensures !Transparent(inner, before + [resize])
  {
    DeferralTransparentIff(inner, before + [resize]);
    LostInSuffix(false, before, resize);
  }

  lemma {:induction false} LostInSuffix(started: bool, before: seq<Request>, resize: Request)
    requires resize.kind.WindowChange? && ParseResize(resize.payload).Some?
    ensures !NothingLost(started, before + [resize])
    decreases |before|
  {
    var all := before + [resize];
    if before == [] {
      assert all[0] == resize;
    } else {
      assert all[0] == before[0] && all[1..] == before[1..] + [resize];
      LostInSuffix(started, before[1..], resize);
      LostInSuffix(started || IsStart(before[0].kind), before[1..], resize);
    }
  }
}
