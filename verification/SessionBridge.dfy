/** The session bridge: requests of the outer SSH session are validated and
    applied to the inner session, either live or, while the workspace
    transport is still starting, acknowledged, queued and replayed later. */
module SessionBridge {
  import opened Texts
  import opened TerminalModes

  type Bytes = seq<Byte>

  datatype Kind = Env | Agent | Subsystem | Pty | WindowChange | Shell | Exec | Signal | Other(name: string)

  datatype Request = Request(kind: Kind, payload: Bytes)

  /** What reaches the inner session. */
  datatype InnerCall =
    | Setenv(name: Bytes, value: Bytes)
    | ForwardAgent(payload: Bytes)
    | RequestSubsystem(name: Bytes)
    | RequestPty(term: Bytes, rows: Word, columns: Word, modes: Modes)
    | Resize(rows: Word, columns: Word)
    | StartShell
    | StartCommand(command: Bytes)
    | SendSignal(signal: Bytes)

  /** The inner session answers a call according to all calls it was sent, that
      one last. */
  type Inner = seq<InnerCall> -> bool

  // ---- payloads --------------------------------------------------------------------

  datatype Read<T> = Read(value: T, rest: Bytes)

  function ReadString(s: Bytes): Option<Read<Bytes>> {
    if |s| < 4 || |s| - 4 < WordOf(s[..4]) then None
    else Some(Read(s[4..4 + WordOf(s[..4])], s[4 + WordOf(s[..4])..]))
  }

  /** ssh.Unmarshal into a structure of one string: trailing bytes are an error. */
  function OneString(payload: Bytes): Option<Bytes> {
    var a := ReadString(payload);
    if a.None? || a.value.rest != [] then None else Some(a.value.value)
  }

  function TwoStrings(payload: Bytes): Option<(Bytes, Bytes)> {
    var a := ReadString(payload);
    if a.None? then None else
      var b := OneString(a.value.rest);
      if b.None? then None else Some((a.value.value, b.value))
  }

  /** Columns, rows, width and height. */
  datatype Dimensions = Dimensions(columns: Word, rows: Word, width: Word, height: Word)

  function ReadDimensions(s: Bytes): Option<Read<Dimensions>> {
    if |s| < 16 then None
    else Some(Read(Dimensions(WordOf(s[..4]), WordOf(s[4..8]), WordOf(s[8..12]), WordOf(s[12..16])), s[16..]))
  }

  const MAX_INT32 := 0x7fff_ffff

  predicate ValidDimensions(d: Dimensions) {
    d.columns <= MAX_INT32 && d.rows <= MAX_INT32 && d.width <= MAX_INT32 && d.height <= MAX_INT32
  }

  predicate ValidString(value: Bytes, max: nat) {
    value != [] && |value| <= max && 0 !in value
  }

  function Ascii(s: string): Bytes {
    seq(|s|, i requires 0 <= i < |s| => s[i] as int % 256)
  }

  const SIGNALS: seq<string> :=
    ["ABRT", "ALRM", "FPE", "HUP", "ILL", "INT", "KILL", "PIPE", "QUIT", "SEGV", "TERM", "USR1", "USR2"]

  predicate ValidSignal(signal: Bytes) {
    exists i :: 0 <= i < |SIGNALS| && signal == Ascii(SIGNALS[i])
  }

  function ParseModes(raw: Bytes): Option<Modes> {
    var groups := Groups(raw);
    if groups.None? then None else Some(Fold(groups.value))
  }

  /** ParsePtyRequest: the terminal name may be empty, and so may the modes. */
  function ParsePty(payload: Bytes): Option<InnerCall> {
    var term := ReadString(payload);
    if term.None? then None else
      var size := ReadDimensions(term.value.rest);
      if size.None? then None else
        var modes := OneString(size.value.rest);
        if modes.None? then None
        else if |term.value.value| > 256 || 0 in term.value.value then None
        else if !ValidDimensions(size.value.value) then None
        else
          var parsed := if modes.value == [] then Some(map[]) else ParseModes(modes.value);
          if parsed.None? then None
          else Some(RequestPty(term.value.value, size.value.value.rows, size.value.value.columns, parsed.value))
  }

  /** The call a window-change asks for, if it is well formed. */
  function ParseResize(payload: Bytes): Option<InnerCall> {
    var size := ReadDimensions(payload);
    if size.None? || size.value.rest != [] || !ValidDimensions(size.value.value) then None
    else Some(Resize(size.value.value.rows, size.value.value.columns))
  }

  // ---- one live request --------------------------------------------------------------

  /** The inner call that a request leads to before the session has started;
      `None` when it is refused without reaching the inner session. */
  function BeforeStart(req: Request): Option<InnerCall> {
    match req.kind
    case Env =>
      var r := TwoStrings(req.payload);
      if r.None? || !ValidString(r.value.0, 256) || !ValidString(r.value.1, 32 * 1024) then None
      else Some(Setenv(r.value.0, r.value.1))
    case Agent => Some(ForwardAgent(req.payload))
    case Subsystem =>
      var r := OneString(req.payload);
      if r.None? || !ValidString(r.value, 64) then None else Some(RequestSubsystem(r.value))
    case Pty => ParsePty(req.payload)
    case WindowChange => ParseResize(req.payload)
    case Shell => if |req.payload| != 0 then None else Some(StartShell)
    case Exec =>
      var r := OneString(req.payload);
      if r.None? || !ValidString(r.value, 4096) then None else Some(StartCommand(r.value))
    case _ => None
  }

  /** The same once the session has started. */
  function AfterStart(req: Request): Option<InnerCall> {
    match req.kind
    case WindowChange => ParseResize(req.payload)
    case Signal =>
      var r := OneString(req.payload);
      if r.None? || !ValidSignal(r.value) then None else Some(SendSignal(r.value))
    case _ => None
  }

  function CallFor(started: bool, req: Request): Option<InnerCall> {
    if started then AfterStart(req) else BeforeStart(req)
  }

  predicate IsStart(kind: Kind) { kind.Subsystem? || kind.Shell? || kind.Exec? }

  /** The bridge: whether a start was accepted, whether a wait goroutine was
      launched, and every call sent to the inner session. */
  datatype Bridge = Bridge(started: bool, waiting: bool, log: seq<InnerCall>)

  const IDLE := Bridge(false, false, [])

  datatype Applied = Applied(ok: bool, done: bool, bridge: Bridge)

  /** applySessionRequest, and the launch of the wait by its caller. */
  function Apply(inner: Inner, b: Bridge, req: Request): Applied {
    var call := CallFor(b.started, req);
    if call.None? then Applied(false, false, b)
    else
      var sent := b.(log := b.log + [call.value]);
      if !inner(sent.log) then Applied(false, !b.started && IsStart(req.kind), sent)
      else if !b.started && IsStart(req.kind) then Applied(true, false, sent.(started := true, waiting := true))
      else Applied(true, false, sent)
  }

  // ---- the queue ---------------------------------------------------------------------

  datatype Decision = Decision(queueable: bool, valid: bool)

  function QueueDecision(req: Request): Decision {
    match req.kind
    case Env =>
      var r := TwoStrings(req.payload);
      if r.None? || !ValidString(r.value.0, 256) || !ValidString(r.value.1, 32 * 1024) then Decision(false, false)
      else Decision(true, true)
    case Agent => Decision(true, true)
    case Pty => if ParsePty(req.payload).None? then Decision(false, false) else Decision(true, true)
    case Shell => if |req.payload| != 0 then Decision(false, false) else Decision(true, true)
    case Exec =>
      var r := OneString(req.payload);
      if r.None? || !ValidString(r.value, 4096) then Decision(false, false) else Decision(true, true)
    case Subsystem =>
      var r := OneString(req.payload);
      if r.None? || !ValidString(r.value, 64) then Decision(false, false) else Decision(true, true)
    case _ => Decision(false, false)
  }

  function Accepts(req: Request): bool { QueueDecision(req).valid }

  /** The queue accepts what the live bridge passes on before the start, except
      for well-formed window changes; nothing is acknowledged and dropped. */
  lemma QueueAcceptsIff(req: Request)
    ensures Accepts(req) <==> BeforeStart(req).Some? && !req.kind.WindowChange?
    ensures QueueDecision(req).queueable == Accepts(req)
  {
  }

  /** With an inner session that consents, the early and the live decision
      agree iff the request is not a well-formed window change. */
  lemma DecisionsAgreeIff(inner: Inner, b: Bridge, req: Request)
    requires !b.started && forall log :: inner(log)
    ensures Apply(inner, b, req).ok == Accepts(req)
            <==> !(req.kind.WindowChange? && ParseResize(req.payload).Some?)
  {
    QueueAcceptsIff(req);
  }

  lemma AcceptedIsCall(req: Request)
    requires Accepts(req)
    ensures BeforeStart(req).Some? && AfterStart(req).None?
  {
    QueueAcceptsIff(req);
  }

  // ---- replay ------------------------------------------------------------------------

  datatype Replayed = Replayed(ok: bool, bridge: Bridge)

  /** The first loop of forwardSessionRequests. */
  function Replay(inner: Inner, b: Bridge, queued: seq<Request>): Replayed
    decreases |queued|
  {
    if queued == [] then Replayed(true, b)
    else
      var r := Apply(inner, b, queued[0]);
      if !r.ok || r.done then Replayed(false, r.bridge) else Replay(inner, r.bridge, queued[1..])
  }

  ghost predicate Acknowledged(queued: seq<Request>) {
    forall i :: 0 <= i < |queued| ==> Accepts(queued[i])
  }

  /** What an acknowledged queue asks of the inner session, in arrival order. */
  ghost function Calls(queued: seq<Request>): (r: seq<InnerCall>)
    requires Acknowledged(queued)
    ensures |r| == |queued|
  {
    seq(|queued|, i requires 0 <= i < |queued| => AcceptedIsCall(queued[i]); BeforeStart(queued[i]).value)
  }

  /** Nothing follows the first shell, exec or subsystem. */
  ghost predicate StartIsLast(queued: seq<Request>) {
    forall i :: 0 <= i < |queued| && IsStart(queued[i].kind) ==> i == |queued| - 1
  }

  /** The inner session consents to each of `calls` after `log`. */
  ghost predicate ConsentsTo(inner: Inner, log: seq<InnerCall>, calls: seq<InnerCall>) {
    forall n :: 0 < n <= |calls| ==> inner(log + calls[..n])
  }

  lemma ConsentsSplit(inner: Inner, log: seq<InnerCall>, calls: seq<InnerCall>)
    requires calls != []
    ensures ConsentsTo(inner, log, calls)
            <==> inner(log + [calls[0]]) && ConsentsTo(inner, log + [calls[0]], calls[1..])
  {
    var first := log + [calls[0]];
    assert forall n :: 0 < n <= |calls| - 1 ==> first + calls[1..][..n] == log + calls[..n + 1];
    assert log + calls[..1] == first;
    if ConsentsTo(inner, log, calls) {
      forall n | 0 < n <= |calls| - 1 ensures inner(first + calls[1..][..n]) {
        assert inner(log + calls[..n + 1]);
      }
    }
    if inner(first) && ConsentsTo(inner, first, calls[1..]) {
      forall n | 0 < n <= |calls| ensures inner(log + calls[..n]) {
        if n > 1 {
          assert inner(first + calls[1..][..n - 1]);
        }
      }
    }
  }

  /** Replay of an acknowledged queue succeeds iff nothing follows its first
      start and the inner session consents; the inner session then has seen
      every queued request once, in arrival order. */
  lemma {:induction false} ReplaySucceedsIff(inner: Inner, b: Bridge, queued: seq<Request>)
    requires Acknowledged(queued) && !b.started
    ensures Replay(inner, b, queued).ok <==> StartIsLast(queued) && ConsentsTo(inner, b.log, Calls(queued))
    ensures Replay(inner, b, queued).ok ==> Replay(inner, b, queued).bridge.log == b.log + Calls(queued)
    decreases |queued|
  {
    if queued == [] {
      assert b.log + [] == b.log;
    } else {
      var rest, r := queued[1..], Apply(inner, b, queued[0]);
      CallsCons(b.log, queued);
      FirstCall(inner, b, queued[0]);
      ConsentsSplit(inner, b.log, Calls(queued));
      if r.bridge.started {
        ReplayAfterStart(inner, r.bridge, rest);
        assert rest == [] ==> r.bridge.log + Calls(rest) == r.bridge.log;
      } else if r.ok {
        StartIsLastTail(queued);
        ReplaySucceedsIff(inner, r.bridge, rest);
      }
    }
  }

  lemma CallsCons(log: seq<InnerCall>, queued: seq<Request>)
    requires Acknowledged(queued) && queued != []
    ensures BeforeStart(queued[0]).Some? && Calls(queued)[0] == BeforeStart(queued[0]).value
    ensures Calls(queued)[1..] == Calls(queued[1..])
    ensures log + Calls(queued) == (log + [Calls(queued)[0]]) + Calls(queued[1..])
  {
    AcceptedIsCall(queued[0]);
    var calls := Calls(queued);
    assert calls[1..] == Calls(queued[1..]);
    HeadMoves(log, calls);
  }

  lemma HeadMoves(log: seq<InnerCall>, calls: seq<InnerCall>)
    requires calls != []
    ensures log + calls == (log + [calls[0]]) + calls[1..]
  {
    assert calls == [calls[0]] + calls[1..];
  }

  lemma FirstCall(inner: Inner, b: Bridge, req: Request)
    requires BeforeStart(req).Some? && !b.started
    ensures var r := Apply(inner, b, req);
            && r.bridge.log == b.log + [BeforeStart(req).value]
            && r.ok == inner(r.bridge.log) && (r.ok ==> !r.done)
            && r.bridge.started == (r.ok && IsStart(req.kind))
  {
  }

  lemma StartIsLastTail(queued: seq<Request>)
    requires queued != [] && !IsStart(queued[0].kind)
    ensures StartIsLast(queued) <==> StartIsLast(queued[1..])
  {
    var rest := queued[1..];
    assert forall i :: 1 <= i < |queued| ==> queued[i] == rest[i - 1];
  }

  lemma ReplayAfterStart(inner: Inner, b: Bridge, queued: seq<Request>)
    requires Acknowledged(queued) && b.started
    ensures Replay(inner, b, queued) == Replayed(queued == [], b)
  {
    if queued != [] {
      AcceptedIsCall(queued[0]);
    }
  }

  // ---- the live loop -------------------------------------------------------------------

  datatype WaitResult = Clean | ExitError(status: int) | Failed

  /** The branch the select takes.  A wait result can only be received once a
      wait was launched; until then that branch is skipped. */
  datatype Event = Canceled | Waited(result: WaitResult) | Closed | NilRequest | Arrived(req: Request)

  datatype End =
    | Running
    | ReplayFailed
    | ContextDone
    | Finished(status: Word)
    | ClosedBeforeStart
    | OuterClosed
    | StartFailed

  /** `collected` tells whether the wait result was received. */
  datatype Served = Served(bridge: Bridge, decisions: seq<bool>, end: End, collected: bool)

  /** finishSession. */
  function ExitStatus(result: WaitResult): Word {
    match result
    case Clean => 0
    case ExitError(status) => status % 0x1_0000_0000
    case Failed => 255
  }

  /** The second loop of forwardSessionRequests. */
  function Live(inner: Inner, b: Bridge, events: seq<Event>): Served
    decreases |events|
  {
    if events == [] then Served(b, [], Running, false)
    else match events[0]
      case Canceled => Served(b, [], ContextDone, b.waiting)
      case Waited(result) =>
        if b.waiting then Served(b, [], Finished(ExitStatus(result)), true) else Live(inner, b, events[1..])
      case Closed => Served(b, [], if b.started then OuterClosed else ClosedBeforeStart, b.started && b.waiting)
      case NilRequest => Live(inner, b, events[1..])
      case Arrived(req) =>
        var r := Apply(inner, b, req);
        if r.done then Served(r.bridge, [r.ok], StartFailed, false)
        else Decided(r.ok, Live(inner, r.bridge, events[1..]))
  }

  function Decided(ok: bool, s: Served): Served {
    s.(decisions := [ok] + s.decisions)
  }

  /** forwardSessionRequests. */
  function Forward(inner: Inner, queued: seq<Request>, events: seq<Event>): Served {
    var r := Replay(inner, IDLE, queued);
    if !r.ok then Served(r.bridge, [], ReplayFailed, false) else Live(inner, r.bridge, events)
  }

  method ForwardSessionRequests(inner: Inner, queued: seq<Request>, events: seq<Event>) returns (s: Served)
    ensures s == Forward(inner, queued, events)
  {
    var b := IDLE;
    var i := 0;
    while i < |queued|
      invariant 0 <= i <= |queued|
      invariant Replay(inner, IDLE, queued) == Replay(inner, b, queued[i..])
    {
      var r := Apply(inner, b, queued[i]);
      assert queued[i..][0] == queued[i] && queued[i..][1..] == queued[i + 1..];
      b := r.bridge;
      if !r.ok || r.done {
        return Served(b, [], ReplayFailed, false);
      }
      i := i + 1;
    }
    ghost var start := b;
    var decisions: seq<bool> := [];
    var j := 0;
    while j < |events|
      invariant 0 <= j <= |events|
      invariant Live(inner, start, events) == Prepended(decisions, Live(inner, b, events[j..]))
    {
      var event := events[j];
      assert events[j..][0] == event && events[j..][1..] == events[j + 1..];
      j := j + 1;
      match event {
        case Canceled =>
          return Served(b, decisions, ContextDone, b.waiting);
        case Waited(result) =>
          if b.waiting {
            return Served(b, decisions, Finished(ExitStatus(result)), true);
          }
        case Closed =>
          if !b.started {
            return Served(b, decisions, ClosedBeforeStart, false);
          }
          return Served(b, decisions, OuterClosed, b.waiting);
        case NilRequest =>
        case Arrived(req) =>
          var r := Apply(inner, b, req);
          b := r.bridge;
          PrependedStep(decisions, r.ok, Live(inner, b, events[j..]));
          decisions := decisions + [r.ok];
          if r.done {
            return Served(b, decisions, StartFailed, false);
          }
      }
    }
    return Served(b, decisions, Running, false);
  }

  ghost function Prepended(decisions: seq<bool>, s: Served): Served {
    s.(decisions := decisions + s.decisions)
  }

  lemma PrependedStep(decisions: seq<bool>, ok: bool, s: Served)
    ensures Prepended(decisions, Decided(ok, s)) == Prepended(decisions + [ok], s)
  {
    assert decisions + ([ok] + s.decisions) == (decisions + [ok]) + s.decisions;
  }
}
