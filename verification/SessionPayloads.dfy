/** What a session request asks for, said through the encoding of its payload
    (sections 6.2 to 6.9 of RFC 4254), and that the bridge passes on exactly
    that. */
module SessionPayloads {
  import opened Texts
  import opened TerminalModes
  import opened SessionBridge

  // ---- encoding -------------------------------------------------------------------------

  const WORDS := 0x1_0000_0000

  /** A string is its length and its bytes. */
  function PutString(s: Bytes): (r: Bytes)
    requires |s| < WORDS
  {
    WordBytes(|s|) + s
  }

  function PutDimensions(columns: Word, rows: Word, width: Word, height: Word): (r: Bytes)
    ensures |r| == 16
  {
    WordBytes(columns) + WordBytes(rows) + WordBytes(width) + WordBytes(height)
  }

  /** `raw` encodes `modes`: groups of nonzero opcodes, or nothing at all. */
  ghost predicate EncodesModes(raw: Bytes, modes: Modes) {
    || (raw == [] && modes == map[])
    || exists groups :: Nonzero(groups) && raw == Encode(groups) && modes == Fold(groups)
  }

  predicate InRange(columns: Word, rows: Word, width: Word, height: Word) {
    columns < 0x8000_0000 && rows < 0x8000_0000 && width < 0x8000_0000 && height < 0x8000_0000
  }

  /** Not empty, at most `max` bytes, no NUL. */
  predicate Plain(s: Bytes, max: nat) {
    0 < |s| <= max && forall i :: 0 <= i < |s| ==> s[i] != 0
  }

  /** `s` spells `name`. */
  ghost predicate Spells(s: Bytes, name: string) {
    |s| == |name| && forall i :: 0 <= i < |s| ==> s[i] == name[i] as int % 256
  }

  /** The bytes spell one of the signal names. */
  ghost predicate SpellsSignal(s: Bytes) {
    || Spells(s, "ABRT") || Spells(s, "ALRM") || Spells(s, "FPE") || Spells(s, "HUP") || Spells(s, "ILL")
    || Spells(s, "INT") || Spells(s, "KILL") || Spells(s, "PIPE") || Spells(s, "QUIT") || Spells(s, "SEGV")
    || Spells(s, "TERM") || Spells(s, "USR1") || Spells(s, "USR2")
  }

  // ---- what is asked ----------------------------------------------------------------------

  ghost predicate AsksResize(payload: Bytes, rows: Word, columns: Word) {
    exists width, height ::
      payload == PutDimensions(columns, rows, width, height) && InRange(columns, rows, width, height)
  }

  ghost predicate PtyPayload(payload: Bytes, term: Bytes, rows: Word, columns: Word,
                             width: Word, height: Word, raw: Bytes) {
    && |term| < WORDS && |raw| < WORDS
    && payload == PutString(term) + PutDimensions(columns, rows, width, height) + PutString(raw)
  }

  /** One that the bridge takes: the terminal name may be empty. */
  ghost predicate FitPty(payload: Bytes, term: Bytes, d: Dimensions, raw: Bytes, modes: Modes) {
    && PtyPayload(payload, term, d.rows, d.columns, d.width, d.height, raw)
    && |term| <= 256 && 0 !in term && InRange(d.columns, d.rows, d.width, d.height) && EncodesModes(raw, modes)
  }

  ghost predicate AsksPty(payload: Bytes, term: Bytes, rows: Word, columns: Word, modes: Modes) {
    exists d: Dimensions, raw :: d.rows == rows && d.columns == columns && FitPty(payload, term, d, raw, modes)
  }

  /** Before the start, `req` asks for `call`. */
  ghost predicate Asks(req: Request, call: InnerCall) {
    match call
    case Setenv(name, value) =>
      && req.kind.Env? && Plain(name, 256) && Plain(value, 32768) && req.payload == PutString(name) + PutString(value)
    case ForwardAgent(payload) => req.kind.Agent? && payload == req.payload
    case RequestSubsystem(name) => req.kind.Subsystem? && Plain(name, 64) && req.payload == PutString(name)
    case RequestPty(term, rows, columns, modes) => req.kind.Pty? && AsksPty(req.payload, term, rows, columns, modes)
    case Resize(rows, columns) => req.kind.WindowChange? && AsksResize(req.payload, rows, columns)
    case StartShell => req.kind.Shell? && req.payload == []
    case StartCommand(command) => req.kind.Exec? && Plain(command, 4096) && req.payload == PutString(command)
    case SendSignal(_) => false
  }

  /** Once started, only a resize or a signal can be asked for. */
  ghost predicate AsksStarted(req: Request, call: InnerCall) {
    match call
    case Resize(rows, columns) => req.kind.WindowChange? && AsksResize(req.payload, rows, columns)
    case SendSignal(signal) =>
      req.kind.Signal? && SpellsSignal(signal) && |signal| < WORDS && req.payload == PutString(signal)
    case _ => false
  }

  // ---- reading undoes writing ---------------------------------------------------------------

  lemma ReadStringIff(p: Bytes, s: Bytes, rest: Bytes)
    ensures ReadString(p) == Some(Read(s, rest)) <==> |s| < WORDS && p == PutString(s) + rest
  {
    if ReadString(p) == Some(Read(s, rest)) {
      BytesOfWord(p[..4]);
      assert p == p[..4] + (p[4..4 + |s|] + p[4 + |s|..]);
      assert PutString(s) + rest == WordBytes(|s|) + (s + rest);
    }
    if |s| < WORDS && p == PutString(s) + rest {
      WordOfBytes(|s|);
      assert p[..4] == WordBytes(|s|) && p[4..4 + |s|] == s && p[4 + |s|..] == rest;
    }
  }

  lemma OneStringIff(p: Bytes, s: Bytes)
    ensures OneString(p) == Some(s) <==> |s| < WORDS && p == PutString(s)
  {
    ReadStringIff(p, s, []);
    if |s| < WORDS { assert PutString(s) + [] == PutString(s); }
  }

  lemma TwoStringsIff(p: Bytes, s: Bytes, t: Bytes)
    ensures TwoStrings(p) == Some((s, t)) <==> |s| < WORDS && |t| < WORDS && p == PutString(s) + PutString(t)
  {
    if TwoStrings(p) == Some((s, t)) {
      var rest := ReadString(p).value.rest;
      ReadStringIff(p, s, rest);
      OneStringIff(rest, t);
    }
    if |s| < WORDS && |t| < WORDS && p == PutString(s) + PutString(t) {
      ReadStringIff(p, s, PutString(t));
      OneStringIff(PutString(t), t);
    }
  }

  lemma WordAt(p: Bytes, i: nat, w: Word)
    requires i + 4 <= |p|
    ensures WordOf(p[i..i + 4]) == w <==> p[i..i + 4] == WordBytes(w)
  {
    BytesOfWord(p[i..i + 4]);
    WordOfBytes(w);
  }

  lemma ReadDimensionsIff(p: Bytes, d: Dimensions, rest: Bytes)
    ensures ReadDimensions(p) == Some(Read(d, rest))
            <==> p == PutDimensions(d.columns, d.rows, d.width, d.height) + rest
  {
    var e := PutDimensions(d.columns, d.rows, d.width, d.height);
    if |p| >= 16 {
      WordAt(p, 0, d.columns);
      WordAt(p, 4, d.rows);
      WordAt(p, 8, d.width);
      WordAt(p, 12, d.height);
      assert p[0..4] == p[..4];
      FourAndRest(p);
    }
    if p == e + rest {
      assert |p| >= 16;
      assert p[0..4] == WordBytes(d.columns) && p[4..8] == WordBytes(d.rows);
      assert p[8..12] == WordBytes(d.width) && p[12..16] == WordBytes(d.height) && p[16..] == rest;
    }
  }

  lemma FourAndRest(p: Bytes)
    requires |p| >= 16
    ensures p == p[0..4] + p[4..8] + p[8..12] + p[12..16] + p[16..]
  {
  }

  // ---- what the bridge makes of it -------------------------------------------------------------

  lemma ResizeIff(payload: Bytes, call: InnerCall)
    ensures ParseResize(payload) == Some(call) <==> call.Resize? && AsksResize(payload, call.rows, call.columns)
  {
    if ParseResize(payload).Some? {
      var d := ReadDimensions(payload).value.value;
      ReadDimensionsIff(payload, d, []);
      var e := PutDimensions(d.columns, d.rows, d.width, d.height);
      assert e + [] == e;
    }
    if call.Resize? && AsksResize(payload, call.rows, call.columns) {
      var width, height :| payload == PutDimensions(call.columns, call.rows, width, height)
                           && InRange(call.columns, call.rows, width, height);
      assert PutDimensions(call.columns, call.rows, width, height) + [] == payload;
      ReadDimensionsIff(payload, Dimensions(call.columns, call.rows, width, height), []);
    }
  }

  lemma ModesIff(raw: Bytes, modes: Modes)
    ensures (if raw == [] then Some(map[]) else ParseModes(raw)) == Some(modes) <==> EncodesModes(raw, modes)
  {
    if Groups(raw).Some? {
      GroupsIffEncoded(raw, Groups(raw).value);
    }
    if groups :| Nonzero(groups) && raw == Encode(groups) && modes == Fold(groups) {
      GroupsIffEncoded(raw, groups);
    }
  }

  /** The three parts of a pty request. */
  lemma PtyPartsIff(payload: Bytes, term: Bytes, d: Dimensions, raw: Bytes)
    ensures PtyPayload(payload, term, d.rows, d.columns, d.width, d.height, raw)
            <==> (var a := ReadString(payload);
                  a.Some? && a.value.value == term
                  && var b := ReadDimensions(a.value.rest);
                     b.Some? && b.value.value == d && OneString(b.value.rest) == Some(raw))
  {
    var size := PutDimensions(d.columns, d.rows, d.width, d.height);
    if PtyPayload(payload, term, d.rows, d.columns, d.width, d.height, raw) {
      assert payload == PutString(term) + (size + PutString(raw));
      ReadStringIff(payload, term, size + PutString(raw));
      ReadDimensionsIff(size + PutString(raw), d, PutString(raw));
      OneStringIff(PutString(raw), raw);
    }
    var a := ReadString(payload);
    if a.Some? && a.value.value == term {
      ReadStringIff(payload, term, a.value.rest);
      var b := ReadDimensions(a.value.rest);
      if b.Some? && b.value.value == d && OneString(b.value.rest) == Some(raw) {
        ReadDimensionsIff(a.value.rest, d, b.value.rest);
        OneStringIff(b.value.rest, raw);
        assert payload == PutString(term) + size + PutString(raw);
      }
    }
  }

  lemma PtyIsAsked(payload: Bytes)
    requires ParsePty(payload).Some?
    ensures var call := ParsePty(payload).value;
            call.RequestPty? && AsksPty(payload, call.term, call.rows, call.columns, call.modes)
  {
    var term := ReadString(payload).value;
    var size := ReadDimensions(term.rest).value;
    var raw := OneString(size.rest).value;
    PtyPartsIff(payload, term.value, size.value, raw);
    ModesIff(raw, ParsePty(payload).value.modes);
    assert FitPty(payload, term.value, size.value, raw, ParsePty(payload).value.modes);
  }

  /** The parts of a payload and what they parse to. */
  lemma ParsedPty(payload: Bytes, modes: Modes)
    requires ReadString(payload).Some?
    requires ReadDimensions(ReadString(payload).value.rest).Some?
    requires OneString(ReadDimensions(ReadString(payload).value.rest).value.rest).Some?
    requires var term, size := ReadString(payload).value, ReadDimensions(ReadString(payload).value.rest).value;
             var raw := OneString(size.rest).value;
             && |term.value| <= 256 && 0 !in term.value && ValidDimensions(size.value)
             && (if raw == [] then Some(map[]) else ParseModes(raw)) == Some(modes)
    ensures var term, d := ReadString(payload).value.value, ReadDimensions(ReadString(payload).value.rest).value.value;
            ParsePty(payload) == Some(RequestPty(term, d.rows, d.columns, modes))
  {
  }

  lemma AskedIsPty(payload: Bytes, term: Bytes, d: Dimensions, raw: Bytes, modes: Modes)
    requires FitPty(payload, term, d, raw, modes)
    ensures ParsePty(payload) == Some(RequestPty(term, d.rows, d.columns, modes))
  {
    PtyPartsIff(payload, term, d, raw);
    ModesIff(raw, modes);
    ParsedPty(payload, modes);
  }

  lemma PtyIff(payload: Bytes, call: InnerCall)
    ensures ParsePty(payload) == Some(call)
            <==> call.RequestPty? && AsksPty(payload, call.term, call.rows, call.columns, call.modes)
  {
    if ParsePty(payload).Some? {
      PtyIsAsked(payload);
    }
    if call.RequestPty? && AsksPty(payload, call.term, call.rows, call.columns, call.modes) {
      var d: Dimensions, raw :| d.rows == call.rows && d.columns == call.columns
                                && FitPty(payload, call.term, d, raw, call.modes);
      AskedIsPty(payload, call.term, d, raw, call.modes);
    }
  }

  lemma SpelledIff(s: Bytes, name: string)
    ensures s == Ascii(name) <==> Spells(s, name)
  {
  }

  lemma SignalIff(s: Bytes)
    ensures ValidSignal(s) <==> SpellsSignal(s)
  {
    forall i | 0 <= i < |SIGNALS| ensures s == Ascii(SIGNALS[i]) <==> Spells(s, SIGNALS[i]) {
      SpelledIff(s, SIGNALS[i]);
    }
    if SpellsSignal(s) {
      assert exists i :: 0 <= i < 13 && Spells(s, SIGNALS[i]) by { SpelledAt(s); }
    }
  }

  lemma SpelledAt(s: Bytes)
    requires SpellsSignal(s)
    ensures exists i :: 0 <= i < 13 && Spells(s, SIGNALS[i])
  {
    assert SIGNALS[0] == "ABRT" && SIGNALS[1] == "ALRM" && SIGNALS[2] == "FPE" && SIGNALS[3] == "HUP";
    assert SIGNALS[4] == "ILL" && SIGNALS[5] == "INT" && SIGNALS[6] == "KILL" && SIGNALS[7] == "PIPE";
    assert SIGNALS[8] == "QUIT" && SIGNALS[9] == "SEGV" && SIGNALS[10] == "TERM";
    assert SIGNALS[11] == "USR1" && SIGNALS[12] == "USR2";
  }

  /** The bridge passes on, before the start, exactly the call that a request
      asks for, and refuses every other payload. */
  lemma BeforeStartIff(req: Request, call: InnerCall)
    ensures BeforeStart(req) == Some(call) <==> Asks(req, call)
  {
    match req.kind {
      case Env =>
        if call.Setenv? { TwoStringsIff(req.payload, call.name, call.value); }
      case Subsystem =>
        if call.RequestSubsystem? { OneStringIff(req.payload, call.name); }
      case Exec =>
        if call.StartCommand? { OneStringIff(req.payload, call.command); }
      case Pty => PtyIff(req.payload, call);
      case WindowChange => ResizeIff(req.payload, call);
      case _ =>
    }
  }

  /** The same once the session has started. */
  lemma AfterStartIff(req: Request, call: InnerCall)
    ensures AfterStart(req) == Some(call) <==> AsksStarted(req, call)
  {
    match req.kind {
      case WindowChange => ResizeIff(req.payload, call);
      case Signal =>
        if call.SendSignal? {
          OneStringIff(req.payload, call.signal);
          SignalIff(call.signal);
        }
      case _ =>
    }
  }

  /** Every pty request in range, with its modes listed in any order, reaches the
      inner session as it was meant: rows as rows, columns as columns. */
  lemma PtyRoundTrip(term: Bytes, rows: Word, columns: Word, width: Word, height: Word,
                     groups: seq<Group>, modes: Modes)
    requires |term| <= 256 && 0 !in term && InRange(columns, rows, width, height)
    requires Lists(groups, modes) && 0 !in modes && |Encode(groups)| < WORDS
    ensures var payload := PutString(term) + PutDimensions(columns, rows, width, height) + PutString(Encode(groups));
            BeforeStart(Request(Pty, payload)) == Some(RequestPty(term, rows, columns, modes))
  {
    var payload := PutString(term) + PutDimensions(columns, rows, width, height) + PutString(Encode(groups));
    ModesRoundTrip(groups, modes);
    GroupsIffEncoded(Encode(groups), groups);
    assert FitPty(payload, term, Dimensions(columns, rows, width, height), Encode(groups), modes);
    BeforeStartIff(Request(Pty, payload), RequestPty(term, rows, columns, modes));
  }

  /** A request is accepted iff it asks for a call and the inner session consents
      to it; the call asked for is then the one call it was sent, and only an
      accepted subsystem, shell or exec starts the session. */
  lemma AppliedIff(inner: Inner, b: Bridge, req: Request, call: InnerCall)
    requires if b.started then AsksStarted(req, call) else Asks(req, call)
    ensures var r, log := Apply(inner, b, req), b.log + [call];
            && r.bridge.log == log && r.ok == inner(log)
            && r.done == (!inner(log) && !b.started && Starts(call))
            && r.bridge.started == (b.started || (inner(log) && Starts(call)))
  {
    BeforeStartIff(req, call);
    AfterStartIff(req, call);
  }

  predicate Starts(call: InnerCall) { call.RequestSubsystem? || call.StartShell? || call.StartCommand? }

  /** A request that asks for nothing is refused, and the inner session does not
      hear of it. */
  lemma RefusedOtherwise(inner: Inner, b: Bridge, req: Request)
    requires forall call :: !(if b.started then AsksStarted(req, call) else Asks(req, call))
    ensures Apply(inner, b, req) == Applied(false, false, b)
  {
    if CallFor(b.started, req).Some? {
      BeforeStartIff(req, CallFor(b.started, req).value);
      AfterStartIff(req, CallFor(b.started, req).value);
    }
  }

  // ---- how a session ends ----------------------------------------------------------------------

  /** The branch that ended the live loop tells the result: the exit status of
      the inner session, or 255 when it has none. */
  ghost predicate EndSays(s: Served, last: Event) {
    match last
    case Canceled => s.end == ContextDone
    case Waited(Clean) => s.end == Finished(0)
    case Waited(ExitError(n)) => 0 <= n < WORDS ==> s.end == Finished(n)
    case Waited(Failed) => s.end == Finished(255)
    case Closed => s.end == if s.bridge.started then OuterClosed else ClosedBeforeStart
    case Arrived(req) => s.end == StartFailed && IsStart(req.kind) && !s.bridge.started
    case NilRequest => false
  }

  /** The event ends the loop in state `b`. */
  predicate EndsLoop(inner: Inner, b: Bridge, event: Event) {
    match event
    case Canceled => true
    case Closed => true
    case Waited(_) => b.waiting
    case NilRequest => false
    case Arrived(req) => Apply(inner, b, req).done
  }

  function Requested(events: seq<Event>): (r: seq<Request>) {
    if events == [] then []
    else (if events[0].Arrived? then [events[0].req] else []) + Requested(events[1..])
  }

  /** The first event that ends the loop decides; without one every request has
      been answered and the loop goes on. */
  lemma {:induction false} LiveEnds(inner: Inner, b: Bridge, events: seq<Event>)
    ensures var s := Live(inner, b, events);
            if s.end.Running? then |s.decisions| == |Requested(events)|
            else exists i :: 0 <= i < |events| && EndSays(s, events[i])
    decreases |events|
  {
    if events != [] && !EndsLoop(inner, b, events[0]) {
      var rest := if events[0].Arrived? then Apply(inner, b, events[0].req).bridge else b;
      LiveEnds(inner, rest, events[1..]);
      var t := Live(inner, rest, events[1..]);
      if !t.end.Running? {
        var i :| 0 <= i < |events[1..]| && EndSays(t, events[1..][i]);
        assert events[i + 1] == events[1..][i];
        assert EndSays(Live(inner, b, events), events[i + 1]);
      }
    } else if events != [] {
      assert EndSays(Live(inner, b, events), events[0]);
    }
  }
}
