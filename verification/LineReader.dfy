/** The line reader of the key-management session: bytes in, lines out, with
    carriage-return state carried from one call to the next.  A byte is a
    character below 256. */
module LineReader {
  import Texts

  const MAX_LINE := 256
  const BACKSPACE := '\U{0008}'
  const DELETE := '\U{007F}'

  /** What one call returns.  `Eof` is the end of input, `Broken` a failing
      source. */
  datatype Line = Text(text: string) | Overlong | Eof | Broken

  predicate Terminator(c: char) { c == '\n' || c == '\r' }

  // ---- editing one line ----------------------------------------------------------------

  datatype Edit = Edit(buf: string, overlong: bool)

  predicate Erases(pty: bool, c: char) { pty && (c == DELETE || c == BACKSPACE) }

  predicate Printable(c: char) { ' ' <= c <= '~' }

  /** One byte other than a terminator. */
  function Type(pty: bool, e: Edit, c: char): Edit {
    if e.overlong then e
    else if Erases(pty, c) then (if e.buf == "" then e else e.(buf := e.buf[..|e.buf| - 1]))
    else if |e.buf| >= MAX_LINE then e.(overlong := true)
    else e.(buf := e.buf + [c])
  }

  function EchoFor(pty: bool, e: Edit, c: char): string {
    if !pty || e.overlong then ""
    else if Erases(pty, c) then (if e.buf == "" then "" else [BACKSPACE, ' ', BACKSPACE])
    else if |e.buf| < MAX_LINE && Printable(c) then [c]
    else ""
  }

  function Typed(pty: bool, s: string): Edit {
    if s == "" then Edit("", false) else Type(pty, Typed(pty, s[..|s| - 1]), s[|s| - 1])
  }

  function Echo(pty: bool, s: string): string {
    if s == "" then "" else Echo(pty, s[..|s| - 1]) + EchoFor(pty, Typed(pty, s[..|s| - 1]), s[|s| - 1])
  }

  lemma TypedMore(pty: bool, s: string, c: char)
    ensures Typed(pty, s + [c]) == Type(pty, Typed(pty, s), c)
    ensures Echo(pty, s + [c]) == Echo(pty, s) + EchoFor(pty, Typed(pty, s), c)
  {
    assert (s + [c])[..|s|] == s;
  }

  lemma EchoMore(pty: bool, before: string, s: string, c: char)
    ensures before + Echo(pty, s + [c]) == (before + Echo(pty, s)) + EchoFor(pty, Typed(pty, s), c)
  {
    TypedMore(pty, s, c);
    Texts.Associates(before, Echo(pty, s), EchoFor(pty, Typed(pty, s), c));
  }

  // ---- one global split --------------------------------------------------------------------

  /** The first terminator of `s`, or its length. */
  function FirstEnd(s: string): (r: nat)
    ensures r <= |s| && (r < |s| ==> Terminator(s[r]))
    ensures forall i :: 0 <= i < r ==> !Terminator(s[i])
  {
    if s == "" || Terminator(s[0]) then 0 else 1 + FirstEnd(s[1..])
  }

  lemma {:induction false} FirstEndIs(s: string, n: nat)
    requires n <= |s| && forall i :: 0 <= i < n ==> !Terminator(s[i])
    requires n < |s| ==> Terminator(s[n])
    ensures FirstEnd(s) == n
  {
    if n > 0 {
      FirstEndIs(s[1..], n - 1);
    }
  }

  /** What follows the terminator at `i`: CR LF counts as one. */
  function Beyond(s: string, i: nat): (r: string)
    requires i < |s|
    ensures |r| < |s|
  {
    if s[i] == '\r' && i + 1 < |s| && s[i + 1] == '\n' then s[i + 2..] else s[i + 1..]
  }

  function Ended(e: Edit): Line {
    if e.overlong then Overlong else Text(e.buf)
  }

  /** A final line without a terminator. */
  function Unended(e: Edit, broken: bool): Line {
    if broken then Broken else if !e.overlong && e.buf == "" then Eof else Ended(e)
  }

  predicate Last(line: Line) { line.Eof? || line.Broken? }

  /** Everything that repeated calls return on the bytes `s`, up to the end of
      input. */
  function Lines(pty: bool, s: string, broken: bool): (r: seq<Line>)
    ensures r != []
    decreases |s|
  {
    var i := FirstEnd(s);
    if i < |s| then [Ended(Typed(pty, s[..i]))] + Lines(pty, Beyond(s, i), broken)
    else
      var line := Unended(Typed(pty, s), broken);
      if Last(line) then [line] else [line, Eof]
  }

  /** The input without a line feed that is still to be swallowed. */
  function Unread(rest: string, pendingLF: bool): (r: string)
    ensures |r| <= |rest|
  {
    if pendingLF && rest != "" && rest[0] == '\n' then rest[1..] else rest
  }

  /** One call on the bytes `s`: the line, and what it leaves.  It takes nothing
      beyond the first byte of the terminator, so a bare CR ends the line at
      once. */
  ghost predicate Cut(pty: bool, broken: bool, s: string, line: Line, rest: string, pendingLF: bool) {
    var i := FirstEnd(s);
    if i < |s| then line == Ended(Typed(pty, s[..i])) && rest == s[i + 1..] && pendingLF == (s[i] == '\r')
    else line == Unended(Typed(pty, s), broken) && rest == ""
  }

  /** Each call takes the head of the split and leaves its tail. */
  lemma CutTakesHead(pty: bool, broken: bool, s: string, line: Line, rest: string, pendingLF: bool)
    requires Cut(pty, broken, s, line, rest, pendingLF)
    ensures line == Lines(pty, s, broken)[0]
    ensures !Last(line) ==> Lines(pty, Unread(rest, pendingLF), broken) == Lines(pty, s, broken)[1..]
    ensures !Last(line) ==> |rest| < |s|
    ensures Last(line) ==> Lines(pty, s, broken) == [line]
  {
    var i := FirstEnd(s);
    if i < |s| {
      assert Unread(rest, pendingLF) == Beyond(s, i);
      assert Lines(pty, s, broken) == [line] + Lines(pty, Beyond(s, i), broken);
    } else {
      FirstEndIs("", 0);
    }
  }

  // ---- within one call -----------------------------------------------------------------------

  /** The bytes of the first line of `s`. */
  ghost function Taken(s: string): string { s[..FirstEnd(s)] }

  /** `seen` bytes of `s` are part of the current line, `rest` is to come. */
  ghost predicate Scanning(s: string, seen: string, rest: string, pendingLF: bool) {
    && s == seen + Unread(rest, pendingLF)
    && (seen != "" ==> !pendingLF)
    && forall i :: 0 <= i < |seen| ==> !Terminator(seen[i])
  }

  lemma ScanStarts(rest: string, pendingLF: bool)
    ensures Scanning(Unread(rest, pendingLF), "", rest, pendingLF)
  {
  }

  lemma ScanEnds(pty: bool, broken: bool, s: string, seen: string, pendingLF: bool)
    requires Scanning(s, seen, "", pendingLF)
    ensures Cut(pty, broken, s, Unended(Typed(pty, seen), broken), "", pendingLF) && Taken(s) == seen
  {
    assert s == seen;
    FirstEndIs(s, |s|);
  }

  lemma ScanSwallows(s: string, seen: string, rest: string)
    requires rest != "" && Scanning(s, seen, rest, true)
    ensures Scanning(s, seen, if rest[0] == '\n' then rest[1..] else rest, false)
  {
  }

  lemma ScanStops(pty: bool, broken: bool, s: string, seen: string, rest: string)
    requires rest != "" && Terminator(rest[0]) && Scanning(s, seen, rest, false)
    ensures Cut(pty, broken, s, Ended(Typed(pty, seen)), rest[1..], rest[0] == '\r') && Taken(s) == seen
  {
    FirstEndIs(s, |seen|);
    assert s[..|seen|] == seen && s[|seen|] == rest[0] && s[|seen| + 1..] == rest[1..];
  }

  lemma ScanGoesOn(s: string, seen: string, rest: string)
    requires rest != "" && !Terminator(rest[0]) && Scanning(s, seen, rest, false)
    ensures Scanning(s, seen + [rest[0]], rest[1..], false)
  {
    assert rest == [rest[0]] + rest[1..];
  }

  // ---- the reader -------------------------------------------------------------------------

  class Reader {
    const pty: bool
    const broken: bool
    var rest: string
    var pendingLF: bool
    var out: string

    constructor (pty: bool, input: string, broken: bool)
      ensures this.pty == pty && this.broken == broken && rest == input && !pendingLF && out == ""
      ensures Pending() == input
    {
      this.pty, this.broken, rest, pendingLF, out := pty, broken, input, false, "";
    }

    ghost function Pending(): string
      reads this
    {
      Unread(rest, pendingLF)
    }

    /** What the calls still to come return. */
    ghost function Ahead(): (r: seq<Line>)
      reads this
      ensures r != []
    {
      Lines(pty, Pending(), broken)
    }

    /** The branches for a byte that does not end the line. */
    method TypeByte(e: Edit, b: char) returns (r: Edit)
      modifies this`out
      ensures r == Type(pty, e, b) && out == old(out) + EchoFor(pty, e, b)
    {
      var buf, overlong := e.buf, e.overlong;
      if overlong {
      } else if pty && (b == DELETE || b == BACKSPACE) {
        if |buf| > 0 {
          buf := buf[..|buf| - 1];
          out := out + [BACKSPACE, ' ', BACKSPACE];
        }
      } else if |buf| >= MAX_LINE {
        overlong := true;
      } else {
        buf := buf + [b];
        if pty && Printable(b) {
          out := out + [b];
        }
      }
      r := Edit(buf, overlong);
    }

    /** One iteration of readLine, on the byte at hand. */
    method TakeByte(e: Edit, ghost s: string, ghost seen: string, ghost before: string)
      returns (r: Edit, ended: bool, ghost now: string)
      requires rest != "" && Scanning(s, seen, rest, pendingLF)
      requires e == Typed(pty, seen) && out == before + Echo(pty, seen)
      modifies this
      ensures |rest| < |old(rest)|
      ensures r == Typed(pty, now) && out == before + Echo(pty, now)
      ensures if ended then Cut(pty, broken, s, Ended(r), rest, pendingLF) && Taken(s) == now
              else Scanning(s, now, rest, pendingLF)
    {
      r, ended, now := e, false, seen;
      var b := rest[0];
      if pendingLF {
        ScanSwallows(s, seen, rest);
        pendingLF := false;
        if b == '\n' {
          rest := rest[1..];
          return;
        }
      }
      if Terminator(b) {
        ScanStops(pty, broken, s, seen, rest);
        rest, pendingLF, ended := rest[1..], b == '\r', true;
        return;
      }
      ScanGoesOn(s, seen, rest);
      TypedMore(pty, seen, b);
      EchoMore(pty, before, seen, b);
      rest, now := rest[1..], seen + [b];
      r := TypeByte(e, b);
    }

    method ReadLine() returns (line: Line)
      modifies this
      ensures Cut(pty, broken, old(Pending()), line, rest, pendingLF)
      ensures out == old(out) + Echo(pty, Taken(old(Pending())))
    {
      var e, ended := Edit("", false), false;
      ghost var s, seen := Pending(), "";
      ScanStarts(rest, pendingLF);
      while rest != ""
        invariant Scanning(s, seen, rest, pendingLF)
        invariant e == Typed(pty, seen) && out == old(out) + Echo(pty, seen)
        decreases |rest|
      {
        e, ended, seen := TakeByte(e, s, seen, old(out));
        if ended {
          return Ended(e);
        }
      }
      ScanEnds(pty, broken, s, seen, pendingLF);
      return Unended(e, broken);
    }

    /** The same call, in terms of the lines ahead. */
    method Next() returns (line: Line)
      modifies this
      ensures line == old(Ahead())[0]
      ensures if Last(line) then old(Ahead()) == [line] else Ahead() == old(Ahead())[1..] && |rest| < |old(rest)|
    {
      ghost var s := Pending();
      line := ReadLine();
      CutTakesHead(pty, broken, s, line, rest, pendingLF);
    }
  }

  lemma HeadAndTail(done: seq<Line>, ahead: seq<Line>)
    requires ahead != []
    ensures done + ahead == (done + [ahead[0]]) + ahead[1..]
  {
  }

  /** Repeated calls return the lines of one split of the whole input. */
  method ReadAll(r: Reader) returns (lines: seq<Line>)
    modifies r
    ensures lines == old(r.Ahead())
  {
    lines := [];
    ghost var all, ahead := r.Ahead(), r.Ahead();
    while true
      invariant all == lines + ahead && ahead == r.Ahead()
      decreases |r.rest|
    {
      var line := r.Next();
      HeadAndTail(lines, ahead);
      lines := lines + [line];
      if Last(line) {
        return;
      }
      ahead := r.Ahead();
    }
  }

  // ---- what the lines are ---------------------------------------------------------------------

  /** Without a terminal nothing is edited: a line is its bytes, unless there
      are more than 256 of them. */
  lemma {:induction false} PlainLine(s: string)
    ensures Ended(Typed(false, s)) == if |s| <= 256 then Text(s) else Overlong
    ensures Typed(false, s).buf == s[..if |s| <= 256 then |s| else 256]
    decreases |s|
  {
    if s != "" {
      PlainLine(s[..|s| - 1]);
      assert s == s[..|s| - 1] + [s[|s| - 1]];
    }
  }

  lemma Snoc(s: string, t: string)
    requires t != ""
    ensures s + t == (s + t[..|t| - 1]) + [t[|t| - 1]]
  {
  }

  lemma ErasedAtOnce(s: string, c: char, erase: char)
    requires !Erases(true, c) && Erases(true, erase)
    requires !Typed(true, s).overlong && |Typed(true, s).buf| < MAX_LINE
    ensures Typed(true, s + [c, erase]) == Typed(true, s)
  {
    TypedMore(true, s, c);
    TypedMore(true, s + [c], erase);
    assert s + [c, erase] == s + [c] + [erase];
    assert (Typed(true, s).buf + [c])[..|Typed(true, s).buf|] == Typed(true, s).buf;
  }

  /** On a terminal an erased byte leaves no trace in the line, provided that
      it fitted. */
  lemma {:induction false} ErasureCancels(s: string, c: char, erase: char, t: string)
    requires !Erases(true, c) && Erases(true, erase)
    requires !Typed(true, s).overlong && |Typed(true, s).buf| < MAX_LINE
    ensures Typed(true, s + [c, erase] + t) == Typed(true, s + t)
    decreases |t|
  {
    if t == "" {
      ErasedAtOnce(s, c, erase);
      assert s + [c, erase] + t == s + [c, erase] && s + t == s;
    } else {
      var u, d := t[..|t| - 1], t[|t| - 1];
      ErasureCancels(s, c, erase, u);
      TypedMore(true, s + [c, erase] + u, d);
      TypedMore(true, s + u, d);
      Snoc(s + [c, erase], t);
      Snoc(s, t);
    }
  }

  ghost predicate NoEnd(s: string) {
    forall i :: 0 <= i < |s| ==> !Terminator(s[i])
  }

  predicate Separator(sep: string, next: string) {
    sep == "\n" || sep == "\r\n" || (sep == "\r" && (next == "" || next[0] != '\n'))
  }

  /** A line, one separator and the rest: LF, CR LF, or a CR that no LF follows. */
  lemma LinesCons(pty: bool, a: string, sep: string, b: string, broken: bool)
    requires NoEnd(a) && Separator(sep, b)
    ensures Lines(pty, a + sep + b, broken) == [Ended(Typed(pty, a))] + Lines(pty, b, broken)
  {
    var s := a + sep + b;
    FirstEndIs(s, |a|);
    assert s[..|a|] == a;
    assert Beyond(s, |a|) == b;
  }

  /** What follows the last separator is a line too, unless it is empty. */
  lemma LastLine(a: string, broken: bool)
    requires NoEnd(a)
    ensures Lines(false, a, broken)
            == if broken then [Broken] else if a == "" then [Eof]
               else if |a| <= 256 then [Text(a), Eof] else [Overlong, Eof]
  {
    FirstEndIs(a, |a|);
    PlainLine(a);
  }

  ghost predicate NoErasure(s: string) {
    forall i :: 0 <= i < |s| ==> !Erases(true, s[i])
  }

  /** On a terminal a line without erasing bytes is what it is without one. */
  lemma {:induction false} TerminalLine(s: string)
    requires NoErasure(s)
    ensures Typed(true, s) == Typed(false, s)
  {
    if s != "" {
      TerminalLine(s[..|s| - 1]);
    }
  }

  /** There is nothing to erase at the start of a line. */
  lemma {:induction false} EraseNothing(erase: char, s: string)
    requires Erases(true, erase)
    ensures Typed(true, [erase] + s) == Typed(true, s)
    decreases |s|
  {
    if s == "" {
      TypedMore(true, "", erase);
      assert [erase] + s == [] + [erase];
    } else {
      EraseNothing(erase, s[..|s| - 1]);
      Snoc([erase], s);
      TypedMore(true, [erase] + s[..|s| - 1], s[|s| - 1]);
    }
  }

  /** A line that became too long stays so, whatever is erased. */
  lemma {:induction false} OverlongStays(pty: bool, s: string, t: string)
    requires Typed(pty, s).overlong
    ensures Ended(Typed(pty, s + t)) == Overlong
    decreases |t|
  {
    if t == "" {
      assert s + t == s;
    } else {
      OverlongStays(pty, s, t[..|t| - 1]);
      Snoc(s, t);
      TypedMore(pty, s + t[..|t| - 1], t[|t| - 1]);
    }
  }

  // ---- the echo ----------------------------------------------------------------------------------

  /** One row of a terminal. */
  datatype Row = Row(cells: string, cursor: nat)

  const BLANK := Row("", 0)

  function Put(row: Row, c: char): Row {
    if c == BACKSPACE then row.(cursor := if row.cursor == 0 then 0 else row.cursor - 1)
    else if row.cursor < |row.cells| then Row(row.cells[row.cursor := c], row.cursor + 1)
    else Row(row.cells + [c], |row.cells| + 1)
  }

  function Show(row: Row, out: string): Row {
    if out == "" then row else Put(Show(row, out[..|out| - 1]), out[|out| - 1])
  }

  /** The row shows `buf` with the cursor behind it, and is blank beyond. */
  ghost predicate Shows(row: Row, buf: string) {
    && row.cursor == |buf| <= |row.cells|
    && row.cells[..|buf|] == buf
    && forall i :: |buf| <= i < |row.cells| ==> row.cells[i] == ' '
  }

  lemma {:induction false} ShowMore(row: Row, a: string, b: string)
    ensures Show(row, a + b) == Show(Show(row, a), b)
    decreases |b|
  {
    if b == "" {
      assert a + b == a;
    } else {
      assert (a + b)[..|a + b| - 1] == a + b[..|b| - 1];
      ShowMore(row, a, b[..|b| - 1]);
    }
  }

  /** `c` goes into the line. */
  predicate Appends(e: Edit, c: char) {
    !e.overlong && !Erases(true, c) && |e.buf| < MAX_LINE
  }

  lemma EchoStep(row: Row, e: Edit, c: char)
    requires Shows(row, e.buf) && (Appends(e, c) ==> Printable(c))
    ensures Shows(Show(row, EchoFor(true, e, c)), Type(true, e, c).buf)
  {
    var out := EchoFor(true, e, c);
    if Appends(e, c) {
      assert out == [c] && out[..0] == "";
    } else if out != "" {
      var n := |e.buf|;
      assert out[..2][..1][..0] == "" && out[..2] == [BACKSPACE, ' '] && out[..2][..1] == [BACKSPACE];
      assert Show(row, out[..2][..1]) == row.(cursor := n - 1);
      assert Show(row, out[..2]) == Row(row.cells[n - 1 := ' '], n);
    }
  }

  /** After the bytes `s` the display shows the line typed so far. */
  ghost predicate Tracked(s: string) {
    Shows(Show(BLANK, Echo(true, s)), Typed(true, s).buf)
  }

  ghost predicate Legible(s: string, n: nat)
    requires n < |s|
  {
    Appends(Typed(true, s[..n]), s[n]) ==> Printable(s[n])
  }

  lemma TrackedMore(s: string, n: nat)
    requires n < |s| && Tracked(s[..n])
    ensures Tracked(s[..n + 1]) <==> Legible(s, n)
  {
    var t, c := s[..n], s[n];
    var e, row := Typed(true, t), Show(BLANK, Echo(true, t));
    assert s[..n + 1] == t + [c];
    TypedMore(true, t, c);
    ShowMore(BLANK, Echo(true, t), EchoFor(true, e, c));
    if Legible(s, n) {
      EchoStep(row, e, c);
    }
  }

  lemma {:induction false} TrackedTo(s: string, n: nat)
    requires n <= |s| && forall m :: 0 <= m < |s| ==> Legible(s, m)
    ensures Tracked(s[..n])
  {
    if n > 0 {
      TrackedTo(s, n - 1);
      TrackedMore(s, n - 1);
    }
  }

  /** The echo shows the line being typed at every moment iff every byte that
      went into it is printable. */
  lemma EchoShowsLineIff(s: string)
    ensures (forall n :: 0 <= n <= |s| ==> Tracked(s[..n])) <==> (forall n :: 0 <= n < |s| ==> Legible(s, n))
  {
    if forall n :: 0 <= n < |s| ==> Legible(s, n) {
      forall n | 0 <= n <= |s| ensures Tracked(s[..n]) {
        TrackedTo(s, n);
      }
    }
    if forall n :: 0 <= n <= |s| ==> Tracked(s[..n]) {
      forall n | 0 <= n < |s| ensures Legible(s, n) {
        assert Tracked(s[..n]) && Tracked(s[..n + 1]);
        TrackedMore(s, n);
      }
    }
  }
}
