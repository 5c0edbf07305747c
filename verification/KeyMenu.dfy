/** The key-management menu: a loop that reads lines, lists keys and makes two
    destructive store calls, here against any pattern of store answers. */
module KeyMenu {
  import opened Texts
  import opened LineReader

  /** What the service does, in order: lines read and store calls made. */
  datatype Act =
    | Read(line: Line)
    | ListKeys(account: Uuid, listed: Option<seq<Uuid>>)
    | DeleteKey(account: Uuid, key: Uuid, ok: bool)
    | DeleteAccount(account: Uuid, ok: bool)

  /** The session, and a store that answers each call as it likes, failures
      included. */
  datatype Session = Session(account: Uuid, sessionKey: Uuid, lists: seq<Act> -> Option<seq<Uuid>>,
                             deletes: seq<Act> -> bool)

  // ---- the menu as an automaton over lines --------------------------------------------------

  datatype Mode = Menu | ConfirmKey(n: nat) | ConfirmAccount | Over

  datatype State = State(mode: Mode, keys: seq<Uuid>, trace: seq<Act>)

  /** renderListing: a failed listing keeps the last one. */
  function Relist(c: Session, s: State): State {
    var listed := c.lists(s.trace);
    State(Menu, if listed.Some? then listed.value else s.keys, s.trace + [ListKeys(c.account, listed)])
  }

  /** The menu number that a line selects. */
  function Selects(keys: seq<Uuid>, line: Line): (r: nat)
    ensures r <= |keys|
  {
    if line.Text? && Atoi(line.text).Some? && 1 <= Atoi(line.text).value <= |keys| then Atoi(line.text).value else 0
  }

  function AtMenu(c: Session, s: State, line: Line): State {
    if Last(line) || line == Text("q") then s.(mode := Over)
    else if line == Text("d") then
      var listed := c.lists(s.trace);
      var t := Relist(c, s);
      if listed.Some? then t.(mode := ConfirmAccount) else Relist(c, t)
    else
      var n := Selects(s.keys, line);
      if n == 0 || line == Text("r") || s.keys[n - 1] == c.sessionKey then Relist(c, s) else s.(mode := ConfirmKey(n))
  }

  predicate Command(line: Line) { line == Text("q") || line == Text("r") || line == Text("d") }

  lemma SelectionAtMenu(c: Session, s: State, line: Line)
    requires line.Text? && !Command(line)
    ensures var n := Selects(s.keys, line);
            AtMenu(c, s, line)
            == if n == 0 || s.keys[n - 1] == c.sessionKey then Relist(c, s) else s.(mode := ConfirmKey(n))
  {
  }

  function AtConfirmKey(c: Session, s: State, n: nat, line: Line): State {
    if Last(line) then s.(mode := Over)
    else if line != Text(IntText(n)) || !(1 <= n <= |s.keys|) then Relist(c, s)
    else Relist(c, s.(trace := s.trace + [DeleteKey(c.account, s.keys[n - 1], c.deletes(s.trace))]))
  }

  function AtConfirmAccount(c: Session, s: State, line: Line): State {
    if Last(line) then s.(mode := Over)
    else if line != Text("DELETE") then Relist(c, s)
    else State(Over, s.keys, s.trace + [DeleteAccount(c.account, c.deletes(s.trace))])
  }

  function Heard(s: State, line: Line): State {
    s.(trace := s.trace + [Read(line)])
  }

  function Feed(c: Session, s: State, line: Line): State {
    match s.mode
    case Menu => AtMenu(c, Heard(s, line), line)
    case ConfirmKey(n) => AtConfirmKey(c, Heard(s, line), n, line)
    case ConfirmAccount => AtConfirmAccount(c, Heard(s, line), line)
    case Over => s
  }

  function FeedAll(c: Session, s: State, lines: seq<Line>): State
    decreases |lines|
  {
    if lines == [] then s else FeedAll(c, Feed(c, s, lines[0]), lines[1..])
  }

  function Opened(c: Session): State {
    Relist(c, State(Menu, [], []))
  }

  lemma {:induction false} OverStays(c: Session, s: State, lines: seq<Line>)
    requires s.mode.Over?
    ensures FeedAll(c, s, lines) == s
    decreases |lines|
  {
    if lines != [] {
      OverStays(c, s, lines[1..]);
    }
  }

  // ---- the service ----------------------------------------------------------------------------

  class Service {
    const session: Session
    var keys: seq<Uuid>
    var trace: seq<Act>

    constructor (session: Session)
      ensures this.session == session && keys == [] && trace == []
    {
      this.session, keys, trace := session, [], [];
    }

    ghost function Now(mode: Mode): State
      reads this
    {
      State(mode, keys, trace)
    }

    method List() returns (listed: Option<seq<Uuid>>)
      modifies this
      ensures listed == session.lists(old(trace)) && Now(Menu) == Relist(session, old(Now(Menu)))
    {
      listed := session.lists(trace);
      trace := trace + [ListKeys(session.account, listed)];
      if listed.Some? {
        keys := listed.value;
      }
    }

    method ReadLine(rd: Reader) returns (line: Line)
      modifies this, rd
      ensures line == old(rd.Ahead())[0] && keys == old(keys) && trace == old(trace) + [Read(line)]
      ensures if Last(line) then old(rd.Ahead()) == [line]
              else rd.Ahead() == old(rd.Ahead())[1..] && |rd.rest| < |old(rd.rest)|
    {
      line := rd.Next();
      trace := trace + [Read(line)];
    }

    /** runKeyRemoval from its prompt on. */
    method ConfirmRemoval(rd: Reader, n: nat) returns (done: bool)
      requires 1 <= n <= |keys|
      modifies this, rd
      ensures done || |rd.rest| <= |old(rd.rest)|
      ensures FeedAll(session, Now(if done then Over else Menu), rd.Ahead())
              == FeedAll(session, old(Now(ConfirmKey(n))), old(rd.Ahead()))
    {
      var key := keys[n - 1];
      var confirm := ReadLine(rd);
      if Last(confirm) {
        OverStays(session, Now(Over), rd.Ahead());
        return true;
      }
      if confirm == Text(IntText(n)) {
        trace := trace + [DeleteKey(session.account, key, session.deletes(trace))];
      }
      var _ := List();
      return false;
    }

    /** runKeyRemoval. */
    method RunKeyRemoval(rd: Reader, line: Line) returns (done: bool)
      requires line.Text? && !Command(line)
      modifies this, rd
      ensures done || |rd.rest| <= |old(rd.rest)|
      ensures FeedAll(session, Now(if done then Over else Menu), rd.Ahead())
              == FeedAll(session, AtMenu(session, old(Now(Menu)), line), old(rd.Ahead()))
    {
      var n := Selects(keys, line);
      SelectionAtMenu(session, Now(Menu), line);
      if n == 0 || keys[n - 1] == session.sessionKey {
        var _ := List();
        return false;
      }
      done := ConfirmRemoval(rd, n);
    }

    /** runAccountDeletion from its prompt on. */
    method ConfirmDeletion(rd: Reader) returns (done: bool)
      modifies this, rd
      ensures done || |rd.rest| <= |old(rd.rest)|
      ensures FeedAll(session, Now(if done then Over else Menu), rd.Ahead())
              == FeedAll(session, old(Now(ConfirmAccount)), old(rd.Ahead()))
    {
      var confirm := ReadLine(rd);
      if !Last(confirm) && confirm != Text("DELETE") {
        var _ := List();
        return false;
      }
      if !Last(confirm) {
        trace := trace + [DeleteAccount(session.account, session.deletes(trace))];
      }
      OverStays(session, Now(Over), rd.Ahead());
      return true;
    }

    /** runAccountDeletion. */
    method RunAccountDeletion(rd: Reader) returns (done: bool)
      modifies this, rd
      ensures done || |rd.rest| <= |old(rd.rest)|
      ensures FeedAll(session, Now(if done then Over else Menu), rd.Ahead())
              == FeedAll(session, AtMenu(session, old(Now(Menu)), Text("d")), old(rd.Ahead()))
    {
      var listed := List();
      if listed.None? {
        var _ := List();
        return false;
      }
      done := ConfirmDeletion(rd);
    }

    /** Run: terminates on every input, and does what the automaton does on the
        lines of that input. */
    method Run(rd: Reader)
      requires keys == [] && trace == []
      modifies this, rd
      ensures Now(Over) == FeedAll(session, Opened(session), old(rd.Ahead()))
    {
      var _ := List();
      while true
        invariant FeedAll(session, Now(Menu), rd.Ahead()) == FeedAll(session, Opened(session), old(rd.Ahead()))
        decreases |rd.rest|
      {
        var line := ReadLine(rd);
        if Last(line) || line == Text("q") {
          OverStays(session, Now(Over), rd.Ahead());
          return;
        }
        if line.Overlong? || line == Text("r") {
          var _ := List();
        } else if line == Text("d") {
          var done := RunAccountDeletion(rd);
          if done {
            OverStays(session, Now(Over), rd.Ahead());
            return;
          }
        } else {
          var done := RunKeyRemoval(rd, line);
          if done {
            OverStays(session, Now(Over), rd.Ahead());
            return;
          }
        }
      }
    }
  }

  // ---- what every session keeps ---------------------------------------------------------------

  /** The listing on display after `trace`: the last one that was loaded. */
  ghost function Displayed(trace: seq<Act>): seq<Uuid> {
    if trace == [] then []
    else
      var last := trace[|trace| - 1];
      if last.ListKeys? && last.listed.Some? then last.listed.value else Displayed(trace[..|trace| - 1])
  }

  /** The key that the last two lines of `trace` ask to remove: a selection on
      the display and the exact repetition of its number. */
  ghost function Wanted(c: Session, trace: seq<Act>): Option<Uuid> {
    var i := |trace|;
    if i < 2 || !trace[i - 2].Read? || !trace[i - 1].Read? then None
    else
      var keys := Displayed(trace);
      var n := Selects(keys, trace[i - 2].line);
      if n == 0 || keys[n - 1] == c.sessionKey || trace[i - 1].line != Text(IntText(n)) then None else Some(keys[n - 1])
  }

  /** Whether `a` deletes a key, and which, is what was asked just before. */
  ghost predicate Obeys(c: Session, before: seq<Act>, a: Act) {
    match Wanted(c, before)
    case None => !a.DeleteKey?
    case Some(key) => a.DeleteKey? && a.account == c.account && a.key == key
  }

  /** Keys are deleted exactly where that was asked, and only those. */
  ghost predicate KeyDeletionsAsked(c: Session, trace: seq<Act>) {
    forall i :: 0 <= i < |trace| ==> Obeys(c, trace[..i], trace[i])
  }

  /** "d" was read, a listing loaded, and "DELETE" was read. */
  ghost predicate DeletionAsked(trace: seq<Act>) {
    var i := |trace|;
    && i >= 3 && trace[i - 3] == Read(Text("d")) && trace[i - 2].ListKeys? && trace[i - 2].listed.Some?
    && trace[i - 1] == Read(Text("DELETE"))
  }

  /** The account is deleted only where that was asked, and then nothing
      follows. */
  ghost predicate AccountDeletionAsked(c: Session, trace: seq<Act>) {
    forall i :: 0 <= i < |trace| && trace[i].DeleteAccount? ==>
      i == |trace| - 1 && trace[i].account == c.account && DeletionAsked(trace[..i])
  }

  ghost predicate Spared(trace: seq<Act>) {
    forall i :: 0 <= i < |trace| ==> !trace[i].DeleteAccount?
  }

  ghost predicate ModeFits(c: Session, s: State) {
    var i := |s.trace|;
    match s.mode
    case Menu => i >= 1 && s.trace[i - 1].ListKeys?
    case ConfirmKey(n) =>
      && i >= 1 && s.trace[i - 1].Read? && n != 0
      && n == Selects(s.keys, s.trace[i - 1].line) && s.keys[n - 1] != c.sessionKey
    case ConfirmAccount =>
      i >= 2 && s.trace[i - 2] == Read(Text("d")) && s.trace[i - 1].ListKeys? && s.trace[i - 1].listed.Some?
    case Over => true
  }

  ghost predicate Inv(c: Session, s: State) {
    && KeyDeletionsAsked(c, s.trace) && Wanted(c, s.trace).None?
    && AccountDeletionAsked(c, s.trace)
    && (!s.mode.Over? ==> Spared(s.trace))
    && Displayed(s.trace) == s.keys
    && ModeFits(c, s)
  }

  lemma Extend(c: Session, trace: seq<Act>, a: Act)
    requires KeyDeletionsAsked(c, trace) && Obeys(c, trace, a)
    ensures KeyDeletionsAsked(c, trace + [a])
  {
    var all := trace + [a];
    forall i | 0 <= i < |all| ensures Obeys(c, all[..i], all[i]) {
      assert all[..i] == trace[..i];
      assert i == |trace| ==> trace[..i] == trace;
    }
  }

  lemma DisplayedMore(trace: seq<Act>, a: Act)
    ensures Displayed(trace + [a]) == if a.ListKeys? && a.listed.Some? then a.listed.value else Displayed(trace)
  {
    assert (trace + [a])[..|trace|] == trace;
  }

  /** The parts of the invariant that do not depend on the mode. */
  ghost predicate Tame(c: Session, s: State) {
    KeyDeletionsAsked(c, s.trace) && Spared(s.trace) && Displayed(s.trace) == s.keys
  }

  lemma TameIsAsked(c: Session, s: State)
    requires Tame(c, s)
    ensures AccountDeletionAsked(c, s.trace)
  {
  }

  lemma RelistTame(c: Session, s: State)
    requires Tame(c, s) && Wanted(c, s.trace).None?
    ensures Inv(c, Relist(c, s))
  {
    var a := ListKeys(c.account, c.lists(s.trace));
    Extend(c, s.trace, a);
    DisplayedMore(s.trace, a);
    TameIsAsked(c, Relist(c, s));
  }

  lemma HeardTame(c: Session, s: State, line: Line)
    requires Tame(c, s) && Wanted(c, s.trace).None?
    ensures Tame(c, Heard(s, line))
  {
    Extend(c, s.trace, Read(line));
    DisplayedMore(s.trace, Read(line));
  }

  lemma MenuKeeps(c: Session, s: State, line: Line)
    requires Inv(c, s) && s.mode.Menu?
    ensures Inv(c, Feed(c, s, line))
  {
    var t := Heard(s, line);
    HeardTame(c, s, line);
    TameIsAsked(c, t);
    assert Wanted(c, t.trace).None?;
    RelistTame(c, t);
    RelistTame(c, Relist(c, t));
    FromMenu(c, t, line);
  }

  /** Where a line read at the menu leads. */
  lemma FromMenu(c: Session, s: State, line: Line)
    requires s.trace != [] && s.trace[|s.trace| - 1] == Read(line)
    ensures var t := AtMenu(c, s, line);
            || t == s.(mode := Over) || t == Relist(c, s) || t == Relist(c, Relist(c, s))
            || (t == Relist(c, s).(mode := ConfirmAccount) && line == Text("d") && c.lists(s.trace).Some?)
            || (t.mode.ConfirmKey? && t == s.(mode := t.mode) && t.mode.n != 0
                && t.mode.n == Selects(s.keys, line) && s.keys[t.mode.n - 1] != c.sessionKey)
  {
  }

  lemma ConfirmKeyKeeps(c: Session, s: State, line: Line)
    requires Inv(c, s) && s.mode.ConfirmKey?
    ensures Inv(c, Feed(c, s, line))
  {
    var t, n := Heard(s, line), s.mode.n;
    HeardTame(c, s, line);
    TameIsAsked(c, t);
    WantedNow(c, s, line);
    if line == Text(IntText(n)) {
      DeleteTame(c, t, DeleteKey(c.account, s.keys[n - 1], c.deletes(t.trace)));
    } else {
      RelistTame(c, t);
    }
  }

  /** A line read at the confirmation asks for the selected key iff it repeats
      the number. */
  lemma WantedNow(c: Session, s: State, line: Line)
    requires s.mode.ConfirmKey? && ModeFits(c, s) && Displayed(s.trace) == s.keys
    ensures Wanted(c, Heard(s, line).trace)
            == if line == Text(IntText(s.mode.n)) then Some(s.keys[s.mode.n - 1]) else None
  {
    var t := Heard(s, line);
    DisplayedMore(s.trace, Read(line));
    assert t.trace[|t.trace| - 2] == s.trace[|s.trace| - 1];
  }

  lemma DeleteTame(c: Session, s: State, a: Act)
    requires Tame(c, s) && a.DeleteKey? && Obeys(c, s.trace, a)
    ensures Inv(c, Relist(c, s.(trace := s.trace + [a])))
  {
    Extend(c, s.trace, a);
    DisplayedMore(s.trace, a);
    RelistTame(c, s.(trace := s.trace + [a]));
  }

  lemma ConfirmAccountKeeps(c: Session, s: State, line: Line)
    requires Inv(c, s) && s.mode.ConfirmAccount?
    ensures Inv(c, Feed(c, s, line))
  {
    var t := Heard(s, line);
    HeardTame(c, s, line);
    TameIsAsked(c, t);
    assert t.trace[|t.trace| - 2] == s.trace[|s.trace| - 1];
    assert Wanted(c, t.trace).None?;
    if line == Text("DELETE") {
      assert t.trace[|t.trace| - 3] == s.trace[|s.trace| - 2];
      AccountDeletionTame(c, t, DeleteAccount(c.account, c.deletes(t.trace)));
    } else {
      RelistTame(c, t);
    }
  }

  lemma AccountDeletionTame(c: Session, s: State, a: Act)
    requires Tame(c, s) && Wanted(c, s.trace).None? && a.DeleteAccount? && a.account == c.account
             && DeletionAsked(s.trace)
    ensures Inv(c, State(Over, s.keys, s.trace + [a]))
  {
    Extend(c, s.trace, a);
    DisplayedMore(s.trace, a);
    assert (s.trace + [a])[..|s.trace|] == s.trace;
  }

  lemma {:induction false} FeedAllKeeps(c: Session, s: State, lines: seq<Line>)
    requires Inv(c, s)
    ensures Inv(c, FeedAll(c, s, lines))
    decreases |lines|
  {
    if lines != [] {
      match s.mode {
        case Menu => MenuKeeps(c, s, lines[0]);
        case ConfirmKey(_) => ConfirmKeyKeeps(c, s, lines[0]);
        case ConfirmAccount => ConfirmAccountKeeps(c, s, lines[0]);
        case Over =>
      }
      FeedAllKeeps(c, Feed(c, s, lines[0]), lines[1..]);
    }
  }

  /** Over every input and every pattern of store answers: a key is deleted
      exactly where a line selected it on the last loaded listing and the next
      line repeated its number, it is never the session's own key and always of
      the session's account; the account is deleted at most once, after "d" and
      "DELETE", as the last act. */
  lemma DestructiveCallsAreAsked(c: Session, lines: seq<Line>)
    ensures var trace := FeedAll(c, Opened(c), lines).trace;
            && KeyDeletionsAsked(c, trace) && Wanted(c, trace).None?
            && AccountDeletionAsked(c, trace)
            && forall i :: 0 <= i < |trace| && trace[i].DeleteKey? ==>
                 trace[i].account == c.account && trace[i].key != c.sessionKey
  {
    var s := State(Menu, [], []);
    RelistTame(c, s);
    FeedAllKeeps(c, Opened(c), lines);
    var trace := FeedAll(c, Opened(c), lines).trace;
    forall i | 0 <= i < |trace| && trace[i].DeleteKey?
      ensures trace[i].account == c.account && trace[i].key != c.sessionKey
    {
      assert Obeys(c, trace[..i], trace[i]);
    }
  }

  /** The number on display selects its key, and is no command. */
  lemma NumberSelectsKey(keys: seq<Uuid>, n: nat)
    requires 1 <= n <= |keys| && n <= MAX_INT
    ensures Selects(keys, Text(IntText(n))) == n && !Command(Text(IntText(n)))
  {
    AtoiOfText(n);
    assert IsDigit(IntText(n)[0]);
  }

  ghost predicate DeletesAfter(start: nat, trace: seq<Act>, account: Uuid, key: Uuid) {
    exists i :: start <= i < |trace| && trace[i].DeleteKey? && trace[i].account == account && trace[i].key == key
  }

  /** From the menu, typing the number of a displayed key twice removes it, iff
      it is not the session's own. */
  lemma RemovableIff(c: Session, s: State, n: nat)
    requires s.mode.Menu? && 1 <= n <= |s.keys| && n <= MAX_INT
    ensures var line := Text(IntText(n));
            var t := Feed(c, Feed(c, s, line), line);
            DeletesAfter(|s.trace|, t.trace, c.account, s.keys[n - 1]) <==> s.keys[n - 1] != c.sessionKey
  {
    var line := Text(IntText(n));
    NumberSelectsKey(s.keys, n);
    SelectionAtMenu(c, Heard(s, line), line);
    var t := Feed(c, s, line);
    if s.keys[n - 1] != c.sessionKey {
      assert Feed(c, t, line).trace[|s.trace| + 2]
             == DeleteKey(c.account, s.keys[n - 1], c.deletes(Heard(t, line).trace));
    } else {
      FromMenu(c, Heard(t, line), line);
    }
  }

  /** From the menu, two lines delete the account iff they are "d" and "DELETE"
      and the listing between them loads. */
  lemma AccountDeletedIff(c: Session, s: State, first: Line, second: Line)
    requires Inv(c, s) && s.mode.Menu?
    ensures !Spared(Feed(c, Feed(c, s, first), second).trace)
            <==> first == Text("d") && c.lists(Heard(s, first).trace).Some? && second == Text("DELETE")
  {
    var t := Feed(c, s, first);
    NotFromMenu(c, s, first);
    match t.mode {
      case Menu => NotFromMenu(c, t, second);
      case ConfirmKey(n) => NotFromKey(c, t, second);
      case ConfirmAccount => FromAccountIff(c, t, second);
      case Over =>
    }
  }

  lemma NotFromMenu(c: Session, s: State, line: Line)
    requires Spared(s.trace) && s.mode.Menu?
    ensures Spared(Feed(c, s, line).trace)
    ensures Feed(c, s, line).mode.ConfirmAccount? <==> line == Text("d") && c.lists(Heard(s, line).trace).Some?
  {
  }

  lemma NotFromKey(c: Session, s: State, line: Line)
    requires Spared(s.trace) && s.mode.ConfirmKey?
    ensures Spared(Feed(c, s, line).trace)
  {
  }

  lemma FromAccountIff(c: Session, s: State, line: Line)
    requires Spared(s.trace) && s.mode.ConfirmAccount?
    ensures Spared(Feed(c, s, line).trace) <==> line != Text("DELETE")
  {
    if line == Text("DELETE") {
      assert Feed(c, s, line).trace[|s.trace| + 1].DeleteAccount?;
    }
  }

  /** A session ends with the input, with "q" at the menu, or with a confirmed
      account deletion, and not otherwise. */
  lemma EndsIff(c: Session, s: State, line: Line)
    requires !s.mode.Over?
    ensures Feed(c, s, line).mode.Over? <==>
            (Last(line) || (s.mode.Menu? && line == Text("q")) || (s.mode.ConfirmAccount? && line == Text("DELETE")))
  {
  }

  /** "q" and the end of input call the store no more. */
  lemma QuitsQuietly(c: Session, s: State, line: Line)
    requires !s.mode.Over? && (Last(line) || (s.mode.Menu? && line == Text("q")))
    ensures Feed(c, s, line) == State(Over, s.keys, s.trace + [Read(line)])
  {
  }

  /** Every other line that confirms nothing and selects nothing shows the keys
      again, loaded afresh, and does nothing else. */
  lemma ShowsAgain(c: Session, s: State, line: Line)
    requires !Last(line)
    requires match s.mode
             case Menu => line == Text("r") || (!Command(line) && (Selects(s.keys, line) == 0
                            || s.keys[Selects(s.keys, line) - 1] == c.sessionKey))
             case ConfirmKey(n) => line != Text(IntText(n))
             case ConfirmAccount => line != Text("DELETE")
             case Over => false
    ensures var t, listed := Feed(c, s, line), c.lists(s.trace + [Read(line)]);
            && t.mode.Menu? && t.trace == s.trace + [Read(line)] + [ListKeys(c.account, listed)]
            && t.keys == if listed.Some? then listed.value else s.keys
  {
  }

  /** Input that ends, ends the session, whatever was asked last. */
  lemma {:induction false} SessionEnds(c: Session, s: State, lines: seq<Line>)
    requires lines != [] && Last(lines[|lines| - 1])
    ensures FeedAll(c, s, lines).mode.Over?
    decreases |lines|
  {
    var t := Feed(c, s, lines[0]);
    if |lines| == 1 {
      OverStays(c, t, lines[1..]);
    } else {
      SessionEnds(c, t, lines[1..]);
    }
  }
}
