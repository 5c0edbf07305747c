/** Terminal modes of a pty request, section 8 of RFC 4254: groups of an opcode
    and a 32-bit value, ended by a zero opcode. */
module TerminalModes {
  import opened Texts

  type Byte = b: int | 0 <= b < 256
  type Word = w: int | 0 <= w < 0x1_0000_0000
  type Modes = map<Byte, Word>

  datatype Group = Group(op: Byte, value: Word)

  // ---- encoding ------------------------------------------------------------------

  function WordBytes(w: Word): (r: seq<Byte>)
    ensures |r| == 4
  {
    [w / 0x100_0000, w / 0x1_0000 % 256, w / 256 % 256, w % 256]
  }

  /** binary.BigEndian.Uint32. */
  function WordOf(s: seq<Byte>): Word
    requires |s| == 4
  {
    var a: int, b: int, c: int, d: int := s[0], s[1], s[2], s[3];
    0x100_0000 * a + 0x1_0000 * b + 256 * c + d
  }

  lemma BytesOfWord(s: seq<Byte>)
    requires |s| == 4
    ensures WordBytes(WordOf(s)) == s
  {
    var a: int, b: int, c: int, d: int := s[0], s[1], s[2], s[3];
    var w: int := WordOf(s);
    assert w / 0x100_0000 == a;
    assert w / 0x1_0000 == 256 * a + b;
    assert w / 256 == 0x1_0000 * a + 256 * b + c;
  }

  lemma WordOfBytes(w: Word)
    ensures WordOf(WordBytes(w)) == w
  {
    var n: int := w;
    assert n / 0x1_0000 == n / 256 / 256 && n / 0x100_0000 == n / 256 / 256 / 256;
  }

  function Encode(groups: seq<Group>): (r: seq<Byte>)
    ensures |r| == 5 * |groups| + 1
  {
    if groups == [] then [0] else [groups[0].op] + WordBytes(groups[0].value) + Encode(groups[1..])
  }

  ghost predicate Nonzero(groups: seq<Group>) {
    forall i :: 0 <= i < |groups| ==> groups[i].op != 0
  }

  /** Last write wins. */
  function Fold(groups: seq<Group>): Modes {
    if groups == [] then map[] else Fold(groups[..|groups| - 1])[groups[|groups| - 1].op := groups[|groups| - 1].value]
  }

  // ---- parsing ---------------------------------------------------------------------

  /** The groups that follow in `raw`, if it is well formed. */
  function Groups(raw: seq<Byte>): (r: Option<seq<Group>>) {
    if raw == [] then None
    else if raw[0] == 0 then (if |raw| == 1 then Some([]) else None)
    else if |raw| < 5 then None
    else
      var rest := Groups(raw[5..]);
      if rest.None? then None else Some([Group(raw[0], WordOf(raw[1..5]))] + rest.value)
  }

  /** Exactly the encodings of nonzero groups parse, and to those groups. */
  lemma {:induction false} GroupsIffEncoded(raw: seq<Byte>, groups: seq<Group>)
    ensures Groups(raw) == Some(groups) <==> Nonzero(groups) && raw == Encode(groups)
    decreases |raw|
  {
    if raw != [] && raw[0] != 0 && |raw| >= 5 {
      BytesOfWord(raw[1..5]);
      assert raw == [raw[0]] + raw[1..5] + raw[5..];
      if groups != [] {
        GroupsIffEncoded(raw[5..], groups[1..]);
        assert groups == [groups[0]] + groups[1..];
        HeadsIff(raw, groups);
      }
    } else if groups != [] {
      assert Encode(groups)[0] == groups[0].op;
    }
  }

  lemma EncodeHead(groups: seq<Group>)
    requires groups != []
    ensures var e := Encode(groups);
            e[0] == groups[0].op && e[1..5] == WordBytes(groups[0].value) && e[5..] == Encode(groups[1..])
  {
  }

  lemma FiveAndRest(raw: seq<Byte>, s: seq<Byte>)
    requires |raw| >= 5 && |s| >= 5
    ensures raw == s <==> raw[0] == s[0] && raw[1..5] == s[1..5] && raw[5..] == s[5..]
  {
    assert raw == [raw[0]] + raw[1..5] + raw[5..] && s == [s[0]] + s[1..5] + s[5..];
  }

  lemma HeadsIff(raw: seq<Byte>, groups: seq<Group>)
    requires |raw| >= 5 && raw[0] != 0 && groups != []
    requires Groups(raw[5..]) == Some(groups[1..]) <==> Nonzero(groups[1..]) && raw[5..] == Encode(groups[1..])
    ensures Groups(raw) == Some(groups) <==> Nonzero(groups) && raw == Encode(groups)
  {
    EncodeHead(groups);
    FiveAndRest(raw, Encode(groups));
    BytesOfWord(raw[1..5]);
    WordOfBytes(groups[0].value);
    NonzeroCons(groups);
    GroupsCons(raw, groups);
  }

  lemma NonzeroCons(groups: seq<Group>)
    requires groups != []
    ensures Nonzero(groups) <==> groups[0].op != 0 && Nonzero(groups[1..])
  {
    assert forall i :: 1 <= i < |groups| ==> groups[i] == groups[1..][i - 1];
  }

  lemma GroupsCons(raw: seq<Byte>, groups: seq<Group>)
    requires |raw| >= 5 && raw[0] != 0 && groups != []
    ensures Groups(raw) == Some(groups)
            <==> groups[0] == Group(raw[0], WordOf(raw[1..5])) && Groups(raw[5..]) == Some(groups[1..])
  {
    assert groups == [groups[0]] + groups[1..];
    if Groups(raw) == Some(groups) {
      assert Groups(raw).value[1..] == Groups(raw[5..]).value;
    }
  }

  lemma FoldAppend(a: seq<Group>, g: Group)
    ensures Fold(a + [g]) == Fold(a)[g.op := g.value]
  {
    assert (a + [g])[..|a|] == a;
  }

  /** Groups of `raw` once the first five bytes are read. */
  lemma GroupsStep(raw: seq<Byte>, read: seq<Group>, rest: seq<Byte>)
    requires |rest| >= 5 && rest[0] != 0
    requires Continues(raw, read, rest)
    ensures Continues(raw, read + [Group(rest[0], WordOf(rest[1..5]))], rest[5..])
  {
    var g := Group(rest[0], WordOf(rest[1..5]));
    if Groups(rest[5..]).Some? {
      assert read + ([g] + Groups(rest[5..]).value) == (read + [g]) + Groups(rest[5..]).value;
    }
  }

  /** `raw` parses iff `rest` does, to `read` and what `rest` parses to. */
  ghost predicate Continues(raw: seq<Byte>, read: seq<Group>, rest: seq<Byte>) {
    Groups(raw) == if Groups(rest).None? then None else Some(read + Groups(rest).value)
  }

  /** parseTerminalModes. */
  method ParseTerminalModes(raw: seq<Byte>) returns (r: Option<Modes>)
    ensures r == if Groups(raw).Some? then Some(Fold(Groups(raw).value)) else None
  {
    var modes: Modes := map[];
    var rest := raw;
    ghost var read: seq<Group> := [];
    assert Groups(raw).Some? ==> [] + Groups(raw).value == Groups(raw).value;
    while |rest| > 0
      invariant modes == Fold(read)
      invariant Continues(raw, read, rest)
      decreases |rest|
    {
      var op := rest[0];
      if op == 0 {
        if |rest| != 1 {
          return None;
        }
        assert read + [] == read;
        return Some(modes);
      }
      if |rest| < 5 {
        return None;
      }
      GroupsStep(raw, read, rest);
      var value := WordOf(rest[1..5]);
      FoldAppend(read, Group(op, value));
      modes := modes[op := value];
      read := read + [Group(op, value)];
      rest := rest[5..];
    }
    return None;
  }

  /** Exactly the byte strings made of five-byte groups with a nonzero opcode
      and one final zero byte are accepted. */
  lemma AcceptedIffEncoded(raw: seq<Byte>)
    ensures Groups(raw).Some? <==> exists groups :: Nonzero(groups) && raw == Encode(groups)
  {
    if Groups(raw).Some? {
      GroupsIffEncoded(raw, Groups(raw).value);
    }
    if groups :| Nonzero(groups) && raw == Encode(groups) {
      GroupsIffEncoded(raw, groups);
    }
  }

  // ---- round trip -------------------------------------------------------------------

  /** A listing of a mode map in any order, as the encoder walks it. */
  ghost predicate Lists(groups: seq<Group>, modes: Modes) {
    && (forall i, j :: 0 <= i < j < |groups| ==> groups[i].op != groups[j].op)
    && (forall i :: 0 <= i < |groups| ==> groups[i].op in modes && modes[groups[i].op] == groups[i].value)
    && (forall op :: op in modes ==> exists i :: 0 <= i < |groups| && groups[i].op == op)
  }

  lemma {:induction false} FoldOfListing(groups: seq<Group>, modes: Modes)
    requires Lists(groups, modes)
    ensures Fold(groups) == modes
    decreases |groups|
  {
    if groups == [] {
      assert modes == map[];
    } else {
      var n := |groups| - 1;
      var last := groups[n];
      var rest := groups[..n];
      forall op | op in modes - {last.op} ensures exists i :: 0 <= i < n && rest[i].op == op {
        var i :| 0 <= i < |groups| && groups[i].op == op;
        assert rest[i].op == op;
      }
      FoldOfListing(rest, modes - {last.op});
    }
  }

  /** Parsing undoes encoding on every mode map without opcode zero, in
      whatever order the encoder lists it. */
  lemma ModesRoundTrip(groups: seq<Group>, modes: Modes)
    requires Lists(groups, modes) && 0 !in modes
    ensures Groups(Encode(groups)) == Some(groups) && Fold(groups) == modes
  {
    assert Nonzero(groups);
    GroupsIffEncoded(Encode(groups), groups);
    FoldOfListing(groups, modes);
  }
}
