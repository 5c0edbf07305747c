/** Textual renderings that the gateway uses as identities: UUID text, decimal
    integers, the credential associated data and the flight key of the
    verification cache.  Each rendering is proved to lose nothing. */
module Texts {
  datatype Option<+T> = None | Some(value: T)

  const UUID_SPACE := 0x1_0000_0000_0000_0000_0000_0000_0000_0000

  /** A UUID is a 128-bit number; `UuidText` is its canonical rendering. */
  type Uuid = n: int | 0 <= n < UUID_SPACE

  const NIL: Uuid := 0

  // ---- fixed-width hexadecimal ---------------------------------------------

  const HEX_DIGITS := "0123456789abcdef"

  function Pow16(width: nat): (r: int)
    ensures r > 0
  {
    if width == 0 then 1 else 16 * Pow16(width - 1)
  }

  function Hex(n: nat, width: nat): (r: string)
    ensures |r| == width
  {
    if width == 0 then "" else Hex(n / 16, width - 1) + [HEX_DIGITS[n % 16]]
  }

  lemma HexDigitInjective(i: int, j: int)
    requires 0 <= i < 16 && 0 <= j < 16 && HEX_DIGITS[i] == HEX_DIGITS[j]
    ensures i == j
  {
  }

  lemma {:induction false} HexInjective(m: nat, n: nat, width: nat)
    requires m < Pow16(width) && n < Pow16(width)
    requires Hex(m, width) == Hex(n, width)
    ensures m == n
  {
    if width != 0 {
      var s, t := Hex(m, width), Hex(n, width);
      assert s[..width - 1] == Hex(m / 16, width - 1) && t[..width - 1] == Hex(n / 16, width - 1);
      assert s[width - 1] == HEX_DIGITS[m % 16] && t[width - 1] == HEX_DIGITS[n % 16];
      HexDigitInjective(m % 16, n % 16);
      HexInjective(m / 16, n / 16, width - 1);
    }
  }

  function Dashed(h: string): (r: string)
    requires |h| == 32
    ensures |r| == 36
  {
    h[..8] + "-" + h[8..12] + "-" + h[12..16] + "-" + h[16..20] + "-" + h[20..]
  }

  lemma DashedAt(h: string, i: nat)
    requires |h| == 32 && i < 32
    ensures var dashes := if i < 8 then 0 else if i < 12 then 1 else if i < 16 then 2 else if i < 20 then 3 else 4;
            h[i] == Dashed(h)[i + dashes]
  {
  }

  lemma DashedInjective(h: string, k: string)
    requires |h| == |k| == 32 && Dashed(h) == Dashed(k)
    ensures h == k
  {
    forall i | 0 <= i < 32 ensures h[i] == k[i] {
      DashedAt(h, i);
      DashedAt(k, i);
    }
  }

  lemma UuidSpaceIsPow16()
    ensures Pow16(32) == UUID_SPACE
  {
    assert Pow16(8) == 0x1_0000_0000;
    assert Pow16(16) == 0x1_0000_0000_0000_0000;
    assert Pow16(24) == 0x1_0000_0000_0000_0000_0000_0000;
  }

  /** Canonical 8-4-4-4-12 text of a UUID. */
  function UuidText(u: Uuid): (r: string)
    ensures |r| == 36
  {
    Dashed(Hex(u, 32))
  }

  /** Thirty-two digits in order, with dashes after the eighth, twelfth,
      sixteenth and twentieth, and nowhere else. */
  lemma UuidTextShape(u: Uuid)
    ensures var t := UuidText(u);
            && t[8] == t[13] == t[18] == t[23] == '-'
            && forall i :: 0 <= i < 32 ==>
                 var j := i + if i < 8 then 0 else if i < 12 then 1 else if i < 16 then 2 else if i < 20 then 3 else 4;
                 t[j] == Hex(u, 32)[i] != '-'
  {
    HexHasNoDash(u, 32);
    forall i | 0 <= i < 32 {
      DashedAt(Hex(u, 32), i);
    }
  }

  lemma {:induction false} HexHasNoDash(n: nat, width: nat)
    ensures forall i :: 0 <= i < width ==> Hex(n, width)[i] != '-'
  {
    if width > 0 {
      HexHasNoDash(n / 16, width - 1);
      assert forall d :: 0 <= d < 16 ==> HEX_DIGITS[d] != '-';
    }
  }

  lemma UuidTextInjective(u: Uuid, v: Uuid)
    requires UuidText(u) == UuidText(v)
    ensures u == v
  {
    DashedInjective(Hex(u, 32), Hex(v, 32));
    UuidSpaceIsPow16();
    HexInjective(u, v, 32);
  }

  // ---- decimal integers ------------------------------------------------------

  const DIGITS := "0123456789"

  predicate IsDigit(c: char) { '0' <= c <= '9' }

  function DigitValue(c: char): (r: int)
    requires IsDigit(c)
    ensures 0 <= r < 10 && DIGITS[r] == c
  {
    c as int - '0' as int
  }

  predicate AllDigits(s: string) { forall i :: 0 <= i < |s| ==> IsDigit(s[i]) }

  /** The number a digit string denotes. */
  function Digits(s: string): (r: nat)
    requires AllDigits(s)
  {
    if s == "" then 0 else 10 * Digits(s[..|s| - 1]) + DigitValue(s[|s| - 1])
  }

  function NatText(n: nat): (r: string)
    ensures r != "" && AllDigits(r) && Digits(r) == n
  {
    if n < 10 then
      assert [DIGITS[n]][..0] == "";
      [DIGITS[n]]
    else
      var r := NatText(n / 10) + [DIGITS[n % 10]];
      assert r[..|r| - 1] == NatText(n / 10);
      r
  }

  /** strconv.FormatInt in base ten, and strconv.Itoa. */
  function IntText(n: int): (r: string)
    ensures r != ""
  {
    if n < 0 then "-" + NatText(-n) else NatText(n)
  }

  lemma SignOfText(n: int)
    ensures IntText(n)[0] == '-' <==> n < 0
    ensures n < 0 ==> IntText(n)[1..] == NatText(-n)
  {
    if n >= 0 { assert IsDigit(IntText(n)[0]); }
  }

  lemma IntTextInjective(m: int, n: int)
    requires IntText(m) == IntText(n)
    ensures m == n
  {
    SignOfText(m);
    SignOfText(n);
  }

  const MAX_INT := 0x7fff_ffff_ffff_ffff

  /** strconv.Atoi on a 64-bit platform: an optional sign, then at least one
      digit, within the range of int. */
  function Atoi(s: string): (r: Option<int>)
  {
    var signed := s != "" && (s[0] == '-' || s[0] == '+');
    var body := if signed then s[1..] else s;
    if body == "" || !AllDigits(body) then None
    else
      var n: int := if signed && s[0] == '-' then 0 - Digits(body) else Digits(body);
      if -MAX_INT - 1 <= n <= MAX_INT then Some(n) else None
  }

  /** Atoi undoes Itoa on every int. */
  lemma AtoiOfText(n: int)
    requires -MAX_INT - 1 <= n <= MAX_INT
    ensures Atoi(IntText(n)) == Some(n)
  {
    SignOfText(n);
    assert IsDigit(NatText(if n < 0 then -n else n)[0]);
  }

  // ---- composite texts -------------------------------------------------------

  /** The value that a credential ciphertext is bound to. */
  datatype Binding = Binding(deployment: Uuid, account: Uuid, generation: int)

  const AAD_HEAD := "coder-ssh-gateway\nschema=v1\ndeployment="
  const AAD_ACCOUNT := "\naccount="
  const AAD_TAIL := "\nrecord=credential\ngeneration="

  /** CredentialAAD: six lines joined with newlines. */
  function CredentialAad(b: Binding): (r: string)
  {
    Framed(AAD_HEAD, UuidText(b.deployment), AAD_ACCOUNT, UuidText(b.account), AAD_TAIL, IntText(b.generation))
  }

  function Join(lines: seq<string>, sep: string): string {
    if lines == [] then "" else if |lines| == 1 then lines[0] else lines[0] + sep + Join(lines[1..], sep)
  }

  lemma Join6(a: string, b: string, c: string, d: string, e: string, f: string, sep: string)
    ensures Join([a, b, c, d, e, f], sep)
            == a + (sep + (b + (sep + (c + (sep + (d + (sep + (e + (sep + f)))))))))
  {
    var s := [a, b, c, d, e, f];
    assert s[1..] == [b, c, d, e, f] && s[1..][1..] == [c, d, e, f] && s[1..][1..][1..] == [d, e, f];
    assert s[1..][1..][1..][1..] == [e, f] && s[1..][1..][1..][1..][1..] == [f];
    assert Join([e, f], sep) == e + (sep + f);
    assert Join([d, e, f], sep) == d + (sep + (e + (sep + f)));
    assert Join([c, d, e, f], sep) == c + (sep + (d + (sep + (e + (sep + f)))));
    assert Join([b, c, d, e, f], sep) == b + (sep + (c + (sep + (d + (sep + (e + (sep + f)))))));
  }

  lemma Associates(a: string, b: string, c: string)
    ensures (a + b) + c == a + (b + c)
  {
  }

  lemma JoinTail(x: string, e: string, f: string, g: string)
    ensures (x + (e + (x + f))) + g == x + (e + (x + (f + g)))
  {
    Associates(x, e + (x + f), g);
    Associates(e, x + f, g);
    Associates(x, f, g);
  }

  lemma JoinMiddle(x: string, d: string, v: string, rest: string)
    ensures (x + d) + (v + rest) == x + ((d + v) + rest)
  {
    Associates(x, d, v + rest);
    Associates(d, v, rest);
  }

  lemma JoinHead(a: string, x: string, b: string, c: string, u: string, rest: string)
    ensures (a + (x + (b + (x + c)))) + (u + rest) == a + (x + (b + (x + ((c + u) + rest))))
  {
    Associates(a, x + (b + (x + c)), u + rest);
    Associates(x, b + (x + c), u + rest);
    Associates(b, x + c, u + rest);
    Associates(x, c, u + rest);
    Associates(c, u, rest);
  }

  lemma FramedFolds(p: string, u: string, q: string, v: string, r: string, t: string)
    ensures Framed(p, u, q, v, r, t) == p + (u + (q + (v + (r + t))))
  {
    Associates(p + u + q + v, r, t);
    Associates(p + u + q, v, r + t);
    Associates(p + u, q, v + (r + t));
    Associates(p, u, q + (v + (r + t)));
  }

  lemma SixLines(a: string, b: string, c: string, u: string, d: string, v: string, e: string, f: string, g: string,
                 x: string)
    ensures Framed(a + (x + (b + (x + c))), u, x + d, v, x + (e + (x + f)), g)
            == Join([a, b, c + u, d + v, e, f + g], x)
  {
    FramedFolds(a + (x + (b + (x + c))), u, x + d, v, x + (e + (x + f)), g);
    JoinTail(x, e, f, g);
    JoinMiddle(x, d, v, x + (e + (x + (f + g))));
    JoinHead(a, x, b, c, u, x + ((d + v) + (x + (e + (x + (f + g))))));
    Join6(a, b, c + u, d + v, e, f + g, x);
  }

  /** The associated data is these six lines. */
  lemma CredentialAadLines(b: Binding)
    ensures CredentialAad(b)
            == Join(["coder-ssh-gateway", "schema=v1", "deployment=" + UuidText(b.deployment),
                     "account=" + UuidText(b.account), "record=credential",
                     "generation=" + IntText(b.generation)], "\n")
  {
    SixLines("coder-ssh-gateway", "schema=v1", "deployment=", UuidText(b.deployment), "account=", UuidText(b.account),
             "record=credential", "generation=", IntText(b.generation), "\n");
    HeadText();
    TailText();
  }

  lemma HeadText()
    ensures AAD_HEAD == "coder-ssh-gateway" + ("\n" + ("schema=v1" + ("\n" + "deployment=")))
  {
  }

  lemma TailText()
    ensures AAD_ACCOUNT == "\n" + "account=" && AAD_TAIL == "\n" + ("record=credential" + ("\n" + "generation="))
  {
  }

  lemma CutAtWidth(p: string, u: string, rest: string)
    requires |u| == 36
    ensures (p + u + rest)[|p|..|p| + 36] == u
    ensures (p + u + rest)[|p| + 36..] == rest
  {
  }

  lemma SplitEqual(p: string, u: string, rest: string, v: string, rest': string)
    requires |u| == 36 && |v| == 36 && p + u + rest == p + v + rest'
    ensures u == v && rest == rest'
  {
    CutAtWidth(p, u, rest);
    CutAtWidth(p, v, rest');
  }

  /** Two fixed-width fields and a final free field, between fixed separators. */
  function Framed(p: string, u: string, q: string, v: string, r: string, t: string): string {
    p + u + q + v + r + t
  }

  lemma FramedInjective(p: string, q: string, r: string,
                        u: string, v: string, t: string, u': string, v': string, t': string)
    requires |u| == |v| == |u'| == |v'| == 36
    requires Framed(p, u, q, v, r, t) == Framed(p, u', q, v', r, t')
    ensures u == u' && v == v' && t == t'
  {
    assert Framed(p, u, q, v, r, t) == p + u + (q + v + (r + t));
    assert Framed(p, u', q, v', r, t') == p + u' + (q + v' + (r + t'));
    SplitEqual(p, u, q + v + (r + t), u', q + v' + (r + t'));
    SplitEqual(q, v, r + t, v', r + t');
    assert (r + t)[|r|..] == t && (r + t')[|r|..] == t';
  }

  lemma FieldsInjective(p: string, q: string, r: string, a: Binding, b: Binding)
    requires Framed(p, UuidText(a.deployment), q, UuidText(a.account), r, IntText(a.generation))
          == Framed(p, UuidText(b.deployment), q, UuidText(b.account), r, IntText(b.generation))
    ensures a == b
  {
    FramedInjective(p, q, r, UuidText(a.deployment), UuidText(a.account), IntText(a.generation),
                    UuidText(b.deployment), UuidText(b.account), IntText(b.generation));
    UuidTextInjective(a.deployment, b.deployment);
    UuidTextInjective(a.account, b.account);
    IntTextInjective(a.generation, b.generation);
  }

  /** Two bindings have the same associated data only when they are the same
      deployment, account and generation. */
  lemma CredentialAadInjective(a: Binding, b: Binding)
    requires CredentialAad(a) == CredentialAad(b)
    ensures a == b
  {
    FieldsInjective(AAD_HEAD, AAD_ACCOUNT, AAD_TAIL, a, b);
  }

  /** cacheKey.String: the singleflight key of a verification. */
  function FlightKey(b: Binding): (r: string)
  {
    UuidText(b.deployment) + "/" + UuidText(b.account) + "/" + IntText(b.generation)
  }

  lemma FlightKeyInjective(a: Binding, b: Binding)
    requires FlightKey(a) == FlightKey(b)
    ensures a == b
  {
    assert FlightKey(a) == Framed("", UuidText(a.deployment), "/", UuidText(a.account), "/", IntText(a.generation));
    assert FlightKey(b) == Framed("", UuidText(b.deployment), "/", UuidText(b.account), "/", IntText(b.generation));
    FieldsInjective("", "/", "/", a, b);
  }
}
