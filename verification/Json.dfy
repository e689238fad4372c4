/** JSON strings as Go's encoding/json writes and reads them (section 7 of RFC 8259, with the encoder's
    HTML-safe escapes).
 */
module Json {
  import opened Utf8

  // ---------------------------------------------------------------- writing strings

  function Hex(d: int): char
    requires 0 <= d < 16
  {
    if d < 10 then ('0' as int + d) as char else ('a' as int + d - 10) as char
  }

  /** The encoder's escape of one ASCII byte. */
  function EscapeAscii(c: char): string
    requires c < '\U{80}'
  {
    if c == '\"' || c == '\\' then ['\\', c]
    else if c == '\U{08}' then ['\\', 'b']
    else if c == '\U{0C}' then ['\\', 'f']
    else if c == '\n' then ['\\', 'n']
    else if c == '\r' then ['\\', 'r']
    else if c == '\t' then ['\\', 't']
    else if c < ' ' || c == '<' || c == '>' || c == '&' then
      ['\\', 'u', '0', '0', Hex(c as int / 16), Hex(c as int % 16)]
    else [c]
  }

  const LINE_SEPARATOR := "\U{E2}\U{80}\U{A8}"
  const PARAGRAPH_SEPARATOR := "\U{E2}\U{80}\U{A9}"

  /** The escape of the character at the front, or of one ill-formed byte. */
  function EscapeUnit(s: string): string
    requires s != []
  {
    var n := RuneLen(s);
    if n == 0 then "\\ufffd"
    else if n == 1 then EscapeAscii(s[0])
    else if s[..n] == LINE_SEPARATOR then "\\u2028"
    else if s[..n] == PARAGRAPH_SEPARATOR then "\\u2029"
    else s[..n]
  }

  function Escape(s: string): string {
    if s == [] then [] else EscapeUnit(s) + Escape(s[UnitLen(s)..])
  }

  function Quote(s: string): string { ['\"'] + Escape(s) + ['\"'] }

  // ---------------------------------------------------------------- reading strings

  datatype Scan = Bad | Got(text: string, rest: string)

  function Prepend(p: string, x: Scan): Scan { if x.Bad? then Bad else Got(p + x.text, x.rest) }

  function HexVal(c: char): int {
    if '0' <= c <= '9' then c as int - '0' as int
    else if 'a' <= c <= 'f' then c as int - 'a' as int + 10
    else if 'A' <= c <= 'F' then c as int - 'A' as int + 10
    else -1
  }

  /** Four hexadecimal digits, or -1. */
  function U4(s: string): (r: int)
    ensures -1 <= r < 0x10000
  {
    if |s| < 4 || HexVal(s[0]) < 0 || HexVal(s[1]) < 0 || HexVal(s[2]) < 0 || HexVal(s[3]) < 0 then -1
    else HexVal(s[0]) * 4096 + HexVal(s[1]) * 256 + HexVal(s[2]) * 16 + HexVal(s[3])
  }

  predicate HighSurrogate(r: int) { 0xD800 <= r < 0xDC00 }
  predicate LowSurrogate(r: int) { 0xDC00 <= r < 0xE000 }

  predicate Paired(s: string) {
    HighSurrogate(U4(s)) && |s| >= 10 && s[4] == '\\' && s[5] == 'u' && LowSurrogate(U4(s[6..]))
  }

  /** Input consumed by a \u escape, counted after its first two characters; 0 if it is malformed. */
  function UsedU(s: string): (n: nat)
    ensures n <= |s|
  {
    if U4(s) < 0 then 0 else if Paired(s) then 10 else 4
  }

  /** The bytes a \u escape stands for.  A lone surrogate is read as U+FFFD. */
  function TextU(s: string): string
    requires UsedU(s) > 0
  {
    if Paired(s) then EncodeRune(0x10000 + (U4(s) - 0xD800) * 1024 + (U4(s[6..]) - 0xDC00))
    else if HighSurrogate(U4(s)) || LowSurrogate(U4(s)) then REPLACEMENT
    else EncodeRune(U4(s))
  }

  /** The byte meant by a backslash and this character, or [] if the pair is not an escape. */
  function Simple(c: char): string {
    if c == '\"' || c == '\\' || c == '/' then [c]
    else if c == 'b' then ['\U{08}']
    else if c == 'f' then ['\U{0C}']
    else if c == 'n' then ['\n']
    else if c == 'r' then ['\r']
    else if c == 't' then ['\t']
    else []
  }

  /** Reads string contents up to the closing quote: escapes are undone, control characters are refused
      and ill-formed bytes become U+FFFD. */
  function ScanString(s: string): Scan
    decreases |s|
  {
    if s == [] then Bad
    else if s[0] == '\"' then Got([], s[1..])
    else if s[0] == '\\' then
      if |s| < 2 then Bad
      else if s[1] == 'u' then
        var n := UsedU(s[2..]);
        if n == 0 then Bad else Prepend(TextU(s[2..]), ScanString(s[2 + n..]))
      else if Simple(s[1]) == [] then Bad
      else Prepend(Simple(s[1]), ScanString(s[2..]))
    else if s[0] < ' ' then Bad
    else Prepend(CleanUnit(s), ScanString(s[UnitLen(s)..]))
  }

  // ---------------------------------------------------------------- strings round trip

  lemma HexBack(d: int)
    requires 0 <= d < 16
    ensures HexVal(Hex(d)) == d
  {
  }

  lemma ScanEscape(c: char, t: string)
    requires Simple(c) != []
    ensures ScanString(['\\', c] + t) == Prepend(Simple(c), ScanString(t))
  {
    var s := ['\\', c] + t;
    assert c != 'u';
    assert |s| >= 2 && s[0] == '\\' && s[1] == c && s[2..] == t;
  }

  lemma ScanHex(a: char, b: char, c: char, d: char, t: string)
    requires HexVal(a) >= 0 && HexVal(b) >= 0 && HexVal(c) >= 0 && HexVal(d) >= 0
    requires !HighSurrogate(U4([a, b, c, d])) && !LowSurrogate(U4([a, b, c, d]))
    ensures ScanString(['\\', 'u', a, b, c, d] + t) == Prepend(EncodeRune(U4([a, b, c, d])), ScanString(t))
  {
    var s := ['\\', 'u', a, b, c, d] + t;
    assert s[2..] == [a, b, c, d] + t;
    assert s[6..] == t;
    assert U4(s[2..]) == U4([a, b, c, d]);
  }

  lemma ScanControl(c: char, t: string)
    requires c < '\U{80}' && |EscapeAscii(c)| == 6
    ensures ScanString(EscapeAscii(c) + t) == Prepend([c], ScanString(t))
  {
    hide ScanString;
    var n := c as int;
    var a, b := Hex(n / 16), Hex(n % 16);
    HexBack(n / 16);
    HexBack(n % 16);
    assert U4(['0', '0', a, b]) == n;
    ScanHex('0', '0', a, b, t);
    assert EncodeRune(n) == [c];
  }

  lemma ScanPlain(c: char, t: string)
    requires ' ' <= c < '\U{80}' && c != '\"' && c != '\\'
    ensures ScanString([c] + t) == Prepend([c], ScanString(t))
  {
    assert ([c] + t)[1..] == t;
    assert ([c] + t)[..1] == [c];
  }

  lemma ScanAscii(c: char, t: string)
    requires c < '\U{80}'
    ensures ScanString(EscapeAscii(c) + t) == Prepend([c], ScanString(t))
  {
    hide ScanString, Hex;
    var e := EscapeAscii(c);
    if |e| == 2 {
      assert Simple(e[1]) == [c];
      ScanEscape(e[1], t);
    } else if |e| == 6 {
      ScanControl(c, t);
    } else {
      ScanPlain(c, t);
    }
  }

  lemma ScanRaw(u: string, t: string)
    requires RuneLen(u) == |u| > 1
    ensures ScanString(u + t) == Prepend(u, ScanString(t))
  {
    RuneLenLocal(u, t);
    assert u[..|u|] == u;
    assert (u + t)[..|u|] == u;
    assert (u + t)[|u|..] == t;
  }

  lemma ScanUnit(s: string, t: string)
    requires s != []
    ensures ScanString(EscapeUnit(s) + t) == Prepend(CleanUnit(s), ScanString(t))
  {
    var n := RuneLen(s);
    EncodeKnown();
    if n == 0 {
      ScanHex('f', 'f', 'f', 'd', t);
    } else if n == 1 {
      ScanAscii(s[0], t);
      assert s[..1] == [s[0]];
    } else if s[..n] == LINE_SEPARATOR {
      ScanHex('2', '0', '2', '8', t);
    } else if s[..n] == PARAGRAPH_SEPARATOR {
      ScanHex('2', '0', '2', '9', t);
    } else {
      RuneLenLocal(s, []);
      assert s[..n] + [] == s[..n];
      ScanRaw(s[..n], t);
    }
  }

  /** Reading back what the encoder wrote gives the string with its ill-formed bytes replaced, and stops
      exactly at the closing quote. */
  lemma {:induction false} QuoteRoundTrip(s: string, t: string)
    ensures ScanString(Escape(s) + ['\"'] + t) == Got(Sanitize(s), t)
  {
    if s == [] {
      assert Escape(s) + ['\"'] + t == ['\"'] + t;
    } else {
      var rest := s[UnitLen(s)..];
      QuoteRoundTrip(rest, t);
      ScanUnit(s, Escape(rest) + ['\"'] + t);
      Regroup(EscapeUnit(s), Escape(rest), ['\"'], t);
    }
  }

  lemma Regroup(a: string, b: string, c: string, d: string)
    ensures (a + b) + c + d == a + (b + c + d)
  {
  }

  predicate OneLine(s: string) { '\n' !in s && '\r' !in s }

  lemma EscapeUnitOneLine(s: string)
    requires s != []
    ensures OneLine(EscapeUnit(s))
  {
    var n := RuneLen(s);
    if n > 1 {
      assert forall i :: 0 <= i < n ==> s[i] >= '\U{80}';
    }
  }

  lemma {:induction false} EscapeOneLine(s: string)
    ensures OneLine(Escape(s))
  {
    if s != [] {
      EscapeUnitOneLine(s);
      EscapeOneLine(s[UnitLen(s)..]);
    }
  }

  /** Characters a page may carry inside a script element: no control character, no angle bracket, no ampersand. */
  predicate Safe(s: string) { forall i :: 0 <= i < |s| ==> s[i] >= ' ' && s[i] != '<' && s[i] != '>' && s[i] != '&' }

  lemma EscapeAsciiSafe(c: char)
    requires c < '\U{80}'
    ensures Safe(EscapeAscii(c))
  {
  }

  lemma EscapeUnitSafe(s: string)
    requires s != []
    ensures Safe(EscapeUnit(s))
  {
    hide EscapeAscii;
    if RuneLen(s) == 1 { EscapeAsciiSafe(s[0]); }
  }

  /** Encoded text is safe in that sense. */
  lemma {:induction false} EscapeIsSafe(s: string)
    ensures Safe(Escape(s))
  {
    if s != [] {
      EscapeUnitSafe(s);
      hide EscapeUnit, RuneLen;
      EscapeIsSafe(s[UnitLen(s)..]);
    }
  }
}
