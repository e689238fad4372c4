/** UTF-8 as Go's unicode/utf8 decodes it.  A byte string is a `string` whose characters stand for
    byte values.
 */
module Utf8 {

  predicate Cont(c: char) { '\U{80}' <= c <= '\U{BF}' }

  /** The second byte allowed after a three- or four-byte lead: overlong forms, surrogates and values
      above U+10FFFF are excluded here (section 4 of RFC 3629). */
  predicate Second(lead: char, c: char) {
    if lead == '\U{E0}' then '\U{A0}' <= c <= '\U{BF}'
    else if lead == '\U{ED}' then '\U{80}' <= c <= '\U{9F}'
    else if lead == '\U{F0}' then '\U{90}' <= c <= '\U{BF}'
    else if lead == '\U{F4}' then '\U{80}' <= c <= '\U{8F}'
    else Cont(c)
  }

  /** Length of the well-formed character at the front, or 0 if there is none. */
  function RuneLen(s: string): (n: nat)
    ensures n <= 4 && n <= |s|
  {
    if s == [] then 0
    else if s[0] < '\U{80}' then 1
    else if '\U{C2}' <= s[0] <= '\U{DF}' then if |s| >= 2 && Cont(s[1]) then 2 else 0
    else if '\U{E0}' <= s[0] <= '\U{EF}' then if |s| >= 3 && Second(s[0], s[1]) && Cont(s[2]) then 3 else 0
    else if '\U{F0}' <= s[0] <= '\U{F4}' then
      if |s| >= 4 && Second(s[0], s[1]) && Cont(s[2]) && Cont(s[3]) then 4 else 0
    else 0
  }

  /** The decoder looks at the character only. */
  lemma RuneLenLocal(s: string, t: string)
    requires RuneLen(s) > 0
    ensures RuneLen(s[..RuneLen(s)] + t) == RuneLen(s)
  {
  }

  /** How much of the input one decoding step consumes: an ill-formed byte counts alone. */
  function UnitLen(s: string): (n: nat)
    requires s != []
    ensures 1 <= n <= |s|
  {
    if RuneLen(s) == 0 then 1 else RuneLen(s)
  }

  /** U+FFFD, the replacement character. */
  const REPLACEMENT := "\U{EF}\U{BF}\U{BD}"

  function CleanUnit(s: string): string
    requires s != []
  {
    if RuneLen(s) == 0 then REPLACEMENT else s[..RuneLen(s)]
  }

  /** Every ill-formed byte replaced by U+FFFD. */
  function Sanitize(s: string): string {
    if s == [] then [] else CleanUnit(s) + Sanitize(s[UnitLen(s)..])
  }

  predicate ValidUtf8(s: string) {
    s == [] || (RuneLen(s) > 0 && ValidUtf8(s[RuneLen(s)..]))
  }

  lemma {:induction false} SanitizeGrows(s: string)
    ensures |Sanitize(s)| >= |s|
    ensures |Sanitize(s)| == |s| <==> ValidUtf8(s)
  {
    if s != [] {
      SanitizeGrows(s[UnitLen(s)..]);
    }
  }

  lemma {:induction false} SanitizeValid(s: string)
    requires ValidUtf8(s)
    ensures Sanitize(s) == s
  {
    if s != [] {
      SanitizeValid(s[RuneLen(s)..]);
    }
  }

  /** Replacement changes a string exactly when it is not valid UTF-8. */
  lemma SanitizeIdentityIff(s: string)
    ensures Sanitize(s) == s <==> ValidUtf8(s)
  {
    SanitizeGrows(s);
    if ValidUtf8(s) {
      SanitizeValid(s);
    }
  }

  function Byte(n: int): char
    requires 0 <= n < 256
  {
    n as char
  }

  /** utf8.AppendRune for a code point that is not a surrogate. */
  function EncodeRune(r: int): string
    requires 0 <= r < 0x110000
  {
    if r < 0x80 then [Byte(r)]
    else if r < 0x800 then [Byte(0xC0 + r / 64), Byte(0x80 + r % 64)]
    else if r < 0x10000 then [Byte(0xE0 + r / 4096), Byte(0x80 + r / 64 % 64), Byte(0x80 + r % 64)]
    else [Byte(0xF0 + r / 262144), Byte(0x80 + r / 4096 % 64), Byte(0x80 + r / 64 % 64), Byte(0x80 + r % 64)]
  }

  lemma EncodeKnown()
    ensures EncodeRune(0xFFFD) == REPLACEMENT
    ensures EncodeRune(0x2028) == "\U{E2}\U{80}\U{A8}"
    ensures EncodeRune(0x2029) == "\U{E2}\U{80}\U{A9}"
  {
    assert Byte(0xE0 + 0xFFFD / 4096) == '\U{EF}' && Byte(0x80 + 0xFFFD / 64 % 64) == '\U{BF}';
    assert Byte(0xE0 + 0x2028 / 4096) == '\U{E2}' && Byte(0x80 + 0x2028 / 64 % 64) == '\U{80}';
  }

  // ---------------------------------------------------------------- the encoding of Unicode scalar values

  predicate Scalar(r: int) { 0 <= r < 0x110000 && !(0xD800 <= r < 0xE000) }

  lemma Digit64(a: int, b: int)
    requires 0 <= b < 64
    ensures (a * 64 + b) / 64 == a && (a * 64 + b) % 64 == b
  {
  }

  lemma Base64(r: int)
    ensures r / 4096 == r / 64 / 64 && r / 262144 == r / 64 / 64 / 64
  {
  }

  lemma TwoBytes(a: int, b: int)
    requires 2 <= a < 32 && 0 <= b < 64
    ensures var r := a * 64 + b; Scalar(r) && EncodeRune(r) == [Byte(0xC0 + a), Byte(0x80 + b)]
  {
    Digit64(a, b);
  }

  lemma ThreeBytes(a: int, b: int, c: int)
    requires 0 <= a < 16 && 0 <= b < 64 && 0 <= c < 64 && (a == 0 ==> b >= 32) && (a == 13 ==> b < 32)
    ensures var r := (a * 64 + b) * 64 + c;
      Scalar(r) && EncodeRune(r) == [Byte(0xE0 + a), Byte(0x80 + b), Byte(0x80 + c)]
  {
    Digit64(a, b);
    Digit64(a * 64 + b, c);
    Base64((a * 64 + b) * 64 + c);
  }

  lemma FourBytes(a: int, b: int, c: int, e: int)
    requires 0 <= a < 5 && 0 <= b < 64 && 0 <= c < 64 && 0 <= e < 64 && (a == 0 ==> b >= 16) && (a == 4 ==> b < 16)
    ensures var r := ((a * 64 + b) * 64 + c) * 64 + e;
      Scalar(r) && EncodeRune(r) == [Byte(0xF0 + a), Byte(0x80 + b), Byte(0x80 + c), Byte(0x80 + e)]
  {
    Digit64(a, b);
    Digit64(a * 64 + b, c);
    Digit64((a * 64 + b) * 64 + c, e);
    Base64(((a * 64 + b) * 64 + c) * 64 + e);
  }

  lemma RuneTwo(s: string)
    requires RuneLen(s) == 2
    ensures var a, b := s[0] as int - 0xC0, s[1] as int - 0x80;
      2 <= a < 32 && 0 <= b < 64 && s[..2] == [Byte(0xC0 + a), Byte(0x80 + b)]
  {
  }

  lemma RuneThree(s: string)
    requires RuneLen(s) == 3
    ensures var a, b, c := s[0] as int - 0xE0, s[1] as int - 0x80, s[2] as int - 0x80;
      && 0 <= a < 16 && 0 <= b < 64 && 0 <= c < 64 && (a == 0 ==> b >= 32) && (a == 13 ==> b < 32)
      && s[..3] == [Byte(0xE0 + a), Byte(0x80 + b), Byte(0x80 + c)]
  {
  }

  lemma RuneFour(s: string)
    requires RuneLen(s) == 4
    ensures var a, b, c, e := s[0] as int - 0xF0, s[1] as int - 0x80, s[2] as int - 0x80, s[3] as int - 0x80;
      && 0 <= a < 5 && 0 <= b < 64 && 0 <= c < 64 && 0 <= e < 64 && (a == 0 ==> b >= 16) && (a == 4 ==> b < 16)
      && s[..4] == [Byte(0xF0 + a), Byte(0x80 + b), Byte(0x80 + c), Byte(0x80 + e)]
  {
  }

  lemma RuneOne(s: string)
    requires RuneLen(s) == 1
    ensures 0 <= s[0] as int < 0x80 && EncodeRune(s[0] as int) == s[..1] && Scalar(s[0] as int)
  {
  }

  /** Every well-formed character is the encoding of a scalar value. */
  lemma RuneIsScalar(s: string) returns (r: int)
    requires RuneLen(s) > 0
    ensures Scalar(r) && EncodeRune(r) == s[..RuneLen(s)]
  {
    hide EncodeRune, RuneLen, Byte;
    if RuneLen(s) == 1 {
      RuneOne(s);
      r := s[0] as int;
    } else if RuneLen(s) == 2 {
      RuneTwo(s);
      TwoBytes(s[0] as int - 0xC0, s[1] as int - 0x80);
      r := (s[0] as int - 0xC0) * 64 + (s[1] as int - 0x80);
    } else if RuneLen(s) == 3 {
      RuneThree(s);
      ThreeBytes(s[0] as int - 0xE0, s[1] as int - 0x80, s[2] as int - 0x80);
      r := ((s[0] as int - 0xE0) * 64 + (s[1] as int - 0x80)) * 64 + (s[2] as int - 0x80);
    } else {
      RuneFour(s);
      FourBytes(s[0] as int - 0xF0, s[1] as int - 0x80, s[2] as int - 0x80, s[3] as int - 0x80);
      r := (((s[0] as int - 0xF0) * 64 + (s[1] as int - 0x80)) * 64 + (s[2] as int - 0x80)) * 64 + (s[3] as int - 0x80);
    }
  }

  /** And every scalar value's encoding is a well-formed character, whatever follows it. */
  lemma ScalarIsRune(r: int, t: string)
    requires Scalar(r)
    ensures RuneLen(EncodeRune(r) + t) == |EncodeRune(r)|
  {
    Base64(r);
  }

  predicate AllScalar(rs: seq<int>) { forall i :: 0 <= i < |rs| ==> Scalar(rs[i]) }

  function EncodeAll(rs: seq<int>): string
    requires AllScalar(rs)
  {
    if rs == [] then [] else EncodeRune(rs[0]) + EncodeAll(rs[1..])
  }

  ghost predicate Encodes(rs: seq<int>, s: string) { AllScalar(rs) && EncodeAll(rs) == s }

  lemma EncodesMore(r: int, rs: seq<int>, t: string)
    requires Scalar(r) && Encodes(rs, t)
    ensures Encodes([r] + rs, EncodeRune(r) + t)
  {
    hide EncodeRune;
    assert ([r] + rs)[1..] == rs;
  }

  lemma ValidFirst(s: string)
    requires s != []
    ensures ValidUtf8(s) <==> RuneLen(s) > 0 && ValidUtf8(s[RuneLen(s)..])
  {
    hide RuneLen;
  }

  lemma EncodesNothing()
    ensures Encodes([], [])
  {
  }

  lemma {:induction false} ValidIsEncoded(s: string) returns (rs: seq<int>)
    requires ValidUtf8(s)
    ensures Encodes(rs, s)
  {
    hide EncodeRune, RuneLen, Scalar, ValidUtf8, Encodes, EncodeAll;
    if s == [] {
      rs := [];
      EncodesNothing();
    } else {
      ValidFirst(s);
      var r := RuneIsScalar(s);
      var rest := ValidIsEncoded(s[RuneLen(s)..]);
      rs := [r] + rest;
      EncodesMore(r, rest, s[RuneLen(s)..]);
      assert s == s[..RuneLen(s)] + s[RuneLen(s)..];
    }
  }

  lemma {:induction false} EncodedIsValid(rs: seq<int>)
    requires AllScalar(rs)
    ensures ValidUtf8(EncodeAll(rs))
  {
    if rs != [] {
      EncodedIsValid(rs[1..]);
      ScalarIsRune(rs[0], EncodeAll(rs[1..]));
      assert EncodeRune(rs[0]) != [];
      hide EncodeRune, RuneLen;
      var c, t := EncodeRune(rs[0]), EncodeAll(rs[1..]);
      assert (c + t)[|c|..] == t;
    }
  }

  /** Valid UTF-8 is exactly what encodes Unicode scalar values: no surrogates, nothing overlong, nothing above
      U+10FFFF. */
  lemma ValidIff(s: string)
    ensures ValidUtf8(s) <==> exists rs :: Encodes(rs, s)
  {
    hide ValidUtf8, EncodeAll;
    if ValidUtf8(s) {
      var rs := ValidIsEncoded(s);
    }
    if rs :| Encodes(rs, s) {
      EncodedIsValid(rs);
    }
  }
}
