/** JSON values: a writer for flat arrays and objects of numbers and texts, a reader for all of JSON that
    keeps numbers, texts and null and skips what else it finds inside, and their round trips. */
module JsonValues {
  import opened Utf8
  import opened Json
  import opened Wrappers

  /** A number keeps its digits; `frac` is empty when there is no decimal mark, and `exp` holds the signed
      exponent, if any.  `Other` is a boolean, an array or an object. */
  datatype Element = Number(negative: bool, whole: string, frac: string, exp: string) | Text(text: string) | Null | Other
  datatype Member = Member(key: string, element: Element)

  // ---------------------------------------------------------------- digits

  predicate Digit(c: char) { '0' <= c <= '9' }

  predicate AllDigits(s: string) { forall i :: 0 <= i < |s| ==> Digit(s[i]) }

  function DigitChar(d: int): (c: char)
    requires 0 <= d < 10
    ensures Digit(c)
  {
    ('0' as int + d) as char
  }

  function Digits(n: nat): (s: string)
    ensures AllDigits(s) && s != []
    ensures s[0] == '0' ==> n == 0 && |s| == 1
  {
    if n < 10 then [DigitChar(n)] else Digits(n / 10) + [DigitChar(n % 10)]
  }

  /** The value of a decimal numeral. */
  function NatOf(s: string): nat
    requires AllDigits(s)
  {
    if s == [] then 0 else NatOf(s[..|s| - 1]) * 10 + (s[|s| - 1] as int - '0' as int)
  }

  lemma {:induction false} DigitsBack(n: nat)
    ensures NatOf(Digits(n)) == n
  {
    if n >= 10 {
      DigitsBack(n / 10);
      assert Digits(n)[..|Digits(n)| - 1] == Digits(n / 10);
    }
  }

  function Span(s: string): (n: nat)
    ensures n <= |s| && AllDigits(s[..n])
    ensures n < |s| ==> !Digit(s[n])
  {
    if s == [] || !Digit(s[0]) then 0 else 1 + Span(s[1..])
  }

  predicate Stops(t: string) { t == [] || !Digit(t[0]) }

  lemma SpanOf(d: string, t: string)
    requires AllDigits(d) && Stops(t)
    ensures Span(d + t) == |d|
    ensures (d + t)[..|d|] == d && (d + t)[|d|..] == t
  {
    var s := d + t;
    assert forall i :: 0 <= i < |d| ==> Digit(s[i]);
    assert |d| < |s| ==> s[|d|] == t[0];
    assert forall i :: 0 <= i < Span(s) ==> s[..Span(s)][i] == s[i];
  }

  // ---------------------------------------------------------------- writing

  /** What the writer writes: texts, and numbers without an exponent. */
  predicate WellFormed(e: Element) {
    e.Text? || (e.Number? && e.whole != [] && AllDigits(e.whole) && AllDigits(e.frac)
                && (e.whole[0] == '0' ==> |e.whole| == 1) && e.exp == [])
  }

  function ShowFrac(frac: string): string { if frac == [] then [] else ['.'] + frac }

  function ShowUnsigned(e: Element): string
    requires e.Number?
  {
    e.whole + ShowFrac(e.frac)
  }

  function Show(e: Element): string
    requires WellFormed(e)
  {
    match e
    case Number(negative, _, _, _) => if negative then ['-'] + ShowUnsigned(e) else ShowUnsigned(e)
    case Text(text) => Quote(text)
  }

  // ---------------------------------------------------------------- reading

  datatype Read = NoValue | Value(element: Element, rest: string)

  function ScanExp(negative: bool, whole: string, frac: string, s: string): (r: Read)
    ensures r.Value? ==> |r.rest| <= |s|
  {
    if s == [] || (s[0] != 'e' && s[0] != 'E') then Value(Number(negative, whole, frac, []), s)
    else
      var t := s[1..];
      var sign := if t != [] && (t[0] == '+' || t[0] == '-') then 1 else 0;
      var n := Span(t[sign..]);
      if n == 0 then NoValue else Value(Number(negative, whole, frac, t[..sign + n]), t[sign + n..])
  }

  function ScanFrac(negative: bool, whole: string, s: string): (r: Read)
    ensures r.Value? ==> |r.rest| <= |s|
  {
    if s == [] || s[0] != '.' then ScanExp(negative, whole, [], s)
    else
      var n := Span(s[1..]);
      if n == 0 then NoValue else ScanExp(negative, whole, s[1..][..n], s[1..][n..])
  }

  function ScanUnsigned(negative: bool, s: string): (r: Read)
    ensures r.Value? ==> |r.rest| < |s|
  {
    var n := Span(s);
    if n == 0 || (s[0] == '0' && n > 1) then NoValue else ScanFrac(negative, s[..n], s[n..])
  }

  function ScanLiteral(s: string): (r: Read)
    ensures r.Value? ==> |r.rest| < |s|
  {
    if "null" <= s then Value(Null, s[4..])
    else if "true" <= s then Value(Other, s[4..])
    else if "false" <= s then Value(Other, s[5..])
    else NoValue
  }

  /** The reader refuses to open more arrays and objects than this inside each other. */
  const MAX_DEPTH := 10000

  /** A value inside the outermost array or object. */
  function ScanElement(s: string): (r: Read)
    ensures r.Value? ==> |r.rest| < |s|
  {
    ScanNested(s, 1)
  }

  /** A value inside `depth` open arrays and objects. */
  function ScanNested(s: string, depth: nat): (r: Read)
    ensures r.Value? ==> |r.rest| < |s|
    decreases |s|, 0
  {
    if s == [] then NoValue
    else if s[0] == '\"' then
      ScanShrinks(s[1..]);
      var x := ScanString(s[1..]);
      if x.Bad? then NoValue else Value(Text(x.text), x.rest)
    else if s[0] == '-' then ScanUnsigned(true, s[1..])
    else if Digit(s[0]) then ScanUnsigned(false, s)
    else if (s[0] == '[' || s[0] == '{') && depth >= MAX_DEPTH then NoValue
    else if s[0] == '[' then SkipArray(SkipSpace(s[1..]), true, depth + 1)
    else if s[0] == '{' then SkipObject(SkipSpace(s[1..]), true, depth + 1)
    else ScanLiteral(s)
  }

  /** The rest of a nested array, up to its closing bracket. */
  function SkipArray(s: string, first: bool, depth: nat): (r: Read)
    ensures r.Value? ==> |r.rest| < |s|
    decreases |s|, 1
  {
    if first && s != [] && s[0] == ']' then Value(Other, s[1..])
    else
      var v := ScanNested(s, depth);
      if v.NoValue? then NoValue
      else
        var w := SkipSpace(v.rest);
        if w == [] then NoValue
        else if w[0] == ']' then Value(Other, w[1..])
        else if w[0] == ',' then SkipArray(SkipSpace(w[1..]), false, depth)
        else NoValue
  }

  /** The rest of a nested object, up to its closing brace. */
  function SkipObject(s: string, first: bool, depth: nat): (r: Read)
    ensures r.Value? ==> |r.rest| < |s|
    decreases |s|, 1
  {
    if first && s != [] && s[0] == '}' then Value(Other, s[1..])
    else if s == [] || s[0] != '\"' then NoValue
    else
      ScanShrinks(s[1..]);
      var x := ScanString(s[1..]);
      if x.Bad? then NoValue
      else
        var u := SkipSpace(x.rest);
        if u == [] || u[0] != ':' then NoValue
        else
          var v := ScanNested(SkipSpace(u[1..]), depth);
          if v.NoValue? then NoValue
          else
            var w := SkipSpace(v.rest);
            if w == [] then NoValue
            else if w[0] == '}' then Value(Other, w[1..])
            else if w[0] == ',' then SkipObject(SkipSpace(w[1..]), false, depth)
            else NoValue
  }

  lemma {:induction false} ScanShrinks(s: string)
    ensures ScanString(s).Got? ==> |ScanString(s).rest| < |s|
    decreases |s|
  {
    if s == [] || s[0] == '\"' {
    } else if s[0] == '\\' {
      if |s| >= 2 && s[1] == 'u' && UsedU(s[2..]) > 0 {
        ScanShrinks(s[2 + UsedU(s[2..])..]);
      } else if |s| >= 2 && s[1] != 'u' && Simple(s[1]) != [] {
        ScanShrinks(s[2..]);
      }
    } else if s[0] >= ' ' {
      ScanShrinks(s[UnitLen(s)..]);
    }
  }

  predicate Space(c: char) { c == ' ' || c == '\t' || c == '\n' || c == '\r' }

  function SkipSpace(s: string): (r: string)
    ensures |r| <= |s|
  {
    if s != [] && Space(s[0]) then SkipSpace(s[1..]) else s
  }

  function Cons<T>(x: T, xs: Option<seq<T>>): Option<seq<T>> { if xs.None? then None else Some([x] + xs.value) }

  /** What follows an element of an array. */
  function ScanTail(s: string): Option<seq<Element>>
    decreases |s|
  {
    var u := SkipSpace(s);
    if u == [] then None
    else if u[0] == ']' then if SkipSpace(u[1..]) == [] then Some([]) else None
    else if u[0] != ',' then None
    else
      var v := ScanElement(SkipSpace(u[1..]));
      if v.NoValue? then None else Cons(v.element, ScanTail(v.rest))
  }

  function ScanArray(s: string): Option<seq<Element>> {
    var u := SkipSpace(s);
    if u == [] || u[0] != '[' then None
    else
      var w := SkipSpace(u[1..]);
      if w != [] && w[0] == ']' then if SkipSpace(w[1..]) == [] then Some([]) else None
      else
        var v := ScanElement(w);
        if v.NoValue? then None else Cons(v.element, ScanTail(v.rest))
  }

  // ---------------------------------------------------------------- round trips

  function Clean(e: Element): Element { if e.Text? then Text(Sanitize(e.text)) else e }

  /** Text that may follow a value. */
  predicate Ends(t: string) { t == [] || (!Digit(t[0]) && t[0] != '.' && t[0] != 'e' && t[0] != 'E') }

  lemma FracBack(negative: bool, whole: string, frac: string, t: string)
    requires AllDigits(frac) && Ends(t)
    ensures ScanFrac(negative, whole, ShowFrac(frac) + t) == Value(Number(negative, whole, frac, []), t)
  {
    if frac == [] {
      assert ShowFrac(frac) + t == t;
    } else {
      assert (ShowFrac(frac) + t)[1..] == frac + t;
      SpanOf(frac, t);
    }
  }

  lemma UnsignedBack(e: Element, t: string)
    requires e.Number? && WellFormed(e) && Ends(t)
    ensures ScanUnsigned(e.negative, ShowUnsigned(e) + t) == Value(e, t)
  {
    assert ShowUnsigned(e) + t == e.whole + (ShowFrac(e.frac) + t);
    SpanOf(e.whole, ShowFrac(e.frac) + t);
    FracBack(e.negative, e.whole, e.frac, t);
  }

  lemma TextBack(s: string, text: string, rest: string)
    requires s != [] && s[0] == '\"' && ScanString(s[1..]) == Got(text, rest)
    ensures ScanElement(s) == Value(Text(text), rest)
  {
  }

  lemma PositiveBack(s: string, r: Read)
    requires s != [] && Digit(s[0]) && ScanUnsigned(false, s) == r
    ensures ScanElement(s) == r
  {
  }

  lemma NegativeBack(s: string, u: string, r: Read)
    requires s == ['-'] + u && ScanUnsigned(true, u) == r
    ensures ScanElement(s) == r
  {
    assert s[1..] == u;
  }

  lemma NumberBack(e: Element, t: string)
    requires e.Number? && WellFormed(e) && Ends(t)
    ensures ScanElement(Show(e) + t) == Value(e, t)
  {
    var u := ShowUnsigned(e) + t;
    UnsignedBack(e, t);
    if e.negative {
      Associate(['-'], ShowUnsigned(e), t);
      NegativeBack(Show(e) + t, u, Value(e, t));
    } else {
      assert Digit(u[0]) by { assert u[0] == e.whole[0]; }
      PositiveBack(u, Value(e, t));
    }
  }

  lemma Associate(a: string, b: string, c: string)
    ensures (a + b) + c == a + (b + c)
  {
  }

  lemma ElementBack(e: Element, t: string)
    requires WellFormed(e) && Ends(t)
    ensures ScanElement(Show(e) + t) == Value(Clean(e), t)
  {
    if e.Text? {
      var s := Quote(e.text) + t;
      var u := Escape(e.text) + ['\"'] + t;
      assert s[1..] == u;
      QuoteRoundTrip(e.text, t);
      TextBack(s, Sanitize(e.text), t);
    } else {
      NumberBack(e, t);
    }
  }

  /** The elements after the first, as the recorder separates them. */
  function ShowTail(es: seq<Element>): string
    requires AllWellFormed(es)
  {
    if es == [] then [']'] else [',', ' '] + Show(es[0]) + ShowTail(es[1..])
  }

  function ShowArray(es: seq<Element>): string
    requires es != [] && AllWellFormed(es)
  {
    ['['] + Show(es[0]) + ShowTail(es[1..])
  }

  function CleanAll(es: seq<Element>): seq<Element> {
    if es == [] then [] else [Clean(es[0])] + CleanAll(es[1..])
  }

  predicate AllWellFormed(es: seq<Element>) { forall i :: 0 <= i < |es| ==> WellFormed(es[i]) }

  lemma ShowStarts(e: Element)
    requires WellFormed(e)
    ensures Show(e) != [] && !Space(Show(e)[0]) && Show(e)[0] != ']' && Show(e)[0] != '}'
  {
  }

  lemma SkipOne(t: string)
    requires t != [] && !Space(t[0])
    ensures SkipSpace(t) == t && SkipSpace([' '] + t) == t
  {
    assert ([' '] + t)[1..] == t;
  }

  lemma TailStep(s: string, w: string, e: Element, rest: string, es: seq<Element>)
    requires s == [',', ' '] + w && w != [] && !Space(w[0])
    requires ScanElement(w) == Value(e, rest) && ScanTail(rest) == Some(es)
    ensures ScanTail(s) == Some([e] + es)
  {
    hide ScanElement;
    assert s[1..] == [' '] + w;
    SkipOne(w);
  }

  lemma ElementThenTail(e: Element, rest: string, es: seq<Element>)
    requires WellFormed(e) && Ends(rest) && ScanTail(rest) == Some(es)
    ensures ScanTail([',', ' '] + Show(e) + rest) == Some([Clean(e)] + es)
  {
    ShowStarts(e);
    ElementBack(e, rest);
    var w := Show(e) + rest;
    Associate([',', ' '], Show(e), rest);
    TailStep([',', ' '] + w, w, Clean(e), rest, es);
  }

  lemma {:induction false} TailBack(es: seq<Element>)
    requires AllWellFormed(es)
    ensures ScanTail(ShowTail(es)) == Some(CleanAll(es))
  {
    if es != [] {
      TailBack(es[1..]);
      ElementThenTail(es[0], ShowTail(es[1..]), CleanAll(es[1..]));
    }
  }

  lemma ArrayStep(s: string, w: string, e: Element, rest: string, es: seq<Element>)
    requires s == ['['] + w && w != [] && !Space(w[0]) && w[0] != ']'
    requires ScanElement(w) == Value(e, rest) && ScanTail(rest) == Some(es)
    ensures ScanArray(s) == Some([e] + es)
  {
    assert s[1..] == w;
    SkipOne(w);
  }

  /** Reading a written array gives its elements back, texts with ill-formed bytes replaced. */
  lemma ArrayRoundTrip(es: seq<Element>)
    requires es != [] && AllWellFormed(es)
    ensures ScanArray(ShowArray(es)) == Some(CleanAll(es))
  {
    var rest := ShowTail(es[1..]);
    TailBack(es[1..]);
    ShowStarts(es[0]);
    ElementBack(es[0], rest);
    Associate(['['], Show(es[0]), rest);
    ArrayStep(['['] + Show(es[0]) + rest, Show(es[0]) + rest, Clean(es[0]), rest, CleanAll(es[1..]));
  }

  // ---------------------------------------------------------------- objects

  function ShowMember(m: Member): string
    requires WellFormed(m.element)
  {
    Quote(m.key) + [':'] + Show(m.element)
  }

  function ShowMembers(ms: seq<Member>): string
    requires AllMembersWellFormed(ms)
  {
    if ms == [] then ['}'] else [','] + ShowMember(ms[0]) + ShowMembers(ms[1..])
  }

  function ShowObject(ms: seq<Member>): string
    requires ms != [] && AllMembersWellFormed(ms)
  {
    ['{'] + ShowMember(ms[0]) + ShowMembers(ms[1..])
  }

  datatype ReadMember = NoMember | FoundMember(member: Member, rest: string)

  function ScanValue(key: string, s: string): (r: ReadMember)
    ensures r.FoundMember? ==> |r.rest| <= |s|
  {
    var u := SkipSpace(s);
    if u == [] || u[0] != ':' then NoMember
    else
      var v := ScanElement(SkipSpace(u[1..]));
      if v.NoValue? then NoMember else FoundMember(Member(key, v.element), v.rest)
  }

  function ScanMember(s: string): (r: ReadMember)
    ensures r.FoundMember? ==> |r.rest| < |s|
  {
    if s == [] || s[0] != '\"' then NoMember
    else
      ScanShrinks(s[1..]);
      var x := ScanString(s[1..]);
      if x.Bad? then NoMember else ScanValue(x.text, x.rest)
  }

  function ScanMembers(s: string): Option<seq<Member>>
    decreases |s|
  {
    var u := SkipSpace(s);
    if u == [] then None
    else if u[0] == '}' then if SkipSpace(u[1..]) == [] then Some([]) else None
    else if u[0] != ',' then None
    else
      var v := ScanMember(SkipSpace(u[1..]));
      if v.NoMember? then None else Cons(v.member, ScanMembers(v.rest))
  }

  function ScanObject(s: string): Option<seq<Member>> {
    var u := SkipSpace(s);
    if u == [] || u[0] != '{' then None
    else
      var w := SkipSpace(u[1..]);
      if w != [] && w[0] == '}' then if SkipSpace(w[1..]) == [] then Some([]) else None
      else
        var v := ScanMember(w);
        if v.NoMember? then None else Cons(v.member, ScanMembers(v.rest))
  }

  function CleanMember(m: Member): Member { Member(Sanitize(m.key), Clean(m.element)) }

  function CleanMembers(ms: seq<Member>): seq<Member> {
    if ms == [] then [] else [CleanMember(ms[0])] + CleanMembers(ms[1..])
  }

  predicate AllMembersWellFormed(ms: seq<Member>) { forall i :: 0 <= i < |ms| ==> WellFormed(ms[i].element) }

  lemma ValueStep(key: string, s: string, w: string, e: Element, rest: string)
    requires s == [':'] + w && w != [] && !Space(w[0]) && ScanElement(w) == Value(e, rest)
    ensures ScanValue(key, s) == FoundMember(Member(key, e), rest)
  {
    assert s[1..] == w;
    SkipOne(w);
  }

  lemma MemberStep(s: string, key: string, u: string, r: ReadMember)
    requires s != [] && s[0] == '\"' && ScanString(s[1..]) == Got(key, u) && ScanValue(key, u) == r
    ensures ScanMember(s) == r
  {
  }

  lemma ValueBack(key: string, e: Element, t: string)
    requires WellFormed(e) && Ends(t)
    ensures ScanValue(key, [':'] + Show(e) + t) == FoundMember(Member(key, Clean(e)), t)
  {
    var w := Show(e) + t;
    ShowStarts(e);
    ElementBack(e, t);
    Associate([':'], Show(e), t);
    ValueStep(key, [':'] + w, w, Clean(e), t);
  }

  lemma AfterQuote(a: string, b: string, t: string)
    ensures (((['\"'] + a + ['\"']) + [':'] + b) + t)[1..] == a + ['\"'] + ([':'] + b + t)
  {
  }

  lemma MemberBack(m: Member, t: string)
    requires WellFormed(m.element) && Ends(t)
    ensures ScanMember(ShowMember(m) + t) == FoundMember(CleanMember(m), t)
  {
    var u := [':'] + Show(m.element) + t;
    ValueBack(Sanitize(m.key), m.element, t);
    QuoteRoundTrip(m.key, u);
    AfterQuote(Escape(m.key), Show(m.element), t);
    MemberStep(ShowMember(m) + t, Sanitize(m.key), u, FoundMember(CleanMember(m), t));
  }

  lemma MembersStep(s: string, w: string, m: Member, rest: string, ms: seq<Member>)
    requires s == [','] + w && w != [] && !Space(w[0])
    requires ScanMember(w) == FoundMember(m, rest) && ScanMembers(rest) == Some(ms)
    ensures ScanMembers(s) == Some([m] + ms)
  {
    assert s[1..] == w;
    SkipOne(w);
  }

  lemma MemberThenMembers(m: Member, rest: string, ms: seq<Member>)
    requires WellFormed(m.element) && Ends(rest) && ScanMembers(rest) == Some(ms)
    ensures ScanMembers([','] + ShowMember(m) + rest) == Some([CleanMember(m)] + ms)
  {
    var w := ShowMember(m) + rest;
    MemberBack(m, rest);
    Associate([','], ShowMember(m), rest);
    MembersStep([','] + w, w, CleanMember(m), rest, ms);
  }

  lemma {:induction false} MembersBack(ms: seq<Member>)
    requires AllMembersWellFormed(ms)
    ensures ScanMembers(ShowMembers(ms)) == Some(CleanMembers(ms))
  {
    if ms != [] {
      MembersBack(ms[1..]);
      MemberThenMembers(ms[0], ShowMembers(ms[1..]), CleanMembers(ms[1..]));
    }
  }

  lemma ObjectStep(s: string, w: string, m: Member, rest: string, ms: seq<Member>)
    requires s == ['{'] + w && w != [] && !Space(w[0]) && w[0] != '}'
    requires ScanMember(w) == FoundMember(m, rest) && ScanMembers(rest) == Some(ms)
    ensures ScanObject(s) == Some([m] + ms)
  {
    assert s[1..] == w;
    SkipOne(w);
  }

  /** Reading a written object gives its members back, texts with ill-formed bytes replaced. */
  lemma ObjectRoundTrip(ms: seq<Member>)
    requires ms != [] && AllMembersWellFormed(ms)
    ensures ScanObject(ShowObject(ms)) == Some(CleanMembers(ms))
  {
    var rest := ShowMembers(ms[1..]);
    var w := ShowMember(ms[0]) + rest;
    MembersBack(ms[1..]);
    MemberBack(ms[0], rest);
    Associate(['{'], ShowMember(ms[0]), rest);
    ObjectStep(['{'] + w, w, CleanMember(ms[0]), rest, CleanMembers(ms[1..]));
  }

  // ---------------------------------------------------------------- values stay on one line

  lemma ShowOneLine(e: Element)
    requires WellFormed(e)
    ensures OneLine(Show(e))
  {
    if e.Text? {
      EscapeOneLine(e.text);
    }
  }

  lemma {:induction false} TailOneLine(es: seq<Element>)
    requires AllWellFormed(es)
    ensures OneLine(ShowTail(es))
  {
    if es != [] {
      ShowOneLine(es[0]);
      TailOneLine(es[1..]);
    }
  }

  lemma ArrayOneLine(es: seq<Element>)
    requires es != [] && AllWellFormed(es)
    ensures OneLine(ShowArray(es))
  {
    ShowOneLine(es[0]);
    TailOneLine(es[1..]);
  }

  lemma MemberOneLine(m: Member)
    requires WellFormed(m.element)
    ensures OneLine(ShowMember(m))
  {
    EscapeOneLine(m.key);
    ShowOneLine(m.element);
  }

  lemma {:induction false} MembersOneLine(ms: seq<Member>)
    requires AllMembersWellFormed(ms)
    ensures OneLine(ShowMembers(ms))
  {
    if ms != [] {
      MemberOneLine(ms[0]);
      MembersOneLine(ms[1..]);
    }
  }

  lemma ObjectOneLine(ms: seq<Member>)
    requires ms != [] && AllMembersWellFormed(ms)
    ensures OneLine(ShowObject(ms))
  {
    MemberOneLine(ms[0]);
    MembersOneLine(ms[1..]);
  }

  // ---------------------------------------------------------------- one element at a time

  lemma CleanFirst(e: Element, es: seq<Element>)
    ensures CleanAll([e] + es) == [Clean(e)] + CleanAll(es)
  {
    assert ([e] + es)[1..] == es;
  }

  lemma ShowFirst(e: Element, es: seq<Element>)
    requires WellFormed(e) && AllWellFormed(es)
    ensures AllWellFormed([e] + es)
    ensures ShowTail([e] + es) == ", " + Show(e) + ShowTail(es)
    ensures ShowArray([e] + es) == "[" + Show(e) + ShowTail(es)
  {
    assert ([e] + es)[1..] == es;
  }

  lemma CleanFirstMember(m: Member, ms: seq<Member>)
    ensures CleanMembers([m] + ms) == [CleanMember(m)] + CleanMembers(ms)
  {
    assert ([m] + ms)[1..] == ms;
  }

  // ---------------------------------------------------------------- how deep values may be nested

  /** n arrays inside each other. */
  function Nested(n: nat): string { if n == 0 then [] else ['['] + Nested(n - 1) + [']'] }

  lemma NestedThen(n: nat, t: string)
    requires n >= 1
    ensures Nested(n) + t == ['['] + (Nested(n - 1) + ([']'] + t))
  {
  }

  lemma NestedStarts(n: nat, t: string)
    requires n >= 1
    ensures (Nested(n) + t)[0] == '[' && SkipSpace(Nested(n) + t) == Nested(n) + t
  {
  }

  /** Inside `depth` arrays and objects, n more are skipped exactly if together they are at most 10000. */
  lemma {:induction false} NestedScans(n: nat, depth: nat, t: string)
    requires n >= 1
    ensures ScanNested(Nested(n) + t, depth) == if depth + n <= 10000 then Value(Other, t) else NoValue
    decreases n
  {
    var s := Nested(n) + t;
    NestedThen(n, t);
    if depth >= 10000 {
      TooDeep(s, depth);
    } else if n == 1 {
      assert Nested(0) + ([']'] + t) == [']'] + t;
      EmptyArray(s, t, depth);
    } else {
      NestedStarts(n - 1, [']'] + t);
      NestedScans(n - 1, depth + 1, [']'] + t);
      OneArray(s, Nested(n - 1) + ([']'] + t), t, depth, depth + n <= 10000);
    }
  }

  lemma TooDeep(s: string, depth: nat)
    requires s != [] && s[0] == '[' && depth >= 10000
    ensures ScanNested(s, depth) == NoValue
  {
  }

  lemma EmptyArray(s: string, t: string, depth: nat)
    requires s == ['['] + ([']'] + t) && depth < 10000
    ensures ScanNested(s, depth) == Value(Other, t)
  {
    assert s[1..] == [']'] + t && ([']'] + t)[1..] == t;
    assert SkipSpace([']'] + t) == [']'] + t;
  }

  lemma OneArray(s: string, inner: string, t: string, depth: nat, ok: bool)
    requires s == ['['] + inner && inner != [] && inner[0] == '[' && SkipSpace(inner) == inner && depth < 10000
    requires ScanNested(inner, depth + 1) == if ok then Value(Other, [']'] + t) else NoValue
    ensures ScanNested(s, depth) == if ok then Value(Other, t) else NoValue
  {
    assert s[1..] == inner;
    assert SkipSpace([']'] + t) == [']'] + t && ([']'] + t)[1..] == t;
    ArrayAfter(inner, t, depth + 1, ok);
  }

  lemma ArrayAfter(inner: string, t: string, depth: nat, ok: bool)
    requires inner != [] && inner[0] == '[' && SkipSpace([']'] + t) == [']'] + t
    requires ScanNested(inner, depth) == if ok then Value(Other, [']'] + t) else NoValue
    ensures SkipArray(inner, true, depth) == if ok then Value(Other, t) else NoValue
  {
    hide ScanNested;
    assert ([']'] + t)[1..] == t;
  }

  lemma NestedShape(n: nat)
    requires n >= 1
    ensures Nested(n) == ['['] + (Nested(n - 1) + [']']) && SkipSpace(Nested(n)) == Nested(n)
    ensures n >= 2 ==> (Nested(n - 1) + [']'])[0] == '[' && SkipSpace(Nested(n - 1) + [']']) == Nested(n - 1) + [']']
  {
  }

  lemma OneLevel()
    ensures ScanArray(Nested(1)).Some?
  {
    var close: string := [']'];
    assert Nested(0) + close == close;
    var s := ['['] + close;
    assert Nested(1) == s && s[1..] == close && close[1..] == [];
    SkipOne(close);
    SkipOne(s);
  }

  lemma ElementIs(s: string)
    ensures ScanElement(s) == ScanNested(s, 1)
  {
    hide ScanNested;
  }

  /** A line of arrays inside each other is read exactly if they are at most 10000. */
  lemma NestedIsReadIff(n: nat)
    requires n >= 1
    ensures ScanArray(Nested(n)).Some? <==> n <= 10000
  {
    if n == 1 {
      OneLevel();
    } else {
      hide *;
      var close: string := [']'];
      ElementIs(Nested(n - 1) + close);
      NestedShape(n);
      NestedScans(n - 1, 1, close);
      TailEnds(close);
      OuterArray(Nested(n), Nested(n - 1) + close, close);
    }
  }

  lemma TailEnds(close: string)
    requires close == [']']
    ensures ScanTail(close) == Some([])
  {
    assert close[1..] == [] && SkipSpace(close) == close;
  }

  lemma OuterArray(s: string, inner: string, close: string)
    requires s == ['['] + inner && inner != [] && inner[0] == '[' && SkipSpace(s) == s && SkipSpace(inner) == inner
    requires ScanTail(close) == Some([]) && (ScanElement(inner) == NoValue || ScanElement(inner) == Value(Other, close))
    ensures ScanArray(s).Some? <==> ScanElement(inner).Value?
  {
    hide ScanElement, ScanTail;
    assert s[1..] == inner;
  }
}
