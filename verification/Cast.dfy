/** Session recordings in asciicast v2 form (internal/recording/recorder.go, player.go).  The writer
    appends a JSON header line and one JSON array per output chunk; the player reads the file back.
    The main theorem says exactly what the player gets from any file the writer produced.
 */
module Cast {
  import opened Utf8
  import opened Json
  import opened JsonValues
  import opened Wrappers

  datatype Header = Header(version: int, width: int, height: int, timestamp: int, title: string)

  /** A duration that is not negative: 64 bits of nanoseconds. */
  type Nanos = n: nat | n < 0x8000_0000_0000_0000

  /** The time between two instants; a difference too long for a duration becomes the longest one. */
  function Since(start: nat, now: nat): (d: Nanos)
    requires start <= now
  {
    if now - start < 0x8000_0000_0000_0000 then now - start else 0x7FFF_FFFF_FFFF_FFFF
  }

  /** An output chunk and the nanoseconds since the recording began. */
  datatype Chunk = Chunk(elapsed: Nanos, data: string)

  datatype Event = Event(offset: real, kind: string, data: string)

  // ---------------------------------------------------------------- integers

  predicate Int64(n: int) { -0x8000_0000_0000_0000 <= n < 0x8000_0000_0000_0000 }

  function IntElement(n: int): Element { Number(n < 0, Digits(if n < 0 then -n else n), [], []) }

  function Signed(negative: bool, n: int): int { if negative then -n else n }

  /** An integer field refuses texts, fractions and values out of range. */
  function IntOf(e: Element): Option<int> {
    if !WellFormed(e) || e.Text? || e.frac != [] then None
    else
      var n := Signed(e.negative, NatOf(e.whole));
      if Int64(n) then Some(n) else None
  }

  lemma IntBack(n: int)
    requires Int64(n)
    ensures WellFormed(IntElement(n)) && IntOf(IntElement(n)) == Some(n)
  {
    DigitsBack(if n < 0 then -n else n);
  }

  // ---------------------------------------------------------------- header

  function HeaderMembers(h: Header): seq<Member> {
    [Member("version", IntElement(h.version)), Member("width", IntElement(h.width)),
     Member("height", IntElement(h.height)), Member("timestamp", IntElement(h.timestamp))]
    + if h.title == [] then [] else [Member("title", Text(h.title))]
  }

  function HeaderText(h: Header): string {
    HeaderWellFormed(h);
    ShowObject(HeaderMembers(h))
  }

  /** Keys match their field in any case; the long s folds to S as well. */
  function Fold(s: string): string {
    if s == [] then []
    else if 'a' <= s[0] <= 'z' then [(s[0] as int - 32) as char] + Fold(s[1..])
    else if |s| >= 2 && s[0] == '\U{C5}' && s[1] == '\U{BF}' then ['S'] + Fold(s[2..])
    else [s[0]] + Fold(s[1..])
  }

  predicate IntField(name: string) { name == "VERSION" || name == "WIDTH" || name == "HEIGHT" || name == "TIMESTAMP" }

  function SetField(h: Header, name: string, n: int): Header
    requires IntField(name)
  {
    if name == "VERSION" then h.(version := n)
    else if name == "WIDTH" then h.(width := n)
    else if name == "HEIGHT" then h.(height := n)
    else h.(timestamp := n)
  }

  /** One member into the struct; unknown keys are ignored and null leaves a field as it is. */
  function Assign(h: Header, m: Member): Option<Header> {
    var name := Fold(m.key);
    if name != "TITLE" && !IntField(name) then Some(h)
    else if m.element.Null? then Some(h)
    else if name == "TITLE" then if m.element.Text? then Some(h.(title := m.element.text)) else None
    else
      var n := IntOf(m.element);
      if n.None? then None else Some(SetField(h, name, n.value))
  }

  function AssignAll(h: Header, ms: seq<Member>): Option<Header>
    decreases |ms|
  {
    if ms == [] then Some(h)
    else
      var g := Assign(h, ms[0]);
      if g.None? then None else AssignAll(g.value, ms[1..])
  }

  const ZERO := Header(0, 0, 0, 0, [])

  predicate IsNull(line: string) {
    var u := SkipSpace(line);
    "null" <= u && SkipSpace(u[4..]) == []
  }

  function ParseHeader(line: string): Option<Header> {
    var ms := ScanObject(line);
    if IsNull(line) then Some(ZERO) else if ms.None? then None else AssignAll(ZERO, ms.value)
  }

  predicate HeaderInRange(h: Header) {
    Int64(h.version) && Int64(h.width) && Int64(h.height) && Int64(h.timestamp)
  }

  lemma {:induction false} AsciiValid(s: string)
    requires forall i :: 0 <= i < |s| ==> s[i] < '\U{80}'
    ensures ValidUtf8(s)
  {
    if s != [] {
      AsciiValid(s[1..]);
    }
  }

  lemma AsciiKept(s: string)
    requires forall i :: 0 <= i < |s| ==> s[i] < '\U{80}'
    ensures Sanitize(s) == s
  {
    AsciiValid(s);
    SanitizeIdentityIff(s);
  }

  /** The names used in a recording are plain letters. */
  lemma NameKept(name: string)
    requires name in {"version", "width", "height", "timestamp", "title", "o"}
    ensures Sanitize(name) == name
  {
    AsciiKept(name);
  }

  function CleanHeader(h: Header): Header { h.(title := Sanitize(h.title)) }

  lemma AssignFirst(h: Header, g: Header, m: Member, ms: seq<Member>, r: Option<Header>)
    requires Assign(h, m) == Some(g) && AssignAll(g, ms) == r
    ensures AssignAll(h, [m] + ms) == r
  {
    assert ([m] + ms)[1..] == ms;
  }

  lemma {:induction false} FoldLetters(s: string, t: string)
    requires |s| == |t| && forall i :: 0 <= i < |s| ==> 'a' <= s[i] <= 'z' && t[i] as int == s[i] as int - 32
    ensures Fold(s) == t
  {
    if s != [] {
      FoldLetters(s[1..], t[1..]);
      assert t == [t[0]] + t[1..];
    }
  }

  /** A field's key and its folded name. */
  predicate FieldName(key: string, name: string) {
    || (key == "version" && name == "VERSION") || (key == "width" && name == "WIDTH")
    || (key == "height" && name == "HEIGHT") || (key == "timestamp" && name == "TIMESTAMP")
    || (key == "title" && name == "TITLE")
  }

  lemma FoldField(key: string, name: string)
    requires FieldName(key, name)
    ensures Fold(key) == name
  {
    FoldLetters(key, name);
  }

  lemma AssignOne(h: Header, key: string, name: string, n: int)
    requires FieldName(key, name) && IntField(name) && Int64(n)
    ensures Assign(h, Member(key, IntElement(n))) == Some(SetField(h, name, n))
  {
    hide Fold;
    IntBack(n);
    FoldField(key, name);
    assert name != "TITLE";
  }

  /** An integer member under its own name sets that field and goes on with the rest. */
  lemma AssignInt(h: Header, key: string, name: string, n: int, ms: seq<Member>)
    requires FieldName(key, name) && IntField(name) && Int64(n)
    ensures AssignAll(h, CleanMembers([Member(key, IntElement(n))] + ms))
         == AssignAll(SetField(h, name, n), CleanMembers(ms))
  {
    hide Fold;
    NameKept(key);
    AssignOne(h, key, name, n);
    var m := Member(key, IntElement(n));
    CleanFirstMember(m, ms);
    var g := SetField(h, name, n);
    AssignFirst(h, g, m, CleanMembers(ms), AssignAll(g, CleanMembers(ms)));
  }

  function TitleMembers(title: string): seq<Member> {
    if title == [] then [] else [Member("title", Text(title))]
  }

  lemma AssignTitle(h: Header, title: string)
    requires h.title == []
    ensures AssignAll(h, CleanMembers(TitleMembers(title))) == Some(h.(title := Sanitize(title)))
  {
    if title != [] {
      hide Fold;
      NameKept("title");
      FoldField("title", "TITLE");
      var m := Member("title", Text(title));
      CleanFirstMember(m, []);
      var g := h.(title := Sanitize(title));
      AssignFirst(h, g, CleanMember(m), [], Some(g));
      assert [m] + [] == TitleMembers(title);
    }
  }

  lemma HeaderFields(h: Header)
    requires HeaderInRange(h)
    ensures AssignAll(ZERO, CleanMembers(HeaderMembers(h))) == Some(CleanHeader(h))
  {
    hide AssignAll, CleanMembers, Sanitize, IntElement, Int64;
    var t := TitleMembers(h.title);
    var c := [Member("timestamp", IntElement(h.timestamp))] + t;
    var b := [Member("height", IntElement(h.height))] + c;
    var a := [Member("width", IntElement(h.width))] + b;
    assert HeaderMembers(h) == [Member("version", IntElement(h.version))] + a;
    AssignInt(ZERO, "version", "VERSION", h.version, a);
    AssignInt(Header(h.version, 0, 0, 0, []), "width", "WIDTH", h.width, b);
    AssignInt(Header(h.version, h.width, 0, 0, []), "height", "HEIGHT", h.height, c);
    AssignInt(Header(h.version, h.width, h.height, 0, []), "timestamp", "TIMESTAMP", h.timestamp, t);
    AssignTitle(Header(h.version, h.width, h.height, h.timestamp, []), h.title);
  }

  lemma HeaderWellFormed(h: Header)
    ensures AllMembersWellFormed(HeaderMembers(h))
  {
  }

  lemma NotNull(s: string)
    requires s != [] && s[0] == '{'
    ensures !IsNull(s)
  {
    assert SkipSpace(s) == s;
  }

  /** The header survives, its title with ill-formed bytes replaced. */
  lemma HeaderRoundTrip(h: Header)
    requires HeaderInRange(h)
    ensures ParseHeader(HeaderText(h)) == Some(CleanHeader(h))
  {
    hide ScanObject, AssignAll;
    HeaderWellFormed(h);
    ObjectRoundTrip(HeaderMembers(h));
    HeaderFields(h);
    NotNull(HeaderText(h));
  }

  lemma HeaderOneLine(h: Header)
    ensures OneLine(HeaderText(h))
  {
    HeaderWellFormed(h);
    ObjectOneLine(HeaderMembers(h));
  }

  // ---------------------------------------------------------------- events

  /** Seconds are written with six decimals: nanoseconds rounded to microseconds. */
  function Micros(elapsed: nat): nat { (elapsed + 500) / 1000 }

  /** The written time is the nearest number of microseconds. */
  lemma MicrosNearest(elapsed: nat)
    ensures -500 <= elapsed - 1000 * Micros(elapsed) < 500
  {
  }

  /** The last `width` decimal digits of n. */
  function Padded(n: nat, width: nat): (s: string)
    ensures AllDigits(s) && |s| == width
  {
    if width == 0 then [] else Padded(n / 10, width - 1) + [DigitChar(n % 10)]
  }

  function TimeElement(micros: nat): Element {
    Number(false, Digits(micros / 1000000), Padded(micros % 1000000, 6), [])
  }

  lemma TimeWellFormed(micros: nat)
    ensures WellFormed(TimeElement(micros))
  {
  }

  function EventText(c: Chunk): string {
    TimeWellFormed(Micros(c.elapsed));
    ['['] + Show(TimeElement(Micros(c.elapsed))) + ", \"o\", " + Quote(c.data) + "]"
  }

  function Pow10(n: nat): nat { if n == 0 then 1 else 10 * Pow10(n - 1) }

  /** The value of a number, exponent included. */
  function RealOf(e: Element): real
    requires Digitized(e)
  {
    PowPositive(|e.frac|);
    var v := NatOf(e.whole) as real + NatOf(e.frac) as real / Pow10(|e.frac|) as real;
    var scaled := if e.exp == [] then v else Scaled(v, e.exp);
    if e.negative then -scaled else scaled
  }

  predicate Digitized(e: Element) { e.Number? && AllDigits(e.whole) && AllDigits(e.frac) && AllDigits(ExpDigits(e.exp)) }

  function ExpDigits(exp: string): string { if exp != [] && (exp[0] == '+' || exp[0] == '-') then exp[1..] else exp }

  function Scaled(v: real, exp: string): real
    requires AllDigits(ExpDigits(exp))
  {
    var n := NatOf(ExpDigits(exp));
    PowPositive(n);
    if exp != [] && exp[0] == '-' then v / Pow10(n) as real else v * Pow10(n) as real
  }

  lemma {:induction false} PowPositive(n: nat)
    ensures Pow10(n) > 0
  {
    if n > 0 {
      PowPositive(n - 1);
    }
  }

  function Pow2(n: nat): nat { if n == 0 then 1 else 2 * Pow2(n - 1) }

  /** What a double can hold: numbers from 2^1024 - 2^970 on would round to infinity and are refused. */
  predicate FitsDouble(r: real) {
    var limit := (Pow2(1024) - Pow2(970)) as real;
    -limit < r < limit
  }

  /** The limit is half way between the largest finite double and the number that would follow it. */
  lemma DoubleLimit(r: real)
    ensures var largest, next := (Pow2(53) - 1) * Pow2(971), Pow2(53) * Pow2(971);
      FitsDouble(r) <==> -((largest + next) as real) < 2.0 * r < (largest + next) as real
  {
    hide Pow2;
    Pow2Adds(53, 971);
    Pow2Doubles(970);
    var a: int, b: int := Pow2(53), Pow2(971);
    assert (a - 1) * b == a * b - b;
  }

  lemma {:induction false} Pow2Grows(m: nat, n: nat)
    requires m <= n
    ensures 1 <= Pow2(m) <= Pow2(n)
    decreases n
  {
    if m < n {
      Pow2Grows(m, n - 1);
    } else if n > 0 {
      Pow2Grows(m - 1, n - 1);
    }
  }

  /** No duration is beyond a double. */
  lemma TimeFits(micros: nat)
    requires micros < 0x1_0000_0000_0000_0000
    ensures FitsDouble(micros as real / 1000000.0)
  {
    hide Pow2;
    Pow2Is64();
    Pow2Grows(64, 970);
    Pow2Doubles(970);
    Pow2Grows(971, 1024);
    assert (Pow2(1024) - Pow2(970)) as real >= 18446744073709551616.0;
    assert 0.0 <= micros as real / 1000000.0 <= micros as real;
  }

  lemma Pow2Doubles(n: nat)
    ensures Pow2(n + 1) == 2 * Pow2(n)
  {
  }

  lemma {:induction false} Pow2Adds(m: nat, n: nat)
    ensures Pow2(m + n) == Pow2(m) * Pow2(n)
  {
    if n > 0 {
      Pow2Adds(m, n - 1);
    }
  }

  lemma Pow2Is64()
    ensures Pow2(64) == 0x1_0000_0000_0000_0000
  {
    assert Pow2(4) == 16;
    Pow2Adds(4, 4);
    Pow2Adds(8, 8);
    Pow2Adds(16, 16);
    Pow2Adds(32, 32);
  }

  function TextOf(e: Element): string { if e.Text? then e.text else [] }

  /** An event line: at least three elements, a number, a text and a text, where null stands for nothing.
      Anything else is skipped. */
  function ParseEvent(line: string): Option<Event> {
    var es := ScanArray(line);
    if es.None? || |es.value| < 3 then None
    else
      var time, kind, data := es.value[0], es.value[1], es.value[2];
      if (!time.Null? && !(Digitized(time) && FitsDouble(RealOf(time)))) || (!kind.Null? && !kind.Text?) || (!data.Null? && !data.Text?) then None
      else Some(Event(if time.Null? then 0.0 else RealOf(time), TextOf(kind), TextOf(data)))
  }

  lemma {:induction false} PaddedBack(n: nat, width: nat)
    requires n < Pow10(width)
    ensures NatOf(Padded(n, width)) == n
  {
    if width > 0 {
      PaddedBack(n / 10, width - 1);
      assert Padded(n, width)[..width - 1] == Padded(n / 10, width - 1);
    }
  }

  lemma Million()
    ensures Pow10(6) == 1000000
  {
    assert Pow10(3) == 1000;
  }

  lemma TimeBack(micros: nat)
    ensures WellFormed(TimeElement(micros))
    ensures RealOf(TimeElement(micros)) == micros as real / 1000000.0
  {
    Million();
    DigitsBack(micros / 1000000);
    PaddedBack(micros % 1000000, 6);
  }

  function Played(c: Chunk): Event { Event(Micros(c.elapsed) as real / 1000000.0, "o", Sanitize(c.data)) }

  function Elements(c: Chunk): seq<Element> {
    [TimeElement(Micros(c.elapsed))] + ([Text("o")] + ([Text(c.data)] + []))
  }

  lemma QuoteLetter()
    ensures Quote("o") == "\"o\""
  {
    assert Escape("o"[1..]) == [];
    assert Escape("o") == "o";
  }

  lemma EventTail(data: string)
    ensures ShowTail([Text("o")] + ([Text(data)] + [])) == ", \"o\", " + Quote(data) + "]"
  {
    QuoteLetter();
    ShowFirst(Text(data), []);
    ShowFirst(Text("o"), [Text(data)] + []);
  }

  lemma EventIsArray(c: Chunk)
    ensures AllWellFormed(Elements(c)) && EventText(c) == ShowArray(Elements(c))
  {
    hide Show, Quote, ShowTail, ShowArray, TimeElement, Micros;
    TimeBack(Micros(c.elapsed));
    EventTail(c.data);
    ShowFirst(TimeElement(Micros(c.elapsed)), [Text("o")] + ([Text(c.data)] + []));
  }

  lemma CleanThree(c: Chunk)
    ensures CleanAll(Elements(c)) == [TimeElement(Micros(c.elapsed)), Text("o"), Text(Sanitize(c.data))]
  {
    NameKept("o");
    CleanFirst(Text(c.data), []);
    CleanFirst(Text("o"), [Text(c.data)] + []);
    CleanFirst(TimeElement(Micros(c.elapsed)), [Text("o")] + ([Text(c.data)] + []));
  }

  lemma EventStep(line: string, es: seq<Element>, time: Element, data: string)
    requires time.Number? && WellFormed(time) && FitsDouble(RealOf(time))
    requires ScanArray(line) == Some(es) && es == [time, Text("o"), Text(data)]
    ensures ParseEvent(line) == Some(Event(RealOf(time), "o", data))
  {
  }

  lemma ParseShown(es: seq<Element>, time: Element, data: string)
    requires time.Number? && WellFormed(time) && FitsDouble(RealOf(time))
    requires es != [] && AllWellFormed(es) && CleanAll(es) == [time, Text("o"), Text(data)]
    ensures ParseEvent(ShowArray(es)) == Some(Event(RealOf(time), "o", data))
  {
    ArrayRoundTrip(es);
    EventStep(ShowArray(es), CleanAll(es), time, data);
  }

  lemma {:induction false} CleanAt(es: seq<Element>, i: nat)
    requires i < |es|
    ensures |CleanAll(es)| == |es| && CleanAll(es)[i] == Clean(es[i])
  {
    if i > 0 {
      CleanAt(es[1..], i - 1);
    } else if |es| > 1 {
      CleanAt(es[1..], 0);
    }
  }

  /** Which arrays of numbers and texts are events: those of at least three elements, a number within a double
      and two texts first; whatever follows is ignored. */
  lemma ArrayIsEventIff(es: seq<Element>)
    requires es != [] && AllWellFormed(es)
    ensures var e := ParseEvent(ShowArray(es));
      if |es| >= 3 && es[0].Number? && es[1].Text? && es[2].Text? && FitsDouble(RealOf(es[0]))
      then e == Some(Event(RealOf(es[0]), Sanitize(es[1].text), Sanitize(es[2].text))) else e == None
  {
    hide ScanArray, ShowArray, FitsDouble, RealOf;
    ArrayRoundTrip(es);
    CleanAt(es, 0);
    if |es| >= 3 {
      CleanAt(es, 1);
      CleanAt(es, 2);
    }
  }

  lemma PlayedTime(c: Chunk)
    ensures WellFormed(TimeElement(Micros(c.elapsed)))
    ensures Played(c) == Event(RealOf(TimeElement(Micros(c.elapsed))), "o", Sanitize(c.data))
    ensures FitsDouble(RealOf(TimeElement(Micros(c.elapsed))))
  {
    hide FitsDouble;
    TimeBack(Micros(c.elapsed));
    TimeFits(Micros(c.elapsed));
  }

  lemma ParseElements(c: Chunk)
    ensures Elements(c) != [] && ParseEvent(ShowArray(Elements(c))) == Some(Played(c))
  {
    PlayedTime(c);
    EventIsArray(c);
    CleanThree(c);
    ParseShown(Elements(c), TimeElement(Micros(c.elapsed)), Sanitize(c.data));
  }

  /** A written event line is read back as the same event, ill-formed bytes of its data replaced. */
  lemma EventRoundTrip(c: Chunk)
    ensures ParseEvent(EventText(c)) == Some(Played(c))
  {
    EventIsArray(c);
    ParseElements(c);
  }

  lemma EventOneLine(c: Chunk)
    ensures OneLine(EventText(c))
  {
    EventIsArray(c);
    ArrayOneLine(Elements(c));
  }
}
