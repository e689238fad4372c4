/** Whole recordings: the writer that produces a .cast file and the player that reads one
    (internal/recording/recorder.go, player.go).
 */
module Recording {
  import opened Utf8
  import opened Json
  import opened JsonValues
  import opened Wrappers
  import opened Cast

  // ---------------------------------------------------------------- lines

  /** The scanner gives up on a line this long. */
  const MAX_LINE := 10 * 1024 * 1024

  function LineLen(s: string): (n: nat)
    ensures n <= |s| && '\n' !in s[..n] && (n < |s| ==> s[n] == '\n')
  {
    if s == [] || s[0] == '\n' then 0 else 1 + LineLen(s[1..])
  }

  function AfterLine(s: string): (r: string)
    requires s != []
    ensures |r| < |s|
  {
    if LineLen(s) < |s| then s[LineLen(s) + 1..] else []
  }

  /** A line without its terminator; a carriage return before the newline is dropped too. */
  function Line(s: string): string {
    var n := LineLen(s);
    if n > 0 && s[n - 1] == '\r' then s[..n - 1] else s[..n]
  }

  function Lines(s: string): seq<string>
    decreases |s|
  {
    if s == [] then [] else [Line(s)] + Lines(AfterLine(s))
  }

  predicate TooLong(s: string)
    decreases |s|
  {
    s != [] && (LineLen(s) >= MAX_LINE || TooLong(AfterLine(s)))
  }

  /** A file made of terminated lines. */
  function FileOf(ls: seq<string>): string {
    if ls == [] then [] else ls[0] + ['\n'] + FileOf(ls[1..])
  }

  lemma FirstLine(a: string, t: string)
    requires OneLine(a)
    ensures LineLen(a + ['\n'] + t) == |a|
    ensures Line(a + ['\n'] + t) == a && AfterLine(a + ['\n'] + t) == t
  {
    var s := a + ['\n'] + t;
    var n := LineLen(s);
    assert s[|a|] == '\n';
    assert forall i :: 0 <= i < |a| ==> s[i] == a[i];
    assert forall i :: 0 <= i < n ==> s[..n][i] == s[i];
    assert s[..n] == a;
    assert s[n + 1..] == t;
  }

  predicate AllOneLine(ls: seq<string>) { forall i :: 0 <= i < |ls| ==> OneLine(ls[i]) }

  /** No line reaches ten megabytes. */
  predicate AllShort(ls: seq<string>) { forall i :: 0 <= i < |ls| ==> |ls[i]| < 10 * 1024 * 1024 }

  lemma {:induction false} LinesBack(ls: seq<string>)
    requires AllOneLine(ls)
    ensures Lines(FileOf(ls)) == ls
    ensures TooLong(FileOf(ls)) <==> !AllShort(ls)
  {
    if ls != [] {
      FirstLine(ls[0], FileOf(ls[1..]));
      LinesBack(ls[1..]);
      assert AllShort(ls) <==> |ls[0]| < MAX_LINE && AllShort(ls[1..]);
    }
  }

  // ---------------------------------------------------------------- player

  datatype Parsed = Failed | Parsed(header: Option<Header>, events: seq<Event>)

  /** The events of the lines that hold one, in order. */
  function Events(ls: seq<string>): seq<Event> {
    if ls == [] then []
    else
      var e := ParseEvent(ls[|ls| - 1]);
      Events(ls[..|ls| - 1]) + if e.None? then [] else [e.value]
  }

  /** What a file means to the player. */
  function Playback(file: string): Parsed {
    var ls := Lines(file);
    if TooLong(file) then Failed
    else if ls == [] then Parsed(None, [])
    else if ParseHeader(ls[0]).None? then Failed
    else Parsed(ParseHeader(ls[0]), Events(ls[1..]))
  }

  lemma EventsSnoc(ls: seq<string>, l: string)
    ensures Events(ls + [l]) == Events(ls) + if ParseEvent(l).None? then [] else [ParseEvent(l).value]
  {
    assert (ls + [l])[..|ls|] == ls;
  }

  lemma LinesStep(s: string)
    requires s != []
    ensures Lines(s) == [Line(s)] + Lines(AfterLine(s))
    ensures TooLong(s) <==> LineLen(s) >= MAX_LINE || TooLong(AfterLine(s))
  {
  }

  lemma LinesEnd()
    ensures Lines([]) == [] && !TooLong([]) && Events([]) == []
  {
  }

  /** What the player has after the lines seen so far. */
  ghost predicate Scanned(seen: seq<string>, header: Option<Header>, events: seq<Event>) {
    if seen == [] then header.None? && events == []
    else header == ParseHeader(seen[0]) && header.Some? && events == Events(seen[1..])
  }

  lemma NothingScanned()
    ensures Scanned([], None, [])
  {
  }

  lemma ScannedNone(seen: seq<string>, header: Option<Header>, events: seq<Event>)
    requires seen == [] && Scanned(seen, header, events)
    ensures events == []
  {
  }

  lemma LongLine(file: string)
    requires TooLong(file)
    ensures Playback(file) == Failed
  {
    hide Lines, TooLong, ParseHeader, Events;
  }

  lemma ScannedHeader(line: string)
    requires ParseHeader(line).Some?
    ensures Scanned([line], ParseHeader(line), [])
  {
    hide ParseHeader;
    assert [line][1..] == [];
  }

  lemma ScannedEvent(seen: seq<string>, header: Option<Header>, events: seq<Event>, line: string)
    requires seen != [] && Scanned(seen, header, events)
    ensures Scanned(seen + [line], header, events + if ParseEvent(line).None? then [] else [ParseEvent(line).value])
  {
    hide ParseHeader, ParseEvent, Events;
    assert (seen + [line])[1..] == seen[1..] + [line];
    EventsSnoc(seen[1..], line);
  }

  lemma LinesSeen(file: string, seen: seq<string>, line: string, rest: string)
    requires Lines(file) == seen + ([line] + Lines(rest))
    ensures Lines(file) == (seen + [line]) + Lines(rest) && Lines(file)[0] == (seen + [line])[0]
  {
    hide Lines;
  }

  lemma ScannedAll(file: string, header: Option<Header>, events: seq<Event>)
    requires Scanned(Lines(file), header, events) && !TooLong(file)
    ensures Playback(file) == Parsed(header, events)
  {
    hide Lines, TooLong, ParseHeader, Events;
  }

  lemma BadHeader(file: string)
    requires Lines(file) != [] && ParseHeader(Lines(file)[0]).None?
    ensures Playback(file) == Failed
  {
    hide Lines, TooLong, ParseHeader, Events;
  }

  /** The player's scanning loop. */
  method Parse(file: string) returns (r: Parsed)
    ensures r == Playback(file)
  {
    hide *;
    var rest, lineNum := file, 0;
    var header: Option<Header>, events := None, [];
    ghost var seen: seq<string> := [];
    LinesEnd();
    NothingScanned();
    while rest != []
      invariant Lines(file) == seen + Lines(rest) && lineNum == |seen|
      invariant TooLong(file) == TooLong(rest)
      invariant Scanned(seen, header, events)
      decreases |rest|
    {
      LinesStep(rest);
      if LineLen(rest) >= MAX_LINE {
        LongLine(file);
        return Failed;
      }
      var line := Line(rest);
      LinesSeen(file, seen, line, AfterLine(rest));
      rest, lineNum := AfterLine(rest), lineNum + 1;
      if lineNum == 1 {
        assert seen + [line] == [line];
        ScannedNone(seen, header, events);
        header := ParseHeader(line);
        if header.None? {
          BadHeader(file);
          return Failed;
        }
        ScannedHeader(line);
      } else {
        ScannedEvent(seen, header, events, line);
        var e := ParseEvent(line);
        events := events + if e.None? then [] else [e.value];
      }
      seen := seen + [line];
    }
    assert Lines(file) == seen;
    ScannedAll(file, header, events);
    r := Parsed(header, events);
  }

  // ---------------------------------------------------------------- recordings

  function EventTexts(cs: seq<Chunk>): seq<string> {
    if cs == [] then [] else EventTexts(cs[..|cs| - 1]) + [EventText(cs[|cs| - 1])]
  }

  function Recorded(h: Header, cs: seq<Chunk>): string { FileOf([HeaderText(h)] + EventTexts(cs)) }

  function PlayedAll(cs: seq<Chunk>): seq<Event> {
    if cs == [] then [] else PlayedAll(cs[..|cs| - 1]) + [Played(cs[|cs| - 1])]
  }

  lemma {:induction false} PlayedAt(cs: seq<Chunk>)
    ensures |PlayedAll(cs)| == |cs| && forall i :: 0 <= i < |cs| ==> PlayedAll(cs)[i] == Played(cs[i])
  {
    hide Played;
    if cs != [] {
      PlayedAt(cs[..|cs| - 1]);
    }
  }

  /** Every line of the recording is short enough for the scanner. */
  predicate Fits(h: Header, cs: seq<Chunk>) { AllShort([HeaderText(h)] + EventTexts(cs)) }

  lemma {:induction false} EventsBack(cs: seq<Chunk>)
    ensures Events(EventTexts(cs)) == PlayedAll(cs)
  {
    if cs != [] {
      var c := cs[|cs| - 1];
      EventsBack(cs[..|cs| - 1]);
      EventRoundTrip(c);
      EventsSnoc(EventTexts(cs[..|cs| - 1]), EventText(c));
    }
  }

  lemma {:induction false} TextsOneLine(cs: seq<Chunk>)
    ensures AllOneLine(EventTexts(cs))
  {
    hide EventText;
    if cs != [] {
      TextsOneLine(cs[..|cs| - 1]);
      EventOneLine(cs[|cs| - 1]);
    }
  }

  /** Any recording plays back to its header and one event per chunk, in order, with ill-formed UTF-8
      replaced; it is refused exactly when one of its lines is too long for the scanner. */
  lemma RecordingRoundTrip(h: Header, cs: seq<Chunk>)
    requires HeaderInRange(h)
    ensures Playback(Recorded(h, cs)) == if Fits(h, cs) then Parsed(Some(CleanHeader(h)), PlayedAll(cs)) else Failed
  {
    hide EventText, HeaderText;
    var ls := [HeaderText(h)] + EventTexts(cs);
    HeaderOneLine(h);
    TextsOneLine(cs);
    LinesBack(ls);
    HeaderRoundTrip(h);
    EventsBack(cs);
    assert ls[1..] == EventTexts(cs);
  }

  function Output(cs: seq<Chunk>): string {
    if cs == [] then [] else Output(cs[..|cs| - 1]) + cs[|cs| - 1].data
  }

  function Shown(es: seq<Event>): string {
    if es == [] then [] else Shown(es[..|es| - 1]) + es[|es| - 1].data
  }

  predicate AllValid(cs: seq<Chunk>) { forall i :: 0 <= i < |cs| ==> ValidUtf8(cs[i].data) }

  lemma ShownSnoc(cs: seq<Chunk>, c: Chunk)
    ensures Shown(PlayedAll(cs + [c])) == Shown(PlayedAll(cs)) + Sanitize(c.data)
    ensures Output(cs + [c]) == Output(cs) + c.data
    ensures AllValid(cs + [c]) <==> AllValid(cs) && ValidUtf8(c.data)
  {
    hide Sanitize, ValidUtf8, Micros;
    assert (cs + [c])[..|cs|] == cs && (cs + [c])[|cs|] == c;
    var es := PlayedAll(cs);
    assert (es + [Played(c)])[..|es|] == es;
    assert forall i :: 0 <= i < |cs| ==> (cs + [c])[i] == cs[i];
  }

  lemma NothingShown()
    ensures Shown(PlayedAll([])) == [] && Output([]) == [] && AllValid([])
  {
  }

  lemma {:induction false} ShownGrows(cs: seq<Chunk>)
    ensures |Shown(PlayedAll(cs))| >= |Output(cs)|
    ensures |Shown(PlayedAll(cs))| == |Output(cs)| <==> AllValid(cs)
    ensures AllValid(cs) ==> Shown(PlayedAll(cs)) == Output(cs)
  {
    if cs == [] {
      NothingShown();
    }
    hide *;
    if cs != [] {
      var n := |cs| - 1;
      ShownGrows(cs[..n]);
      ShownSnoc(cs[..n], cs[n]);
      SanitizeGrows(cs[n].data);
      SanitizeIdentityIff(cs[n].data);
      assert cs == cs[..n] + [cs[n]];
    }
  }

  /** The screen output of a recording that can be played survives exactly when every single chunk is
      valid UTF-8. */
  lemma PlaybackFaithfulIff(h: Header, cs: seq<Chunk>)
    requires HeaderInRange(h)
    ensures Playback(Recorded(h, cs)).Parsed? <==> Fits(h, cs)
    ensures Fits(h, cs) ==> (Shown(Playback(Recorded(h, cs)).events) == Output(cs) <==> AllValid(cs))
  {
    hide *;
    RecordingRoundTrip(h, cs);
    ShownGrows(cs);
  }

  /** A chunk boundary inside a character is enough to lose it, although the whole output is valid. */
  lemma SplitCharacterIsLost(h: Header, u: string, v: string, at: Nanos)
    requires HeaderInRange(h) && u != [] && v != [] && RuneLen(u + v) == |u + v|
    ensures var cs := [Chunk(at, u), Chunk(at, v)];
            && ValidUtf8(Output(cs))
            && (Fits(h, cs) ==> Playback(Recorded(h, cs)).Parsed? && Shown(Playback(Recorded(h, cs)).events) != Output(cs))
  {
    hide *;
    var cs := [Chunk(at, u), Chunk(at, v)];
    PlaybackFaithfulIff(h, cs);
    HalfCharacter(u, v);
    OutputOfTwo(Chunk(at, u), Chunk(at, v));
  }

  lemma OutputOfTwo(c: Chunk, d: Chunk)
    ensures Output([c, d]) == c.data + d.data
    ensures AllValid([c, d]) ==> ValidUtf8(c.data)
  {
    hide ValidUtf8;
    assert [c, d][..1] == [c] && [c][..0] == [];
    assert Output([c]) == c.data;
    assert AllValid([c, d]) ==> ValidUtf8([c, d][0].data);
  }

  lemma HalfCharacter(u: string, v: string)
    requires u != [] && v != [] && RuneLen(u + v) == |u + v|
    ensures ValidUtf8(u + v) && !ValidUtf8(u)
  {
    var s := u + v;
    assert s[0] == u[0];
    assert s[|s|..] == [];
    assert RuneLen(u) == 0;
  }

  predicate InTime(cs: seq<Chunk>) { forall i, j :: 0 <= i < j < |cs| ==> cs[i].elapsed <= cs[j].elapsed }

  predicate InOrder(es: seq<Event>) { forall i, j :: 0 <= i < j < |es| ==> es[i].offset <= es[j].offset }

  lemma OffsetsDoNotDecrease(cs: seq<Chunk>)
    requires InTime(cs)
    ensures InOrder(PlayedAll(cs))
  {
    PlayedAt(cs);
    forall i, j | 0 <= i < j < |cs|
      ensures PlayedAll(cs)[i].offset <= PlayedAll(cs)[j].offset
    {
      OffsetMonotone(cs[i], cs[j]);
    }
  }

  lemma OffsetMonotone(c: Chunk, d: Chunk)
    requires c.elapsed <= d.elapsed
    ensures Played(c).offset <= Played(d).offset
  {
    assert Micros(c.elapsed) <= Micros(d.elapsed);
  }

  // ---------------------------------------------------------------- writer

  function TotalBytes(cs: seq<Chunk>): nat { |Output(cs)| }

  lemma FileOfSnoc(ls: seq<string>, l: string)
    ensures FileOf(ls + [l]) == FileOf(ls) + (l + ['\n'])
  {
    if ls == [] {
      assert ls + [l] == [l] && [l][1..] == [];
    } else {
      FileOfSnoc(ls[1..], l);
      assert (ls + [l])[1..] == ls[1..] + [l];
    }
  }

  lemma RecordedSnoc(h: Header, cs: seq<Chunk>, c: Chunk)
    ensures Recorded(h, cs + [c]) == Recorded(h, cs) + (EventText(c) + ['\n'])
    ensures Output(cs + [c]) == Output(cs) + c.data
  {
    hide EventText, HeaderText;
    assert (cs + [c])[..|cs|] == cs;
    FileOfSnoc([HeaderText(h)] + EventTexts(cs), EventText(c));
    assert [HeaderText(h)] + EventTexts(cs + [c]) == ([HeaderText(h)] + EventTexts(cs)) + [EventText(c)];
  }

  /** Times in order, none after the given one. */
  ghost predicate Timely(cs: seq<Chunk>, elapsed: nat) {
    InTime(cs) && forall i :: 0 <= i < |cs| ==> cs[i].elapsed <= elapsed
  }

  lemma TimelySnoc(cs: seq<Chunk>, elapsed: nat, c: Chunk)
    requires Timely(cs, elapsed) && elapsed <= c.elapsed
    ensures Timely(cs + [c], c.elapsed)
  {
  }

  /** A part of the file behind the header: a whole event line, or the beginning of one that the file
      system cut short. */
  datatype Part = Whole(chunk: Chunk) | Cut(text: string)

  function Laid(h: Header, ps: seq<Part>): string {
    if ps == [] then HeaderText(h) + ['\n']
    else
      var n := |ps| - 1;
      Laid(h, ps[..n]) + if ps[n].Whole? then EventText(ps[n].chunk) + ['\n'] else ps[n].text
  }

  function Chunks(ps: seq<Part>): seq<Chunk> {
    if ps == [] then []
    else
      var n := |ps| - 1;
      Chunks(ps[..n]) + if ps[n].Whole? then [ps[n].chunk] else []
  }

  /** The lines that end in the parts, and the text after the last of them: a cut line runs on into the next. */
  datatype Split = Split(lines: seq<string>, rest: string)

  function SplitParts(ps: seq<Part>): Split {
    if ps == [] then Split([], [])
    else
      var n := |ps| - 1;
      var b := SplitParts(ps[..n]);
      if ps[n].Whole? then Split(b.lines + [b.rest + EventText(ps[n].chunk)], []) else Split(b.lines, b.rest + ps[n].text)
  }

  predicate CutsOneLine(ps: seq<Part>) { forall i :: 0 <= i < |ps| && ps[i].Cut? ==> OneLine(ps[i].text) }

  lemma {:induction false} SplitOneLine(ps: seq<Part>)
    requires CutsOneLine(ps)
    ensures AllOneLine(SplitParts(ps).lines) && OneLine(SplitParts(ps).rest)
  {
    hide EventText;
    if ps != [] {
      var n := |ps| - 1;
      SplitOneLine(ps[..n]);
      if ps[n].Whole? {
        EventOneLine(ps[n].chunk);
      }
    }
  }

  lemma {:induction false} LaidIsSplit(h: Header, ps: seq<Part>)
    ensures Laid(h, ps) == FileOf([HeaderText(h)] + SplitParts(ps).lines) + SplitParts(ps).rest
  {
    hide EventText, HeaderText, FileOf;
    if ps == [] {
      HeaderFile(HeaderText(h));
    } else {
      var n := |ps| - 1;
      var b := SplitParts(ps[..n]);
      LaidIsSplit(h, ps[..n]);
      if ps[n].Whole? {
        FileOfSnoc([HeaderText(h)] + b.lines, b.rest + EventText(ps[n].chunk));
        assert [HeaderText(h)] + (b.lines + [b.rest + EventText(ps[n].chunk)])
            == ([HeaderText(h)] + b.lines) + [b.rest + EventText(ps[n].chunk)];
      }
    }
  }

  lemma HeaderFile(l: string)
    ensures FileOf([l] + []) + [] == l + ['\n']
  {
    FileOfSnoc([], l);
    assert [l] + [] == [] + [l];
  }

  lemma LinesCons(l: string, more: string)
    requires OneLine(l)
    ensures Lines(l + ['\n'] + more) == [l] + Lines(more)
    ensures TooLong(l + ['\n'] + more) <==> |l| >= MAX_LINE || TooLong(more)
  {
    hide Lines, TooLong, Line, LineLen, AfterLine;
    FirstLine(l, more);
    LinesStep(l + ['\n'] + more);
  }

  lemma AllShortCons(l: string, ls: seq<string>)
    ensures AllShort([l] + ls) <==> |l| < MAX_LINE && AllShort(ls)
  {
    var all := [l] + ls;
    assert all[0] == l && forall i :: 0 <= i < |ls| ==> all[i + 1] == ls[i];
    if AllShort(all) {
      forall i | 0 <= i < |ls| ensures |ls[i]| < MAX_LINE {
        assert |all[i + 1]| < MAX_LINE;
      }
    }
  }

  /** The lines of a file, the last of which may lack its newline. */
  function WithRest(ls: seq<string>, rest: string): seq<string> { if rest == [] then ls else ls + [rest] }

  lemma FileOfCons(ls: seq<string>, rest: string)
    requires ls != []
    ensures FileOf(ls) + rest == ls[0] + ['\n'] + (FileOf(ls[1..]) + rest)
    ensures WithRest(ls, rest) == [ls[0]] + WithRest(ls[1..], rest)
  {
    var t := FileOf(ls[1..]);
    assert FileOf(ls) == ls[0] + ['\n'] + t;
    hide FileOf;
    Associate(ls[0] + ['\n'], t, rest);
  }

  lemma {:induction false} LinesWithRest(ls: seq<string>, rest: string)
    requires AllOneLine(ls) && OneLine(rest)
    ensures Lines(FileOf(ls) + rest) == WithRest(ls, rest)
    ensures TooLong(FileOf(ls) + rest) <==> !AllShort(WithRest(ls, rest))
  {
    if ls == [] {
      assert FileOf(ls) + rest == rest;
      if rest == [] {
        LinesEnd();
      } else {
        LastLine(rest);
        assert ls + [rest] == [rest];
      }
    } else {
      hide Lines, TooLong, FileOf, AllShort, WithRest, OneLine;
      FileOfCons(ls, rest);
      LinesCons(ls[0], FileOf(ls[1..]) + rest);
      LinesWithRest(ls[1..], rest);
      AllShortCons(ls[0], WithRest(ls[1..], rest));
    }
  }

  lemma LastLine(l: string)
    requires l != [] && OneLine(l)
    ensures Lines(l) == [l] && (TooLong(l) <==> !AllShort([l]))
  {
    assert LineLen(l) == |l|;
    assert l[..|l|] == l;
    assert AllShort([l]) <==> |[l][0]| < MAX_LINE;
  }

  function PlayedLines(ps: seq<Part>): seq<string> {
    WithRest(SplitParts(ps).lines, SplitParts(ps).rest)
  }

  /** Whatever the file system cut: the player reads the header and the events of the lines as they ended
      up, unless one of them is too long. */
  lemma CutRecording(h: Header, ps: seq<Part>)
    requires HeaderInRange(h) && CutsOneLine(ps)
    ensures Playback(Laid(h, ps)) == if AllShort([HeaderText(h)] + PlayedLines(ps))
                                     then Parsed(Some(CleanHeader(h)), Events(PlayedLines(ps))) else Failed
  {
    hide HeaderText, ParseHeader, Events, Lines, TooLong, SplitParts, Laid, FileOf, CutsOneLine;
    var b := SplitParts(ps);
    LaidIsSplit(h, ps);
    SplitOneLine(ps);
    HeaderOneLine(h);
    HeaderRoundTrip(h);
    LinesWithRest([HeaderText(h)] + b.lines, b.rest);
    var all := [HeaderText(h)] + PlayedLines(ps);
    assert all == if b.rest == [] then [HeaderText(h)] + b.lines else [HeaderText(h)] + b.lines + [b.rest];
    assert all[0] == HeaderText(h) && all[1..] == PlayedLines(ps);
  }

  /** Lines that have ended stay as they are, whatever is written behind them. */
  lemma {:induction false} SplitExtends(ps: seq<Part>, more: seq<Part>)
    ensures SplitParts(ps).lines <= SplitParts(ps + more).lines
  {
    hide EventText;
    if more == [] {
      assert ps + more == ps;
    } else {
      SplitExtends(ps, more[..|more| - 1]);
      assert (ps + more)[..|ps + more| - 1] == ps + more[..|more| - 1];
    }
  }

  lemma {:induction false} EventsExtend(ls: seq<string>, more: seq<string>)
    ensures Events(ls) <= Events(ls + more)
  {
    hide ParseEvent;
    if more == [] {
      assert ls + more == ls;
    } else {
      EventsExtend(ls, more[..|more| - 1]);
      assert (ls + more)[..|ls + more| - 1] == ls + more[..|more| - 1];
    }
  }

  /** A cut spoils at most the chunk that follows it: one written after a whole line, or first, has its own
      line and plays back as itself behind the events before it, whatever is written or cut later. */
  lemma OnlyTheNextIsSpoilt(ps: seq<Part>, c: Chunk, more: seq<Part>)
    requires ps == [] || ps[|ps| - 1].Whole?
    ensures var b := SplitParts(ps + [Whole(c)]);
      b.lines == SplitParts(ps).lines + [EventText(c)] && b.rest == [] && ParseEvent(EventText(c)) == Some(Played(c))
    ensures SplitParts(ps + [Whole(c)]).lines <= SplitParts(ps + [Whole(c)] + more).lines
    ensures Events(PlayedLines(ps)) + [Played(c)] <= Events(PlayedLines(ps + [Whole(c)] + more))
  {
    hide EventText, ParseEvent;
    assert (ps + [Whole(c)])[..|ps|] == ps;
    assert [] + EventText(c) == EventText(c);
    EventRoundTrip(c);
    hide Events;
    var all := ps + [Whole(c)] + more;
    var own := SplitParts(ps).lines + [EventText(c)];
    SplitExtends(ps + [Whole(c)], more);
    assert own <= PlayedLines(all);
    assert PlayedLines(all) == own + PlayedLines(all)[|own|..];
    EventsExtend(own, PlayedLines(all)[|own|..]);
    EventsSnoc(SplitParts(ps).lines, EventText(c));
  }

  predicate Uncut(ps: seq<Part>) { forall i :: 0 <= i < |ps| ==> ps[i].Whole? }

  lemma {:induction false} UncutIsRecorded(h: Header, ps: seq<Part>)
    requires Uncut(ps)
    ensures Laid(h, ps) == Recorded(h, Chunks(ps))
  {
    hide EventText, HeaderText;
    if ps == [] {
      HeaderFile(HeaderText(h));
      assert [HeaderText(h)] + EventTexts([]) == [HeaderText(h)] + [];
    } else {
      var n := |ps| - 1;
      UncutIsRecorded(h, ps[..n]);
      hide Recorded;
      RecordedSnoc(h, Chunks(ps[..n]), ps[n].chunk);
    }
  }

  /** Whatever a writer has written without a cut plays back completely and in order of time. */
  lemma WrittenFilePlaysInOrder(w: RecordingWriter)
    requires w.Valid() && Uncut(w.parts) && HeaderInRange(w.header) && Fits(w.header, w.chunks)
    ensures Playback(w.file) == Parsed(Some(CleanHeader(w.header)), PlayedAll(w.chunks))
    ensures InOrder(Playback(w.file).events)
  {
    hide *;
    WriterFacts(w);
    UncutIsRecorded(w.header, w.parts);
    RecordingRoundTrip(w.header, w.chunks);
    OffsetsDoNotDecrease(w.chunks);
  }

  lemma WriterFacts(w: RecordingWriter)
    requires w.Valid()
    ensures w.file == Laid(w.header, w.parts) && w.chunks == Chunks(w.parts) && CutsOneLine(w.parts) && InTime(w.chunks)
  {
    hide Laid, Chunks, Output, InTime, CutsOneLine;
  }

  lemma LaidWhole(h: Header, ps: seq<Part>, c: Chunk)
    requires CutsOneLine(ps)
    ensures Laid(h, ps + [Whole(c)]) == Laid(h, ps) + (EventText(c) + ['\n'])
    ensures Chunks(ps + [Whole(c)]) == Chunks(ps) + [c] && CutsOneLine(ps + [Whole(c)])
    ensures Output(Chunks(ps) + [c]) == Output(Chunks(ps)) + c.data
  {
    hide EventText, HeaderText;
    assert (ps + [Whole(c)])[..|ps|] == ps;
    assert (Chunks(ps) + [c])[..|Chunks(ps)|] == Chunks(ps);
  }

  lemma LaidCut(h: Header, ps: seq<Part>, c: Chunk, n: nat)
    requires CutsOneLine(ps) && n <= |EventText(c)|
    ensures Laid(h, ps + [Cut(EventText(c)[..n])]) == Laid(h, ps) + EventText(c)[..n]
    ensures Chunks(ps + [Cut(EventText(c)[..n])]) == Chunks(ps) && CutsOneLine(ps + [Cut(EventText(c)[..n])])
  {
    hide EventText, HeaderText;
    var t := EventText(c)[..n];
    EventOneLine(c);
    assert OneLine(t);
    assert (ps + [Cut(t)])[..|ps|] == ps;
  }

  class RecordingWriter {
    const header: Header
    const startTime: nat
    var file: string
    var totalBytes: nat
    var closed: bool
    /** What the file holds behind its header, the chunks accepted, and the latest time seen. */
    ghost var parts: seq<Part>
    ghost var chunks: seq<Chunk>
    ghost var clock: nat

    /** The file is the header and its parts; the times of the accepted chunks never go back. */
    ghost predicate Valid()
      reads this
    {
      && file == Laid(header, parts) && CutsOneLine(parts) && chunks == Chunks(parts)
      && totalBytes == TotalBytes(chunks)
      && startTime <= clock && Timely(chunks, Since(startTime, clock))
    }

    /** Times are nanoseconds on one clock that starts at the epoch. */
    constructor (cols: int, rows: int, title: string, now: nat)
      ensures Valid() && !closed && chunks == [] && parts == []
      ensures header == Header(2, cols, rows, now / 1000000000, title) && startTime == now && clock == now
    {
      hide EventText, HeaderText;
      var h := Header(2, cols, rows, now / 1000000000, title);
      header, startTime := h, now;
      totalBytes, closed := 0, false;
      parts, chunks, clock := [], [], now;
      file := HeaderText(h) + ['\n'];
    }

    /** Appends one event.  `cut` is how many bytes of the line the file system took before it failed, if it
        did; what it took stays in the file, and the chunk does not count. */
    method Write(data: string, now: nat, cut: Option<nat>)
      requires Valid() && clock <= now
      modifies this
      ensures Valid() && closed == old(closed) && clock <= now
      ensures var c := Chunk(Since(startTime, now), data);
        if data == [] || closed then parts == old(parts)
        else if cut.None? then parts == old(parts) + [Whole(c)]
        else parts == old(parts) + [Cut(EventText(c)[..if cut.value < |EventText(c)| then cut.value else |EventText(c)|])]
      ensures chunks == if data != [] && !closed && cut.None? then old(chunks) + [Chunk(Since(startTime, now), data)] else old(chunks)
    {
      hide EventText, HeaderText, Laid, Chunks, Output, Timely, CutsOneLine;
      if |data| == 0 {
        return;
      }
      if closed {
        return;
      }
      var c := Chunk(Since(startTime, now), data);
      var line := EventText(c);
      if cut.Some? {
        var n := if cut.value < |line| then cut.value else |line|;
        LaidCut(header, parts, c, n);
        file := file + line[..n];
        parts := parts + [Cut(line[..n])];
        return;
      }
      LaidWhole(header, parts, c);
      TimelySnoc(chunks, Since(startTime, clock), c);
      clock := now;
      file := file + (line + ['\n']);
      totalBytes := totalBytes + |data|;
      parts := parts + [Whole(c)];
      chunks := chunks + [c];
    }

    /** Reports the length and size of the recording the first time, zeros afterwards. */
    method Close(now: nat) returns (durationMs: nat, sizeBytes: nat)
      requires Valid() && clock <= now
      modifies this
      ensures Valid() && closed && parts == old(parts) && chunks == old(chunks) && clock <= now
      ensures sizeBytes == if old(closed) then 0 else TotalBytes(chunks)
      ensures durationMs == if old(closed) then 0 else Since(startTime, now) / 1000000
    {
      hide EventText, HeaderText, Laid, Chunks, Output, Timely, CutsOneLine;
      if closed {
        return 0, 0;
      }
      closed := true;
      durationMs := Since(startTime, now) / 1000000;
      sizeBytes := totalBytes;
    }
  }
}
