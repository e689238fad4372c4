/** The line diff shown in a context file's history: both texts are split at newlines and walked in
    step; every line of either text appears in the result behind a two-character mark.
 */
module LineDiff {

  const NL := '\n'

  /** strings.Split at newlines: always at least one piece. */
  function Lines(s: string): (ls: seq<string>)
    ensures |ls| >= 1
    ensures forall l :: l in ls ==> NL !in l
  {
    if s == [] then [[]]
    else
      var rest := Lines(s[1..]);
      if s[0] == NL then [[]] + rest else [[s[0]] + rest[0]] + rest[1..]
  }

  /** strings.Join with newlines. */
  function Join(ls: seq<string>): string {
    if ls == [] then [] else if |ls| == 1 then ls[0] else ls[0] + [NL] + Join(ls[1..])
  }

  lemma {:induction false} JoinLines(s: string)
    ensures Join(Lines(s)) == s
  {
    if s != [] {
      JoinLines(s[1..]);
      var rest := Lines(s[1..]);
      assert s == [s[0]] + s[1..];
      if s[0] == NL {
        assert Lines(s)[1..] == rest;
      } else {
        assert Lines(s)[1..] == rest[1..];
      }
    }
  }

  lemma {:induction false} LinesWithoutNewline(l: string)
    requires NL !in l
    ensures Lines(l) == [l]
  {
    if l != [] {
      LinesWithoutNewline(l[1..]);
      assert l == [l[0]] + l[1..];
    }
  }

  lemma {:induction false} LinesConcat(l: string, t: string)
    requires NL !in l
    ensures Lines(l + [NL] + t) == [l] + Lines(t)
  {
    var s := l + [NL] + t;
    if l == [] {
      assert s[1..] == t;
    } else {
      assert s[1..] == l[1..] + [NL] + t;
      LinesConcat(l[1..], t);
      assert l == [l[0]] + l[1..];
    }
  }

  lemma {:induction false} LinesJoin(ls: seq<string>)
    requires ls != [] && forall l :: l in ls ==> NL !in l
    ensures Lines(Join(ls)) == ls
  {
    if |ls| == 1 {
      LinesWithoutNewline(ls[0]);
    } else {
      LinesJoin(ls[1..]);
      LinesConcat(ls[0], Join(ls[1..]));
    }
  }

  // ---------------------------------------------------------------- the marked lines

  function Next(i: nat, n: nat): nat { if i < n then i + 1 else i }

  /** What line i of the old text and line j of the new one contribute. */
  function Mark(a: seq<string>, b: seq<string>, i: nat, j: nat): seq<string>
    requires i < |a| || j < |b|
  {
    if i >= |a| then ["+ " + b[j]]
    else if j >= |b| then ["- " + a[i]]
    else if a[i] == b[j] then ["  " + a[i]]
    else ["- " + a[i]] + ["+ " + b[j]]
  }

  function Marked(a: seq<string>, b: seq<string>, i: nat, j: nat): seq<string>
    requires i <= |a| && j <= |b|
    decreases |a| - i + |b| - j
  {
    if i == |a| && j == |b| then [] else Mark(a, b, i, j) + Marked(a, b, Next(i, |a|), Next(j, |b|))
  }

  predicate OnSide(l: string, mark: char) { |l| >= 2 && l[1] == ' ' && (l[0] == mark || l[0] == ' ') }

  /** The lines of one side: those marked with `mark` or unchanged, without their mark. */
  function Side(ls: seq<string>, mark: char): seq<string> {
    if ls == [] then [] else (if OnSide(ls[0], mark) then [ls[0][2..]] else []) + Side(ls[1..], mark)
  }

  lemma {:induction false} SideConcat(x: seq<string>, y: seq<string>, mark: char)
    ensures Side(x + y, mark) == Side(x, mark) + Side(y, mark)
  {
    if x == [] {
      assert x + y == y;
    } else {
      assert (x + y)[1..] == x[1..] + y;
      SideConcat(x[1..], y, mark);
    }
  }

  lemma SideOne(mark2: string, l: string, mark: char)
    requires |mark2| == 2 && mark2[1] == ' '
    ensures Side([mark2 + l], mark) == if mark2[0] == mark || mark2[0] == ' ' then [l] else []
  {
    assert (mark2 + l)[2..] == l;
    assert [mark2 + l][1..] == [];
  }

  lemma MarkOldSide(a: seq<string>, b: seq<string>, i: nat, j: nat)
    requires i <= |a| && j <= |b| && (i < |a| || j < |b|)
    ensures Side(Mark(a, b, i, j), '-') == a[i..Next(i, |a|)]
  {
    if i < |a| {
      SideOne("- ", a[i], '-');
      SideOne("  ", a[i], '-');
    }
    if j < |b| {
      SideOne("+ ", b[j], '-');
    }
    if i < |a| && j < |b| && a[i] != b[j] {
      SideConcat(["- " + a[i]], ["+ " + b[j]], '-');
    }
  }

  lemma MarkNewSide(a: seq<string>, b: seq<string>, i: nat, j: nat)
    requires i <= |a| && j <= |b| && (i < |a| || j < |b|)
    ensures Side(Mark(a, b, i, j), '+') == b[j..Next(j, |b|)]
  {
    if i < |a| {
      SideOne("- ", a[i], '+');
      SideOne("  ", a[i], '+');
    }
    if j < |b| {
      SideOne("+ ", b[j], '+');
    }
    if i < |a| && j < |b| && a[i] != b[j] {
      SideConcat(["- " + a[i]], ["+ " + b[j]], '+');
    }
  }

  lemma Split(a: seq<string>, i: nat)
    requires i <= |a|
    ensures a[i..] == a[i..Next(i, |a|)] + a[Next(i, |a|)..]
  {
  }

  lemma {:induction false} SidesRecovered(a: seq<string>, b: seq<string>, i: nat, j: nat)
    requires i <= |a| && j <= |b|
    ensures Side(Marked(a, b, i, j), '-') == a[i..]
    ensures Side(Marked(a, b, i, j), '+') == b[j..]
    decreases |a| - i + |b| - j
  {
    if i < |a| || j < |b| {
      var i', j' := Next(i, |a|), Next(j, |b|);
      SidesRecovered(a, b, i', j');
      MarkOldSide(a, b, i, j);
      MarkNewSide(a, b, i, j);
      SideConcat(Mark(a, b, i, j), Marked(a, b, i', j'), '-');
      SideConcat(Mark(a, b, i, j), Marked(a, b, i', j'), '+');
      Split(a, i);
      Split(b, j);
    }
  }

  function Flat(bs: seq<seq<string>>): seq<string> { if bs == [] then [] else bs[0] + Flat(bs[1..]) }

  /** The marks of position k: both lines where they differ, the old one first; one unmarked line where they
      are the same; and the only line where one text has ended. */
  predicate Shows(block: seq<string>, a: seq<string>, b: seq<string>, k: nat) {
    && (block == ["  " + if k < |a| then a[k] else ""] <==> k < |a| && k < |b| && a[k] == b[k])
    && (k < |a| && k < |b| && a[k] != b[k] ==> block == ["- " + a[k], "+ " + b[k]])
    && (|b| <= k < |a| ==> block == ["- " + a[k]]) && (|a| <= k < |b| ==> block == ["+ " + b[k]])
  }

  lemma {:induction false} MarkedBlocks(a: seq<string>, b: seq<string>, k: nat) returns (blocks: seq<seq<string>>)
    requires k <= |a| || k <= |b|
    ensures var i, j := if k < |a| then k else |a|, if k < |b| then k else |b|;
      Marked(a, b, i, j) == Flat(blocks)
    ensures |blocks| == (if |a| < |b| then |b| else |a|) - k
    ensures forall l :: 0 <= l < |blocks| ==> Shows(blocks[l], a, b, k + l)
    decreases (if |a| < |b| then |b| else |a|) - k
  {
    if k >= |a| && k >= |b| {
      blocks := [];
    } else {
      hide Shows, Mark;
      var i, j := if k < |a| then k else |a|, if k < |b| then k else |b|;
      var rest := MarkedBlocks(a, b, k + 1);
      BlockShows(a, b, k);
      blocks := [Mark(a, b, i, j)] + rest;
      assert blocks[1..] == rest;
      forall l | 0 <= l < |blocks| ensures Shows(blocks[l], a, b, k + l) {
        if l > 0 { assert blocks[l] == rest[l - 1] && Shows(rest[l - 1], a, b, (k + 1) + (l - 1)); }
      }
    }
  }

  lemma BlockShows(a: seq<string>, b: seq<string>, k: nat)
    requires k < |a| || k < |b|
    ensures var i, j := if k < |a| then k else |a|, if k < |b| then k else |b|; Shows(Mark(a, b, i, j), a, b, k)
  {
    if k >= |a| {
      assert ("+ " + b[k])[0] == '+' && ("  " + "")[0] == ' ';
    } else {
      assert ("- " + a[k])[0] == '-' && ("  " + a[k])[0] == ' ';
    }
  }

  /** The whole marking, position by position. */
  lemma LinesAreMarked(a: seq<string>, b: seq<string>) returns (blocks: seq<seq<string>>)
    ensures Marked(a, b, 0, 0) == Flat(blocks) && |blocks| == if |a| < |b| then |b| else |a|
    ensures forall k :: 0 <= k < |blocks| ==> Shows(blocks[k], a, b, k)
  {
    blocks := MarkedBlocks(a, b, 0);
    forall k | 0 <= k < |blocks| ensures Shows(blocks[k], a, b, k) {
      assert Shows(blocks[k], a, b, 0 + k);
    }
  }

  ghost predicate Clean(ls: seq<string>) { forall l :: l in ls ==> NL !in l }

  ghost predicate CleanMarks(ls: seq<string>) { forall l :: l in ls ==> NL !in l && |l| >= 2 }

  lemma {:induction false} MarkedLinesClean(a: seq<string>, b: seq<string>, i: nat, j: nat)
    requires Clean(a) && Clean(b) && i <= |a| && j <= |b|
    ensures CleanMarks(Marked(a, b, i, j))
    decreases |a| - i + |b| - j
  {
    if i < |a| || j < |b| {
      MarkedLinesClean(a, b, Next(i, |a|), Next(j, |b|));
      MarkClean(a, b, i, j);
    }
  }

  lemma MarkClean(a: seq<string>, b: seq<string>, i: nat, j: nat)
    requires Clean(a) && Clean(b) && i <= |a| && j <= |b| && (i < |a| || j < |b|)
    ensures CleanMarks(Mark(a, b, i, j))
  {
    if i < |a| { assert a[i] in a; }
    if j < |b| { assert b[j] in b; }
  }

  // ---------------------------------------------------------------- the diff text

  function Diff(oldText: string, newText: string): string {
    if oldText == newText then "" else Join(Marked(Lines(oldText), Lines(newText), 0, 0))
  }

  /** One of the two texts, read back from the diff alone. */
  function Recover(diff: string, mark: char): string { Join(Side(Lines(diff), mark)) }

  /** For distinct texts the diff determines both: the lines marked "- " or "  " rejoin to the old
      text, those marked "+ " or "  " to the new one. */
  lemma DiffIsLossless(oldText: string, newText: string)
    requires oldText != newText
    ensures Recover(Diff(oldText, newText), '-') == oldText
    ensures Recover(Diff(oldText, newText), '+') == newText
  {
    var a, b := Lines(oldText), Lines(newText);
    MarkedLinesClean(a, b, 0, 0);
    SidesRecovered(a, b, 0, 0);
    assert a[0..] == a && b[0..] == b;
    LinesJoin(Marked(a, b, 0, 0));
    JoinLines(oldText);
    JoinLines(newText);
  }

  lemma DiffEmptyIffEqual(oldText: string, newText: string)
    ensures Diff(oldText, newText) == "" <==> oldText == newText
  {
    if oldText != newText {
      var a, b := Lines(oldText), Lines(newText);
      MarkedLinesClean(a, b, 0, 0);
      var ms := Marked(a, b, 0, 0);
      assert ms != [] && ms[0] in ms;
    }
  }

  method MarkLines(oldLines: seq<string>, newLines: seq<string>) returns (result: seq<string>)
    ensures result == Marked(oldLines, newLines, 0, 0)
  {
    result := [];
    var oldIdx, newIdx := 0, 0;
    while oldIdx < |oldLines| || newIdx < |newLines|
      invariant 0 <= oldIdx <= |oldLines| && 0 <= newIdx <= |newLines|
      invariant result + Marked(oldLines, newLines, oldIdx, newIdx) == Marked(oldLines, newLines, 0, 0)
      decreases |oldLines| - oldIdx + |newLines| - newIdx
    {
      Regroup(result, oldLines, newLines, oldIdx, newIdx);
      if oldIdx >= |oldLines| {
        result := result + ["+ " + newLines[newIdx]];
        newIdx := newIdx + 1;
      } else if newIdx >= |newLines| {
        result := result + ["- " + oldLines[oldIdx]];
        oldIdx := oldIdx + 1;
      } else if oldLines[oldIdx] == newLines[newIdx] {
        result := result + ["  " + oldLines[oldIdx]];
        oldIdx := oldIdx + 1;
        newIdx := newIdx + 1;
      } else {
        result := result + (["- " + oldLines[oldIdx]] + ["+ " + newLines[newIdx]]);
        oldIdx := oldIdx + 1;
        newIdx := newIdx + 1;
      }
    }
  }

  lemma Regroup(done: seq<string>, a: seq<string>, b: seq<string>, i: nat, j: nat)
    requires i <= |a| && j <= |b| && (i < |a| || j < |b|)
    ensures done + Marked(a, b, i, j) == (done + Mark(a, b, i, j)) + Marked(a, b, Next(i, |a|), Next(j, |b|))
  {
  }

  method ComputeDiff(oldStr: string, newStr: string) returns (diff: string)
    ensures diff == "" <==> oldStr == newStr
    ensures oldStr != newStr ==> Recover(diff, '-') == oldStr && Recover(diff, '+') == newStr
    ensures diff == Diff(oldStr, newStr)
  {
    DiffEmptyIffEqual(oldStr, newStr);
    if oldStr == newStr {
      return "";
    }
    DiffIsLossless(oldStr, newStr);
    var result := MarkLines(Lines(oldStr), Lines(newStr));
    diff := Join(result);
  }
}
