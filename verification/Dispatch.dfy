/** Choosing a satellite for an agent run (internal/dispatch/dispatcher.go).  Percentages and scores are
    reals; times are nanoseconds.
 */
module Dispatch {
  import opened Wrappers

  /** An active satellite with its latest telemetry, if any. */
  datatype Satellite = Satellite(id: nat, tags: seq<string>, cpu: Option<real>, mem: Option<real>,
                                 disk: Option<real>, telemetryAt: Option<int>)

  datatype Options = Options(requireTags: seq<string>, preferTags: seq<string>)

  datatype Result = Result(id: nat, score: real, matchedTags: seq<string>, dispatched: bool)

  // ---------------------------------------------------------------- tags

  predicate HasAll(tags: seq<string>, required: seq<string>) { forall i :: 0 <= i < |required| ==> required[i] in tags }

  /** The preferred tags that the satellite has, in the order and as often as they are preferred. */
  function Matched(tags: seq<string>, prefer: seq<string>): (m: seq<string>)
    ensures |m| <= |prefer|
    ensures forall t :: t in m <==> t in tags && t in prefer
  {
    if prefer == [] then []
    else
      var n := |prefer| - 1;
      assert prefer == prefer[..n] + [prefer[n]];
      Matched(tags, prefer[..n]) + if prefer[n] in tags then [prefer[n]] else []
  }

  method TagSet(tags: seq<string>) returns (s: set<string>)
    ensures forall t :: t in s <==> t in tags
  {
    s := {};
    for i := 0 to |tags|
      invariant forall t :: t in s <==> t in tags[..i]
    {
      s := s + {tags[i]};
    }
    assert tags[..|tags|] == tags;
  }

  method HasAllRequiredTags(tags: seq<string>, required: seq<string>) returns (ok: bool)
    ensures ok <==> HasAll(tags, required)
  {
    if |required| == 0 {
      return true;
    }
    var tagSet := TagSet(tags);
    for i := 0 to |required|
      invariant forall j :: 0 <= j < i ==> required[j] in tags
    {
      if required[i] !in tagSet {
        return false;
      }
    }
    ok := true;
  }

  method ComputeMatchedTags(tags: seq<string>, prefer: seq<string>) returns (matched: seq<string>)
    ensures matched == Matched(tags, prefer)
  {
    if |prefer| == 0 {
      return [];
    }
    var tagSet := TagSet(tags);
    matched := [];
    for i := 0 to |prefer|
      invariant matched == Matched(tags, prefer[..i])
    {
      assert prefer[..i + 1][..i] == prefer[..i];
      if prefer[i] in tagSet {
        matched := matched + [prefer[i]];
      }
    }
    assert prefer[..|prefer|] == prefer;
  }

  /** The count in the score is the length of the list in the result. */
  method CountMatchedTags(tags: seq<string>, prefer: seq<string>) returns (count: nat)
    ensures count == |Matched(tags, prefer)|
  {
    if |prefer| == 0 {
      return 0;
    }
    var tagSet := TagSet(tags);
    count := 0;
    for i := 0 to |prefer|
      invariant count == |Matched(tags, prefer[..i])|
    {
      assert prefer[..i + 1][..i] == prefer[..i];
      if prefer[i] in tagSet {
        count := count + 1;
      }
    }
    assert prefer[..|prefer|] == prefer;
  }

  // ---------------------------------------------------------------- score

  /** A missing measurement counts as zero load. */
  function Percent(p: Option<real>): real { if p.Some? then p.value else 0.0 }

  function BaseScore(cpu: real, mem: real, disk: real): real {
    0.5 * (1.0 - cpu / 100.0) + 0.3 * (1.0 - mem / 100.0) + 0.2 * (1.0 - disk / 100.0)
  }

  function Score(s: Satellite, prefer: seq<string>): real {
    BaseScore(Percent(s.cpu), Percent(s.mem), Percent(s.disk)) + |Matched(s.tags, prefer)| as real * 0.05
  }

  predicate InRange(s: Satellite) {
    0.0 <= Percent(s.cpu) <= 100.0 && 0.0 <= Percent(s.mem) <= 100.0 && 0.0 <= Percent(s.disk) <= 100.0
  }

  lemma BaseBounds(cpu: real, mem: real, disk: real)
    requires 0.0 <= cpu <= 100.0 && 0.0 <= mem <= 100.0 && 0.0 <= disk <= 100.0
    ensures 0.0 <= BaseScore(cpu, mem, disk) <= 1.0
    ensures BaseScore(cpu, mem, disk) == 1.0 <==> cpu == 0.0 && mem == 0.0 && disk == 0.0
    ensures BaseScore(cpu, mem, disk) == 0.0 <==> cpu == 100.0 && mem == 100.0 && disk == 100.0
  {
  }

  /** Scores lie between 0 and 1 plus 0.05 for every preferred tag; the top is reached exactly by an idle
      satellite that has all of them. */
  lemma ScoreBounds(s: Satellite, prefer: seq<string>)
    requires InRange(s)
    ensures 0.0 <= Score(s, prefer) <= 1.0 + 0.05 * |prefer| as real
    ensures Score(s, prefer) == 1.0 + 0.05 * |prefer| as real <==>
              Percent(s.cpu) == Percent(s.mem) == Percent(s.disk) == 0.0 && HasAll(s.tags, prefer)
  {
    BaseBounds(Percent(s.cpu), Percent(s.mem), Percent(s.disk));
    MatchedAllIff(s.tags, prefer);
  }

  lemma {:induction false} MatchedAllIff(tags: seq<string>, prefer: seq<string>)
    ensures |Matched(tags, prefer)| == |prefer| <==> HasAll(tags, prefer)
  {
    if prefer != [] {
      var n := |prefer| - 1;
      MatchedAllIff(tags, prefer[..n]);
      assert HasAll(tags, prefer) <==> HasAll(tags, prefer[..n]) && prefer[n] in tags;
    }
  }

  /** Lower load never lowers the score, and the score tells equal loads apart from lower ones. */
  lemma LowerLoadScoresHigher(s: Satellite, t: Satellite, prefer: seq<string>)
    requires s.tags == t.tags
    requires Percent(s.cpu) <= Percent(t.cpu) && Percent(s.mem) <= Percent(t.mem) && Percent(s.disk) <= Percent(t.disk)
    ensures Score(s, prefer) >= Score(t, prefer)
    ensures Score(s, prefer) == Score(t, prefer) <==>
              Percent(s.cpu) == Percent(t.cpu) && Percent(s.mem) == Percent(t.mem) && Percent(s.disk) == Percent(t.disk)
  {
    BaseMonotone(Percent(s.cpu), Percent(s.mem), Percent(s.disk), Percent(t.cpu), Percent(t.mem), Percent(t.disk));
  }

  /** What one measurement or tag is worth: a point of CPU load costs 0.005, one of memory 0.003, one of disk
      0.002, and a matched preference brings 0.05. */
  lemma ScoreIs(s: Satellite, prefer: seq<string>)
    ensures Score(s, prefer) == 1.0 - 0.005 * Percent(s.cpu) - 0.003 * Percent(s.mem) - 0.002 * Percent(s.disk)
                                + 0.05 * |Matched(s.tags, prefer)| as real
  {
  }

  lemma ScoreDifference(s: Satellite, t: Satellite, prefer: seq<string>)
    requires s.tags == t.tags
    ensures Score(s, prefer) - Score(t, prefer) == 0.005 * (Percent(t.cpu) - Percent(s.cpu))
              + 0.003 * (Percent(t.mem) - Percent(s.mem)) + 0.002 * (Percent(t.disk) - Percent(s.disk))
  {
  }

  lemma BaseMonotone(a: real, b: real, c: real, x: real, y: real, z: real)
    requires a <= x && b <= y && c <= z
    ensures BaseScore(a, b, c) >= BaseScore(x, y, z)
    ensures BaseScore(a, b, c) == BaseScore(x, y, z) <==> a == x && b == y && c == z
  {
  }

  /** More tags never lower the score. */
  lemma {:induction false} MoreTagsMatchMore(tags: seq<string>, more: seq<string>, prefer: seq<string>)
    requires forall t :: t in tags ==> t in more
    ensures |Matched(tags, prefer)| <= |Matched(more, prefer)|
  {
    if prefer != [] {
      MoreTagsMatchMore(tags, more, prefer[..|prefer| - 1]);
    }
  }

  // ---------------------------------------------------------------- candidates

  const MAX_AGE := 60 * 1000000000

  /** Telemetry exists and is at most 60 seconds old. */
  predicate Fresh(at: Option<int>, now: int) { at.Some? && now - at.value <= MAX_AGE }

  predicate Passes(s: Satellite, streams: set<nat>, opts: Options, now: int) {
    s.id in streams && Fresh(s.telemetryAt, now) && HasAll(s.tags, opts.requireTags)
  }

  function Scored(s: Satellite, opts: Options, dispatched: bool): Result {
    Result(s.id, Score(s, opts.preferTags), Matched(s.tags, opts.preferTags), dispatched)
  }

  function Passing(rows: seq<Satellite>, streams: set<nat>, opts: Options, now: int): seq<Result> {
    if rows == [] then []
    else
      var n := |rows| - 1;
      var rest := Passing(rows[..n], streams, opts, now);
      if Passes(rows[n], streams, opts, now) then rest + [Scored(rows[n], opts, false)] else rest
  }

  lemma {:induction false} PassingMembers(rows: seq<Satellite>, streams: set<nat>, opts: Options, now: int, r: Result)
    ensures r in Passing(rows, streams, opts, now) <==>
              exists i :: 0 <= i < |rows| && Passes(rows[i], streams, opts, now) && Scored(rows[i], opts, false) == r
  {
    if rows != [] {
      hide Passes, Scored;
      var n := |rows| - 1;
      PassingMembers(rows[..n], streams, opts, now, r);
      assert forall i :: 0 <= i < n ==> rows[..n][i] == rows[i];
    }
  }

  method FilterCandidate(s: Satellite, streams: set<nat>, opts: Options, now: int) returns (ok: bool)
    ensures ok <==> Passes(s, streams, opts, now)
    ensures ok <==> s.id in streams && s.telemetryAt.Some? && now - s.telemetryAt.value <= 60_000_000_000
                    && forall t :: t in opts.requireTags ==> t in s.tags
  {
    if s.id !in streams {
      return false;
    }
    if s.telemetryAt.None? || now - s.telemetryAt.value > MAX_AGE {
      return false;
    }
    ok := HasAllRequiredTags(s.tags, opts.requireTags);
  }

  method ScoreSatellite(s: Satellite, prefer: seq<string>) returns (score: real)
    ensures score == Score(s, prefer)
  {
    var cpuScore := 1.0 - Percent(s.cpu) / 100.0;
    var memScore := 1.0 - Percent(s.mem) / 100.0;
    var diskScore := 1.0 - Percent(s.disk) / 100.0;
    var baseScore := 0.5 * cpuScore + 0.3 * memScore + 0.2 * diskScore;
    var matchedCount := CountMatchedTags(s.tags, prefer);
    var tagBonus := matchedCount as real * 0.05;
    score := baseScore + tagBonus;
  }

  method Candidates(rows: seq<Satellite>, streams: set<nat>, opts: Options, now: int) returns (cs: seq<Result>)
    ensures cs == Passing(rows, streams, opts, now)
  {
    hide Score, Matched, Passes;
    cs := [];
    for i := 0 to |rows|
      invariant cs == Passing(rows[..i], streams, opts, now)
    {
      var s := rows[i];
      assert rows[..i + 1][..i] == rows[..i];
      var ok := FilterCandidate(s, streams, opts, now);
      if ok {
        var matched := ComputeMatchedTags(s.tags, opts.preferTags);
        var score := ScoreSatellite(s, opts.preferTags);
        cs := cs + [Result(s.id, score, matched, false)];
      }
    }
    assert rows[..|rows|] == rows;
  }

  // ---------------------------------------------------------------- selection

  predicate BestFirst(cs: seq<Result>) { forall i, j :: 0 <= i < j < |cs| ==> cs[i].score >= cs[j].score }

  lemma InsertKeepsOrder(cs: seq<Result>, k: nat, r: Result)
    requires BestFirst(cs) && k <= |cs| && (k > 0 ==> cs[k - 1].score >= r.score)
    requires forall j :: k <= j < |cs| ==> cs[j].score < r.score
    ensures BestFirst(cs[..k] + [r] + cs[k..])
  {
    assert forall i :: 0 <= i < k ==> cs[i].score >= r.score;
  }

  lemma InsertAdds(cs: seq<Result>, k: nat, r: Result)
    requires k <= |cs|
    ensures multiset(cs[..k] + [r] + cs[k..]) == multiset(cs) + multiset{r}
  {
    assert cs == cs[..k] + cs[k..];
  }

  method InsertByScore(cs: seq<Result>, r: Result) returns (out: seq<Result>)
    requires BestFirst(cs)
    ensures BestFirst(out) && multiset(out) == multiset(cs) + multiset{r}
  {
    hide BestFirst;
    var k := |cs|;
    while k > 0 && cs[k - 1].score < r.score
      invariant 0 <= k <= |cs|
      invariant forall j :: k <= j < |cs| ==> cs[j].score < r.score
    {
      k := k - 1;
    }
    InsertKeepsOrder(cs, k, r);
    InsertAdds(cs, k, r);
    out := cs[..k] + [r] + cs[k..];
  }

  lemma PrefixAdds(cs: seq<Result>, i: nat)
    requires i < |cs|
    ensures multiset(cs[..i + 1]) == multiset(cs[..i]) + multiset{cs[i]}
  {
    assert cs[..i + 1] == cs[..i] + [cs[i]];
  }

  /** Any sort by descending score; ties may come in any order. */
  method SortByScore(cs: seq<Result>) returns (sorted: seq<Result>)
    ensures BestFirst(sorted) && multiset(sorted) == multiset(cs)
  {
    sorted := [];
    for i := 0 to |cs|
      invariant BestFirst(sorted) && multiset(sorted) == multiset(cs[..i])
    {
      sorted := InsertByScore(sorted, cs[i]);
      PrefixAdds(cs, i);
    }
    assert cs[..|cs|] == cs;
  }

  /** The candidates that pass every filter, each as often as it passed, best first. */
  method Preview(rows: seq<Satellite>, streams: set<nat>, opts: Options, now: int) returns (results: seq<Result>)
    ensures BestFirst(results) && multiset(results) == multiset(Passing(rows, streams, opts, now))
  {
    var cs := Candidates(rows, streams, opts, now);
    results := SortByScore(cs);
  }

  /** The chosen satellite passes every filter and none that does scores higher; there is none to choose
      exactly when no satellite passes. */
  method Dispatch(rows: seq<Satellite>, streams: set<nat>, opts: Options, now: int) returns (best: Option<Result>)
    ensures best.None? <==> forall i :: 0 <= i < |rows| ==> !Passes(rows[i], streams, opts, now)
    ensures best.Some? ==> exists i :: 0 <= i < |rows| && Passes(rows[i], streams, opts, now)
                                       && best.value == Scored(rows[i], opts, true)
    ensures best.Some? ==> forall i :: 0 <= i < |rows| && Passes(rows[i], streams, opts, now)
                                       ==> Score(rows[i], opts.preferTags) <= best.value.score
  {
    hide Passes, Score, Matched;
    var cs := Candidates(rows, streams, opts, now);
    forall i | 0 <= i < |rows| && Passes(rows[i], streams, opts, now)
      ensures Scored(rows[i], opts, false) in cs
    {
      PassingMembers(rows, streams, opts, now, Scored(rows[i], opts, false));
    }
    if |cs| == 0 {
      return None;
    }
    var sorted := SortByScore(cs);
    assert |sorted| == |multiset(sorted)| == |cs|;
    var b := sorted[0];
    assert b in multiset(sorted);
    PassingMembers(rows, streams, opts, now, b);
    forall i | 0 <= i < |rows| && Passes(rows[i], streams, opts, now)
      ensures Score(rows[i], opts.preferTags) <= b.score
    {
      var r := Scored(rows[i], opts, false);
      assert r in multiset(cs);
      assert r in sorted;
    }
    best := Some(b.(dispatched := true));
  }
}
