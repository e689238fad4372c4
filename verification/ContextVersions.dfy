/** Versions of a satellite's context file (internal/database/context.go, internal/grpc/gateway.go).
    An update copies the row into the history table and then overwrites it, in two statements; a change
    reported by the satellite overwrites it in one.  Each statement is one atomic step, so the steps of
    different callers can interleave.
 */
module ContextVersions {
  import opened Wrappers

  datatype Text = Text(content: string, author: string)
  datatype Entry = Entry(version: nat, text: Text)

  /** `past` is the text of every version so far, the current one last. */
  datatype State = State(version: nat, text: Text, history: seq<Entry>, past: seq<Text>)

  datatype Statement =
    | Copy
    | Bump(text: Text)
    | Upsert(text: Text)

  function Created(text: Text): State { State(1, text, [], [text]) }

  function Step(s: State, a: Statement): State {
    match a
    case Copy => s.(history := s.history + [Entry(s.version, s.text)])
    case Bump(t) => s.(version := s.version + 1, text := t, past := s.past + [t])
    case Upsert(t) => s.(version := s.version + 1, text := t, past := s.past + [t])
  }

  function Run(s: State, acts: seq<Statement>): State {
    if acts == [] then s else Step(Run(s, acts[..|acts| - 1]), acts[|acts| - 1])
  }

  // ---------------------------------------------------------------- every interleaving

  function Count(acts: seq<Statement>, p: Statement -> bool): nat {
    if acts == [] then 0 else Count(acts[..|acts| - 1], p) + if p(acts[|acts| - 1]) then 1 else 0
  }

  function Copies(acts: seq<Statement>): nat { Count(acts, (a: Statement) => a.Copy?) }
  function Upserts(acts: seq<Statement>): nat { Count(acts, (a: Statement) => a.Upsert?) }
  function Bumps(acts: seq<Statement>): nat { Count(acts, (a: Statement) => a.Bump?) }

  /** History never lies: every entry is the text its version had, and entries come in version order. */
  ghost predicate Truthful(s: State) {
    && |s.past| == s.version >= 1 && s.past[s.version - 1] == s.text
    && (forall i :: 0 <= i < |s.history| ==> 1 <= s.history[i].version <= s.version
                                             && s.history[i].text == s.past[s.history[i].version - 1])
    && (forall i, j :: 0 <= i < j < |s.history| ==> s.history[i].version <= s.history[j].version)
  }

  lemma StepTruthful(s: State, a: Statement)
    requires Truthful(s)
    ensures Truthful(Step(s, a))
  {
    var t := Step(s, a);
    assert forall i :: 0 <= i < |s.history| ==> t.history[i] == s.history[i];
    assert forall i :: 0 <= i < |s.past| ==> t.past[i] == s.past[i];
  }

  /** In every interleaving history is truthful and ordered, one entry per copy and one version per write. */
  lemma {:induction false} HistoryIsTruthful(text: Text, acts: seq<Statement>)
    ensures Truthful(Run(Created(text), acts))
    ensures |Run(Created(text), acts).history| == Copies(acts)
    ensures Run(Created(text), acts).version == 1 + Bumps(acts) + Upserts(acts)
  {
    if acts != [] {
      HistoryIsTruthful(text, acts[..|acts| - 1]);
      StepTruthful(Run(Created(text), acts[..|acts| - 1]), acts[|acts| - 1]);
    }
  }

  /** The texts written, in order. */
  function Writes(acts: seq<Statement>): seq<Text> {
    if acts == [] then []
    else
      var a := acts[|acts| - 1];
      Writes(acts[..|acts| - 1]) + if a.Copy? then [] else [a.text]
  }

  /** Version v of the file is the text of its v-th write, the creation being the first. */
  lemma {:induction false} VersionsAreWrites(text: Text, acts: seq<Statement>)
    ensures var s := Run(Created(text), acts);
      && s.past == [text] + Writes(acts) && s.version == 1 + |Writes(acts)|
      && s.text == ([text] + Writes(acts))[|Writes(acts)|]
  {
    if acts != [] {
      VersionsAreWrites(text, acts[..|acts| - 1]);
    }
  }

  predicate Distinct(h: seq<Entry>) { forall i, j :: 0 <= i < j < |h| ==> h[i].version != h[j].version }

  /** Whether a copy was made since the row last changed. */
  predicate CopiedSince(acts: seq<Statement>) { acts != [] && acts[|acts| - 1].Copy? }

  /** No copy is made while another copy of the same row version is waiting for its write. */
  predicate NoOverlap(acts: seq<Statement>) {
    acts == [] || (NoOverlap(acts[..|acts| - 1])
                   && (acts[|acts| - 1].Copy? ==> !CopiedSince(acts[..|acts| - 1])))
  }

  lemma LastCopy(text: Text, acts: seq<Statement>)
    ensures var s := Run(Created(text), acts);
            CopiedSince(acts) <==> s.history != [] && s.history[|s.history| - 1].version == s.version
  {
    if acts != [] {
      HistoryIsTruthful(text, acts[..|acts| - 1]);
    }
  }

  /** History records distinct versions exactly when no two updates copy the same version. */
  lemma {:induction false} DistinctIffNoOverlap(text: Text, acts: seq<Statement>)
    ensures Distinct(Run(Created(text), acts).history) <==> NoOverlap(acts)
  {
    if acts != [] {
      var pre := acts[..|acts| - 1];
      var s := Run(Created(text), pre);
      var t := Run(Created(text), acts);
      DistinctIffNoOverlap(text, pre);
      LastCopy(text, pre);
      HistoryIsTruthful(text, pre);
      if acts[|acts| - 1].Copy? {
        CopyDistinct(s);
      }
    }
  }

  lemma CopyDistinct(s: State)
    requires Truthful(s)
    ensures Distinct(Step(s, Copy).history) <==>
              Distinct(s.history) && !(s.history != [] && s.history[|s.history| - 1].version == s.version)
  {
    var h, t, n := s.history, Step(s, Copy).history, |s.history|;
    assert forall i :: 0 <= i < n ==> t[i] == h[i];
    assert t[n].version == s.version;
    if Distinct(h) && n > 0 && h[n - 1].version != s.version {
      assert forall i :: 0 <= i < n ==> h[i].version <= h[n - 1].version;
    }
    if Distinct(t) {
      assert forall i, j :: 0 <= i < j < n ==> t[i].version != t[j].version;
      assert n > 0 ==> t[n - 1].version != t[n].version;
    }
  }

  /** Two interleaved updates, from any point of any run: both record the same version, and the version the
      first of them wrote is never recorded. */
  lemma InterleavedUpdatesLoseAVersion(text: Text, acts: seq<Statement>, a: Text, b: Text)
    ensures var s := Run(Created(text), acts);
            var t := Step(Step(Step(Step(s, Copy), Copy), Bump(a)), Bump(b));
            && t.version == s.version + 2 && !Distinct(t.history)
            && (forall i :: 0 <= i < |t.history| ==> t.history[i].version != s.version + 1)
  {
    var s := Run(Created(text), acts);
    HistoryIsTruthful(text, acts);
    var h := s.history + [Entry(s.version, s.text)] + [Entry(s.version, s.text)];
    assert h[|s.history|] == h[|s.history| + 1] == Entry(s.version, s.text);
    assert forall i :: 0 <= i < |s.history| ==> h[i] == s.history[i];
  }

  /** How often the row was written before statement k. */
  function WritesBefore(acts: seq<Statement>, k: nat): nat
    requires k <= |acts|
  {
    Bumps(acts[..k]) + Upserts(acts[..k])
  }

  /** A copy is made after the write of version v and before the next write. */
  ghost predicate CopiedAt(acts: seq<Statement>, v: nat, k: nat)
    requires k < |acts|
  {
    acts[k].Copy? && WritesBefore(acts, k) + 1 == v
  }

  ghost predicate CopiedWhile(acts: seq<Statement>, v: nat) { exists k :: 0 <= k < |acts| && CopiedAt(acts, v, k) }

  predicate Recorded(h: seq<Entry>, v: nat) { exists i :: 0 <= i < |h| && h[i].version == v }

  lemma CopiedWhileSnoc(acts: seq<Statement>, v: nat)
    requires acts != []
    ensures CopiedWhile(acts, v) <==> CopiedWhile(acts[..|acts| - 1], v) || CopiedAt(acts, v, |acts| - 1)
  {
    hide Count;
    var n := |acts| - 1;
    var pre := acts[..n];
    forall k | 0 <= k < n
      ensures CopiedAt(pre, v, k) == CopiedAt(acts, v, k)
    {
      assert pre[..k] == acts[..k];
    }
  }

  lemma RecordedCopy(h: seq<Entry>, e: Entry, v: nat)
    ensures Recorded(h + [e], v) <==> Recorded(h, v) || e.version == v
  {
    var g := h + [e];
    if Recorded(h, v) {
      var i :| 0 <= i < |h| && h[i].version == v;
      assert g[i] == h[i];
    }
    if e.version == v {
      assert g[|h|] == e;
    }
  }

  /** In every interleaving a version is in the history exactly when a copy was made between the write of
      that version and the next write. */
  lemma {:induction false} RecordedIffCopied(text: Text, acts: seq<Statement>, v: nat)
    ensures Recorded(Run(Created(text), acts).history, v) <==> CopiedWhile(acts, v)
  {
    if acts != [] {
      var n := |acts| - 1;
      var pre := acts[..n];
      var s := Run(Created(text), pre);
      RecordedIffCopied(text, pre, v);
      HistoryIsTruthful(text, pre);
      hide CopiedWhile, Recorded, Count;
      CopiedWhileSnoc(acts, v);
      if acts[n].Copy? {
        RecordedCopy(s.history, Entry(s.version, s.text), v);
      }
    }
  }

  // ---------------------------------------------------------------- one caller at a time

  datatype Call = Update(text: Text) | Report(text: Text)

  function After(s: State, c: Call): State {
    match c
    case Update(t) => Step(Step(s, Copy), Bump(t))
    case Report(t) => Step(s, Upsert(t))
  }

  function Serial(s: State, calls: seq<Call>): State {
    if calls == [] then s else After(Serial(s, calls[..|calls| - 1]), calls[|calls| - 1])
  }

  function Reports(calls: seq<Call>): nat {
    if calls == [] then 0 else Reports(calls[..|calls| - 1]) + if calls[|calls| - 1].Report? then 1 else 0
  }

  /** The text version k + 1 had, given the first text and the calls. */
  function TextAt(text: Text, calls: seq<Call>, k: nat): Text
    requires k <= |calls|
  {
    if k == 0 then text else calls[k - 1].text
  }

  /** The versions that an update, not a satellite report, replaced. */
  function Replaced(text: Text, calls: seq<Call>): seq<Entry> {
    if calls == [] then []
    else
      var n := |calls| - 1;
      Replaced(text, calls[..n]) + if calls[n].Update? then [Entry(n + 1, TextAt(text, calls, n))] else []
  }

  lemma TextAtPrefix(text: Text, calls: seq<Call>)
    requires calls != []
    ensures TextAt(text, calls, |calls| - 1) == TextAt(text, calls[..|calls| - 1], |calls| - 1)
  {
  }

  /** One caller at a time: history is exactly the replaced versions with the text each had. */
  lemma {:induction false} SerialHistory(text: Text, calls: seq<Call>)
    ensures var s := Serial(Created(text), calls);
            && s.version == |calls| + 1 && s.text == TextAt(text, calls, |calls|)
            && s.history == Replaced(text, calls)
  {
    if calls != [] {
      SerialHistory(text, calls[..|calls| - 1]);
      TextAtPrefix(text, calls);
    }
  }

  lemma {:induction false} ReplacedShape(text: Text, calls: seq<Call>)
    ensures var h := Replaced(text, calls);
            && |h| == |calls| - Reports(calls)
            && (forall i :: 0 <= i < |h| ==> 1 <= h[i].version <= |calls| && h[i].text == TextAt(text, calls, h[i].version - 1))
            && (forall i, j :: 0 <= i < j < |h| ==> h[i].version < h[j].version)
  {
    if calls != [] {
      var n := |calls| - 1;
      var g, h := Replaced(text, calls[..n]), Replaced(text, calls);
      ReplacedShape(text, calls[..n]);
      forall i | 0 <= i < |g|
        ensures h[i] == g[i] && h[i].text == TextAt(text, calls, h[i].version - 1)
      {
        assert g[i].version - 1 <= n;
      }
    }
  }

  /** Version conservation: with one caller at a time, history versions increase, stay below the current
      version, carry the text of their version, and number version - 1 minus the satellite reports. */
  lemma VersionConservation(text: Text, calls: seq<Call>)
    ensures var s := Serial(Created(text), calls);
            && s.version == |calls| + 1
            && |s.history| == s.version - 1 - Reports(calls)
            && (forall i :: 0 <= i < |s.history| ==> 1 <= s.history[i].version < s.version
                                                     && s.history[i].text == TextAt(text, calls, s.history[i].version - 1))
            && (forall i, j :: 0 <= i < j < |s.history| ==> s.history[i].version < s.history[j].version)
  {
    SerialHistory(text, calls);
    ReplacedShape(text, calls);
  }

  /** A file that only updates touched has a complete history: version i + 1 with its text, for every
      version before the current one. */
  lemma {:induction false} CompleteHistory(text: Text, calls: seq<Call>)
    requires forall i :: 0 <= i < |calls| ==> calls[i].Update?
    ensures var h := Serial(Created(text), calls).history;
            |h| == |calls| && forall i :: 0 <= i < |h| ==> h[i] == Entry(i + 1, TextAt(text, calls, i))
  {
    SerialHistory(text, calls);
    if calls != [] {
      CompleteHistory(text, calls[..|calls| - 1]);
      SerialHistory(text, calls[..|calls| - 1]);
    }
  }

  // ---------------------------------------------------------------- the row

  class ContextFile {
    var present: bool
    var state: State

    constructor (text: Text)
      ensures present && state == Created(text)
    {
      present, state := true, Created(text);
    }

    /** Copies the row into the history, then writes the new text; nothing happens to a missing file. */
    method UpdateContextFile(text: Text) returns (r: Option<State>)
      modifies this
      ensures present == old(present)
      ensures !present ==> r.None? && state == old(state)
      ensures present ==> r == Some(state) && state == After(old(state), Update(text))
                          && state.version == old(state).version + 1 && state.text == text
    {
      if !present {
        return None;
      }
      state := state.(history := state.history + [Entry(state.version, state.text)]);
      state := state.(version := state.version + 1, text := text, past := state.past + [text]);
      r := Some(state);
    }

    /** The satellite's own change: insert, or overwrite without a history entry. */
    method ReportChange(text: Text)
      modifies this
      ensures present
      ensures state == if old(present) then After(old(state), Report(text)) else Created(text)
    {
      if present {
        state := state.(version := state.version + 1, text := text, past := state.past + [text]);
      } else {
        present, state := true, Created(text);
      }
    }
  }
}
