/** The life of one agent run's row.  Two writers finish a run: a goroutine started by agent_end, and
    the handler of the session's TERMINATED update.  Lookups and updates are separate statements, so
    they interleave; a connection remembers the session's run once it has seen one of its events.
 */
module RunStatus {
  import opened Wrappers

  datatype Status = Running | Completed | Failed

  datatype Row = Row(status: Status, endedAt: Option<int>, totalTokens: int, estimatedCost: real, toolCallCount: int,
                     result: Option<string>, error: Option<string>, metadata: string)

  datatype Updates = Updates(status: Option<Status>, endedAt: Option<int>, totalTokens: Option<int>,
                             estimatedCost: Option<real>, toolCallCount: Option<int>,
                             result: Option<string>, error: Option<string>, metadata: Option<string>)

  const NoUpdates := Updates(None, None, None, None, None, None, None, None)

  function Keep<T>(u: Option<T>, v: T): T { if u.Some? then u.value else v }

  function KeepOpt<T>(u: Option<T>, v: Option<T>): Option<T> { if u.Some? then u else v }

  /** The UPDATE statement: given columns replaced, the others kept, the old status not consulted. */
  function Apply(r: Row, u: Updates): Row {
    Row(Keep(u.status, r.status), KeepOpt(u.endedAt, r.endedAt), Keep(u.totalTokens, r.totalTokens),
        Keep(u.estimatedCost, r.estimatedCost), Keep(u.toolCallCount, r.toolCallCount),
        KeepOpt(u.result, r.result), KeepOpt(u.error, r.error), Keep(u.metadata, r.metadata))
  }

  /** The statement is assembled column by column; assignments of no column leave the row alone. */
  class AgentRunStore {
    var row: Row

    method UpdateAgentRun(u: Updates) returns (touched: bool)
      modifies this
      ensures row == Apply(old(row), u)
      ensures row.status == if u.status.Some? then u.status.value else old(row).status
      ensures row.endedAt == if u.endedAt.Some? then u.endedAt else old(row).endedAt
      ensures row.totalTokens == if u.totalTokens.Some? then u.totalTokens.value else old(row).totalTokens
      ensures row.estimatedCost == if u.estimatedCost.Some? then u.estimatedCost.value else old(row).estimatedCost
      ensures row.toolCallCount == if u.toolCallCount.Some? then u.toolCallCount.value else old(row).toolCallCount
      ensures row.result == if u.result.Some? then u.result else old(row).result
      ensures row.error == if u.error.Some? then u.error else old(row).error
      ensures row.metadata == if u.metadata.Some? then u.metadata.value else old(row).metadata
      ensures touched <==> u != NoUpdates
      ensures !touched ==> row == old(row)
    {
      touched := false;
      var next := row;
      if u.status.Some? {
        next := next.(status := u.status.value);
        touched := true;
      }
      if u.endedAt.Some? {
        next := next.(endedAt := u.endedAt);
        touched := true;
      }
      if u.totalTokens.Some? {
        next := next.(totalTokens := u.totalTokens.value);
        touched := true;
      }
      if u.estimatedCost.Some? {
        next := next.(estimatedCost := u.estimatedCost.value);
        touched := true;
      }
      if u.toolCallCount.Some? {
        next := next.(toolCallCount := u.toolCallCount.value);
        touched := true;
      }
      if u.result.Some? {
        next := next.(result := u.result);
        touched := true;
      }
      if u.error.Some? {
        next := next.(error := u.error);
        touched := true;
      }
      if u.metadata.Some? {
        next := next.(metadata := u.metadata.value);
        touched := true;
      }
      if touched {
        row := next;
      }
    }
  }

  /** `mapped`: the current connection knows the run; `ending`: agent_end goroutines yet to write;
      `closing`: TERMINATED handlers between lookup and write; `writes`: every status written so far. */
  datatype State = State(row: Row, mapped: bool, ending: seq<Updates>, closing: seq<Updates>, writes: seq<Status>)

  const NewRow := Row(Running, None, 0, 0.0, 0, None, None, "")

  const Init := State(NewRow, false, [], [], [])

  datatype Action =
    | AgentEvent                                                // any event but agent_end
    | AgentEnd(error: Option<string>, result: Option<string>, tokens: Option<int>, at: int)  // payload fields, clock
    | EndCommit(k: nat)
    | Terminated(message: Option<string>, at: int)
    | TermCommit(k: nat)
    | Reconnect

  const NoOutput := "agent process terminated without output"

  function EndUpdates(error: Option<string>, result: Option<string>, tokens: Option<int>, at: int): Updates {
    NoUpdates.(status := Some(if error.Some? && error.value != "" then Failed else Completed),
               endedAt := Some(at),
               result := if result.Some? && result.value != "" then result else None,
               totalTokens := if tokens.Some? && tokens.value > 0 then tokens else None)
  }

  function TermUpdates(message: Option<string>, at: int): Updates {
    NoUpdates.(status := Some(Failed), endedAt := Some(at),
               error := Some(if message.Some? && message.value != "" then message.value else NoOutput))
  }

  /** The mapping, or the lookup of a run that is still running. */
  predicate Finds(s: State) { s.mapped || s.row.status == Running }

  function Drop<T>(xs: seq<T>, k: nat): seq<T>
    requires k < |xs|
  {
    xs[..k] + xs[k + 1..]
  }

  function Write(s: State, u: Updates): State {
    s.(row := Apply(s.row, u), writes := if u.status.Some? then s.writes + [u.status.value] else s.writes)
  }

  function Step(s: State, a: Action): State {
    match a
    case AgentEvent => s.(mapped := Finds(s))
    case AgentEnd(error, result, tokens, at) =>
      if Finds(s) then s.(mapped := true, ending := s.ending + [EndUpdates(error, result, tokens, at)]) else s
    case EndCommit(k) => if k < |s.ending| then Write(s.(ending := Drop(s.ending, k)), s.ending[k]) else s
    case Terminated(message, at) =>
      // the lookup on this path does not fill the mapping
      if Finds(s) then s.(closing := s.closing + [TermUpdates(message, at)]) else s
    case TermCommit(k) => if k < |s.closing| then Write(s.(closing := Drop(s.closing, k)), s.closing[k]) else s
    case Reconnect => s.(mapped := false)
  }

  function Run(acts: seq<Action>): State {
    if acts == [] then Init else Step(Run(acts[..|acts| - 1]), acts[|acts| - 1])
  }

  /** Writes done plus writes some handler is committed to. */
  function Commitments(s: State): nat { |s.writes| + |s.ending| + |s.closing| }

  ghost predicate Consistent(s: State) {
    && s.row.status == (if s.writes == [] then Running else s.writes[|s.writes| - 1])
    && (forall w :: w in s.writes ==> w != Running)
    && (forall u :: u in s.ending ==> u.status.Some? && u.status.value != Running)
    && (forall u :: u in s.closing ==> u.status == Some(Failed))
  }

  lemma StepConsistent(s: State, a: Action)
    requires Consistent(s)
    ensures Consistent(Step(s, a))
  {
  }

  /** The last writer wins: the status is whatever was written last, in every run. */
  lemma {:induction false} LastWriterWins(acts: seq<Action>)
    ensures Consistent(Run(acts))
  {
    if acts != [] {
      LastWriterWins(acts[..|acts| - 1]);
      StepConsistent(Run(acts[..|acts| - 1]), acts[|acts| - 1]);
    }
  }

  /** A finishing message adds a write exactly when its handler finds the run: the connection has it
      mapped, or it is still running. */
  predicate Commits(s: State, a: Action) { (a.AgentEnd? || a.Terminated?) && Finds(s) }

  lemma StepCommitments(s: State, a: Action)
    requires Consistent(s)
    ensures Commitments(Step(s, a)) == Commitments(s) + (if Commits(s, a) then 1 else 0)
  {
  }

  /** How many finishing messages found the run. */
  function Found(acts: seq<Action>): nat {
    if acts == [] then 0
    else Found(acts[..|acts| - 1]) + (if Commits(Run(acts[..|acts| - 1]), acts[|acts| - 1]) then 1 else 0)
  }

  lemma {:induction false} CommitmentsAreFound(acts: seq<Action>)
    ensures Commitments(Run(acts)) == Found(acts)
  {
    if acts != [] {
      CommitmentsAreFound(acts[..|acts| - 1]);
      LastWriterWins(acts[..|acts| - 1]);
      StepCommitments(Run(acts[..|acts| - 1]), acts[|acts| - 1]);
    }
  }

  /** Once every handler has written, the run left `running` at most once (its terminal status was never
      overwritten) if and only if at most one finishing message found it. */
  lemma WrittenOnceIff(acts: seq<Action>)
    requires Run(acts).ending == [] && Run(acts).closing == []
    ensures |Run(acts).writes| <= 1 <==> Found(acts) <= 1
    ensures Run(acts).row.status == Running <==> Found(acts) == 0
  {
    CommitmentsAreFound(acts);
    LastWriterWins(acts);
    Settled(Run(acts));
  }

  lemma Settled(s: State)
    requires Consistent(s) && s.ending == [] && s.closing == []
    ensures Commitments(s) == |s.writes|
    ensures s.row.status == Running <==> |s.writes| == 0
  {
    if s.writes != [] {
      assert s.writes[|s.writes| - 1] in s.writes;
    }
  }

  /** Nothing is mapped or underway when a finishing message arrives, or the row is terminal and unmapped. */
  predicate Guarded(s: State, a: Action) {
    (a.AgentEnd? || a.Terminated?) ==>
      if s.row.status == Running then s.ending == [] && s.closing == [] else !s.mapped
  }

  ghost predicate AllGuarded(acts: seq<Action>) {
    forall k :: 0 <= k < |acts| ==> Guarded(Run(acts[..k]), acts[k])
  }

  lemma GuardedStep(s: State, a: Action)
    requires Consistent(s) && Commitments(s) <= 1
    ensures Commitments(Step(s, a)) <= 1 <==> Guarded(s, a)
  {
    StepCommitments(s, a);
    if s.writes != [] {
      assert s.writes[|s.writes| - 1] in s.writes;
    }
  }

  /** A run commits at most one status write exactly when every finishing message either finds the run
      running with no writer outstanding, or finds it finished on a connection without the mapping. */
  lemma {:induction false} AbsorbingIffGuarded(acts: seq<Action>)
    ensures Commitments(Run(acts)) <= 1 <==> AllGuarded(acts)
  {
    if acts != [] {
      var n := |acts| - 1;
      var pre, a := acts[..n], acts[n];
      AbsorbingIffGuarded(pre);
      GuardedPrefix(acts);
      LastWriterWins(pre);
      StepCommitments(Run(pre), a);
      if Commitments(Run(pre)) <= 1 {
        GuardedStep(Run(pre), a);
      }
    }
  }

  lemma GuardedPrefix(acts: seq<Action>)
    requires acts != []
    ensures AllGuarded(acts) <==> AllGuarded(acts[..|acts| - 1]) && Guarded(Run(acts[..|acts| - 1]), acts[|acts| - 1])
  {
    hide Guarded, Run;
    var pre := acts[..|acts| - 1];
    forall k | 0 <= k < |pre|
      ensures Guarded(Run(pre[..k]), pre[k]) == Guarded(Run(acts[..k]), acts[k])
    {
      assert pre[..k] == acts[..k];
    }
    assert acts[..|pre|] == pre;
  }

  /** So, with no write under way, the status left `running` at most once exactly in those runs. */
  lemma TerminalStatusIsFinalIff(acts: seq<Action>)
    requires Run(acts).ending == [] && Run(acts).closing == []
    ensures |Run(acts).writes| <= 1 <==> AllGuarded(acts)
  {
    AbsorbingIffGuarded(acts);
  }

  /** Handled without interruption, TERMINATED overwrites a terminal row exactly when the connection
      has the run mapped. */
  lemma TerminatedOverwritesIff(acts: seq<Action>, message: Option<string>, at: int)
    requires Run(acts).closing == []
    ensures var s := Run(acts);
      var t := Step(Step(s, Terminated(message, at)), TermCommit(0));
      s.row.status != Running ==> (t != s <==> s.mapped) && (s.mapped ==> t.row.status == Failed && t.row.error.Some?)
  {
    var s := Run(acts);
    var m := Step(s, Terminated(message, at));
    if s.mapped {
      assert m.closing == [TermUpdates(message, at)];
      assert |Step(m, TermCommit(0)).writes| == |s.writes| + 1;
    }
  }

  lemma Snoc(acts: seq<Action>, a: Action)
    ensures Run(acts + [a]) == Step(Run(acts), a)
  {
    assert (acts + [a])[..|acts + [a]| - 1] == acts;
  }

  lemma EndSteps(s: State, a: Action)
    requires s.row.status == Running && s.ending == [] && s.closing == []
    requires a.AgentEnd? && a.error.None? && a.result.Some? && a.result.value != ""
    ensures var t := Step(Step(s, a), EndCommit(0));
      && t.mapped && t.closing == [] && t.row == Apply(s.row, EndUpdates(None, a.result, a.tokens, a.at))
      && t.row.status == Completed && t.row.result == a.result
  {
    assert Step(s, a).ending == [EndUpdates(None, a.result, a.tokens, a.at)];
  }

  lemma TermSteps(s: State, at: int)
    requires s.mapped && s.closing == []
    ensures Step(Step(s, Terminated(None, at)), TermCommit(0)).row
         == s.row.(status := Failed, endedAt := Some(at), error := Some(NoOutput))
  {
    assert Step(s, Terminated(None, at)).closing == [TermUpdates(None, at)];
  }

  /** The ordinary end of a run on one connection: agent_end succeeds, its goroutine stores `completed`
      with the result, then the process's TERMINATED update turns the row into `failed`, keeping the
      result.  It holds from every state in which the run is running and nothing is underway. */
  lemma CompletedRunBecomesFailed(acts: seq<Action>, a: Action, at: int)
    requires var s := Run(acts); s.row.status == Running && s.ending == [] && s.closing == []
    requires a.AgentEnd? && a.error.None? && a.result.Some? && a.result.value != ""
    ensures var mid := acts + [a] + [EndCommit(0)];
      && Run(mid).row.status == Completed && Run(mid).row.result == a.result
      && Run(mid + [Terminated(None, at)] + [TermCommit(0)]).row
         == Run(mid).row.(status := Failed, endedAt := Some(at), error := Some(NoOutput))
  {
    hide Step, Run;
    var mid := acts + [a] + [EndCommit(0)];
    Snoc(acts, a);
    Snoc(acts + [a], EndCommit(0));
    EndSteps(Run(acts), a);
    Snoc(mid, Terminated(None, at));
    Snoc(mid + [Terminated(None, at)], TermCommit(0));
    TermSteps(Run(mid), at);
  }

  // ---------------------------------------------------------------- what an ending stores

  lemma DropLast<T>(xs: seq<T>, x: T)
    ensures Drop(xs + [x], |xs|) == xs
  {
  }

  /** What agent_end stores, column by column, from any point of any run at which its handler finds the run,
      whatever else is under way: failed exactly for a non-empty error, the clock, a non-empty result and a
      positive number of tokens, and nothing else.  A handler that does not find it changes nothing. */
  lemma AgentEndStores(acts: seq<Action>, error: Option<string>, result: Option<string>, tokens: Option<int>, at: int)
    ensures var s := Run(acts);
      var t := Run(acts + [AgentEnd(error, result, tokens, at)] + [EndCommit(|s.ending|)]);
      if s.mapped || s.row.status == Running then
        && (t.row.status == Failed <==> error.Some? && error.value != "")
        && (t.row.status == Completed <==> error.None? || error.value == "")
        && t.row.endedAt == Some(at)
        && t.row.result == (if result.Some? && result.value != "" then result else s.row.result)
        && t.row.totalTokens == (if tokens.Some? && tokens.value > 0 then tokens.value else s.row.totalTokens)
        && t.row.error == s.row.error && t.row.estimatedCost == s.row.estimatedCost
        && t.row.toolCallCount == s.row.toolCallCount && t.row.metadata == s.row.metadata
        && t.mapped && t.ending == s.ending && t.closing == s.closing
      else t == s
  {
    var s, a := Run(acts), AgentEnd(error, result, tokens, at);
    Snoc(acts, a);
    Snoc(acts + [a], EndCommit(|s.ending|));
    if Finds(s) {
      DropLast(s.ending, EndUpdates(error, result, tokens, at));
    }
  }

  /** What TERMINATED stores, likewise: failed, the clock, and the message or the fixed text. */
  lemma TerminatedStores(acts: seq<Action>, message: Option<string>, at: int)
    ensures var s := Run(acts);
      var t := Run(acts + [Terminated(message, at)] + [TermCommit(|s.closing|)]);
      if s.mapped || s.row.status == Running then
        && t.row == s.row.(status := Failed, endedAt := Some(at),
                           error := Some(if message.Some? && message.value != "" then message.value
                                         else "agent process terminated without output"))
        && t.mapped == s.mapped && t.ending == s.ending && t.closing == s.closing
      else t == s
  {
    var s, a := Run(acts), Terminated(message, at);
    Snoc(acts, a);
    Snoc(acts + [a], TermCommit(|s.closing|));
    if Finds(s) {
      DropLast(s.closing, TermUpdates(message, at));
    }
  }

  /** Event k of the session came while the run was running, and the connection has not changed since. */
  ghost predicate MapsAt(acts: seq<Action>, k: nat)
    requires k < |acts|
  {
    && (acts[k].AgentEvent? || acts[k].AgentEnd?) && Run(acts[..k]).row.status == Running
    && forall j :: k < j < |acts| ==> !acts[j].Reconnect?
  }

  lemma MapsAtSnoc(acts: seq<Action>, k: nat)
    requires k + 1 < |acts|
    ensures MapsAt(acts, k) <==> MapsAt(acts[..|acts| - 1], k) && !acts[|acts| - 1].Reconnect?
  {
    hide Run;
    var pre := acts[..|acts| - 1];
    assert pre[..k] == acts[..k];
    assert forall j :: k < j < |pre| ==> pre[j] == acts[j];
  }

  /** A connection knows the run exactly when one of its events came while the run was running. */
  lemma {:induction false} MappedIff(acts: seq<Action>)
    ensures Run(acts).mapped <==> exists k :: 0 <= k < |acts| && MapsAt(acts, k)
  {
    if acts != [] {
      hide MapsAt;
      var n := |acts| - 1;
      var pre, s := acts[..n], Run(acts[..n]);
      MappedIff(pre);
      forall k | 0 <= k < n ensures MapsAt(acts, k) <==> MapsAt(pre, k) && !acts[n].Reconnect? {
        MapsAtSnoc(acts, k);
      }
      MappedStep(s, acts[n]);
      LastMaps(acts);
    }
  }

  lemma MappedStep(s: State, a: Action)
    ensures Step(s, a).mapped <==>
      !a.Reconnect? && (s.mapped || ((a.AgentEvent? || a.AgentEnd?) && s.row.status == Running))
  {
  }

  lemma LastMaps(acts: seq<Action>)
    requires acts != []
    ensures var n := |acts| - 1;
      MapsAt(acts, n) <==> (acts[n].AgentEvent? || acts[n].AgentEnd?) && Run(acts[..n]).row.status == Running
  {
    hide Run;
  }
}
