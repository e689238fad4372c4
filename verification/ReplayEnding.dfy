/** When the stream of a viewer ends of itself, and when it stays open.
 */
module ReplayEnding {
  import opened Wrappers
  import opened ReplayLive
  import opened ReplayOrder
  import BW = BatchWriter

  // ---------------------------------------------------------------- the end of the stream

  /** The handler returns of itself: after the replay, or once the closed channel is drained. */
  predicate StreamEnds(v: Viewer) { v.sawEnded || v.closedAt.At? }

  /** A subscribed viewer's stream has ended of itself exactly when the run's ending was stored before its
      status was read, or the hub has closed the run since Subscribe. */
  lemma StreamEndsIff(acts: seq<Action>)
    requires Run(acts).viewer.subAt.At?
    ensures var s := Run(acts);
      var v, g := s.viewer, s.ending;
      && v.statusAt.At? && v.statusAt.t < v.subAt.t
      && (StreamEnds(v) <==> Before(g.commitAt, v.statusAt.t) || (g.hubAt.At? && v.subAt.t < g.hubAt.t))
  {
    hide Run;
    RunInv(acts);
  }

  predicate NoFinish(more: seq<Action>) { forall i :: 0 <= i < |more| ==> !more[i].Finish? }

  predicate EndsAfter(acts: seq<Action>, more: seq<Action>) { StreamEnds(Run(acts + more).viewer) }

  ghost predicate StaysOpen(acts: seq<Action>) { forall more :: NoFinish(more) ==> !EndsAfter(acts, more) }

  predicate OpenWithNoneDue(s: State) { s.viewer.statusAt.At? && !StreamEnds(s.viewer) && s.ending.due == 0 }

  lemma OpenStep(s: State, a: Action)
    requires OpenWithNoneDue(s) && !a.Finish?
    ensures OpenWithNoneDue(Step(s, a))
  {
    hide StoreAct, Written, PersistCopy;
  }

  lemma {:induction false} OpenFrom(acts: seq<Action>, more: seq<Action>)
    requires OpenWithNoneDue(Run(acts)) && NoFinish(more)
    ensures OpenWithNoneDue(Run(acts + more))
  {
    if more == [] {
      assert acts + more == acts;
    } else {
      hide Run, Step, OpenWithNoneDue;
      var pre, a := more[..|more| - 1], more[|more| - 1];
      OpenFrom(acts, pre);
      assert acts + more == (acts + pre) + [a];
      Snoc(acts + pre, a);
      OpenStep(Run(acts + pre), a);
    }
  }

  lemma DueCloseEnds(acts: seq<Action>)
    requires Run(acts).viewer.subAt.At? && Run(acts).ending.due > 0
    ensures EndsAfter(acts, [CloseHub])
  {
    hide Run, StoreAct;
    Snoc(acts, CloseHub);
  }

  /** A subscribed viewer's stream stays open for good, whatever happens short of another ending of the run,
      exactly when it has not ended yet and no close of the hub is due. */
  lemma StaysOpenIff(acts: seq<Action>)
    requires Run(acts).viewer.subAt.At?
    ensures StaysOpen(acts) <==> !StreamEnds(Run(acts).viewer) && Run(acts).ending.due == 0
  {
    hide Run, StreamEnds;
    StreamEndsIff(acts);
    if OpenWithNoneDue(Run(acts)) {
      forall more | NoFinish(more) ensures !EndsAfter(acts, more) {
        OpenFrom(acts, more);
      }
    } else if StreamEnds(Run(acts).viewer) {
      assert acts + [] == acts;
      assert NoFinish([]) && EndsAfter(acts, []);
    } else {
      DueCloseEnds(acts);
      assert NoFinish([CloseHub]);
    }
  }

  /** Another ending of the run with its close does end it. */
  lemma AnotherEndingEnds(acts: seq<Action>, stored: bool)
    requires Run(acts).viewer.subAt.At?
    ensures EndsAfter(acts, [Finish(stored), CloseHub])
  {
    hide Run, StoreAct;
    Snoc(acts, Finish(stored));
    Snoc(acts + [Finish(stored)], CloseHub);
    assert acts + [Finish(stored), CloseHub] == acts + [Finish(stored)] + [CloseHub];
  }

  /** Such a viewer exists after any run that nobody watched: the ending comes after the status read and
      before Subscribe, and the stream stays open. */
  lemma StreamCanStayOpen(acts: seq<Action>)
    requires var s := Run(acts); s.viewer.statusAt.Never? && s.ending.commitAt.Never? && s.ending.due == 0
    ensures var more := acts + [ReadStatus] + [Finish(true)] + [CloseHub] + [Subscribe];
      var s := Run(more);
      && s.viewer.subAt.At? && s.ending.commitAt.At? && s.ending.due == 0 && !StreamEnds(s.viewer)
      && StaysOpen(more)
  {
    hide Run, Step, StaysOpen;
    var a := acts + [ReadStatus];
    var b := a + [Finish(true)];
    var c := b + [CloseHub];
    RunInv(acts);
    Snoc(acts, ReadStatus);
    Snoc(a, Finish(true));
    Snoc(b, CloseHub);
    Snoc(c, Subscribe);
    LateSubscribe(Run(acts));
    StaysOpenIff(c + [Subscribe]);
  }

  lemma EndBeforeSubscribe(s: State)
    requires EndingTrue(s) && s.viewer.statusAt.Never? && s.ending.commitAt.Never? && s.ending.due == 0
    ensures var t := Step(Step(s, ReadStatus), Finish(true));
      && t.viewer == s.viewer.(statusAt := At(s.now), sawEnded := false)
      && t.ending == s.ending.(commitAt := At(s.now + 1), due := 1)
  {
    hide StoreAct;
  }

  lemma LateSubscribe(s: State)
    requires EndingTrue(s) && s.viewer.statusAt.Never? && s.ending.commitAt.Never? && s.ending.due == 0
    ensures var t := Step(Step(Step(Step(s, ReadStatus), Finish(true)), CloseHub), Subscribe);
      t.viewer.subAt.At? && t.ending.commitAt.At? && t.ending.due == 0 && !StreamEnds(t.viewer)
  {
    hide StoreAct;
    EndBeforeSubscribe(s);
    assert s.viewer.subAt.Never? && s.viewer.closedAt.Never?;
  }

  /** The run's status is terminal from the first ending on that was stored. */
  lemma {:induction false} EndedWhenStored(acts: seq<Action>)
    ensures var g := Run(acts).ending;
      && (g.commitAt.Never? <==> Finish(true) !in acts)
      && (g.commitAt.At? ==> g.commitAt.t < |acts| && acts[g.commitAt.t] == Finish(true) && Finish(true) !in acts[..g.commitAt.t])
  {
    if acts != [] {
      var n := |acts| - 1;
      var pre := acts[..n];
      EndedWhenStored(pre);
      CounterCounts(pre);
      CommitStep(Run(pre), acts[n]);
      hide Step;
      assert acts == pre + [acts[n]];
      var g := Run(acts).ending;
      if g.commitAt.At? {
        assert acts[..g.commitAt.t] == pre[..g.commitAt.t];
        if g.commitAt.t == n { assert pre[..n] == pre; }
      }
    }
  }

  lemma CommitStep(s: State, a: Action)
    ensures Step(s, a).ending.commitAt == if a == Finish(true) && s.ending.commitAt.Never? then At(s.now) else s.ending.commitAt
  {
    hide BW.Step, StoreAct, ViewerAct, PersistCopy;
  }
}
