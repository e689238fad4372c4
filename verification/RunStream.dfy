/** The stream handler of one viewer (internal/api/agent_run_stream.go): the stored events once, then the
    live channel until it closes or the viewer leaves.
 */
module RunStream {
  import opened Wrappers

  /** An agent event as it travels: index in publication order, type and sequence number. */
  datatype Copy = Copy(index: nat, eventType: string, sequence: nat)

  datatype Frame = Connected | HistoryFrame(copy: Copy) | LiveStart | EventFrame(copy: Copy) | Heartbeat

  /** What the handler's select finds ready next: an event, the closed channel, the cancelled request or
      the heartbeat. */
  datatype Ready = Event(copy: Copy) | ChannelClosed | RequestDone | Beat

  function Replayed(history: seq<Copy>): seq<Frame> {
    if history == [] then [] else Replayed(history[..|history| - 1]) + [HistoryFrame(history[|history| - 1])]
  }

  predicate Stops(r: Ready) { r.ChannelClosed? || r.RequestDone? }

  function LiveFrames(rs: seq<Ready>): seq<Frame> {
    if rs == [] || Stops(rs[0]) then []
    else [if rs[0].Event? then EventFrame(rs[0].copy) else Heartbeat] + LiveFrames(rs[1..])
  }

  function Past(history: Option<seq<Copy>>): seq<Copy> { if history.Some? then history.value else [] }

  /** The select loop: live events until the channel closes or the viewer leaves. */
  method FollowLive(rs: seq<Ready>) returns (frames: seq<Frame>)
    ensures frames == LiveFrames(rs) && Seen(frames) == Heard(rs)
  {
    hide Seen, Heard;
    frames := [];
    var i := 0;
    while i < |rs| && !Stops(rs[i])
      invariant 0 <= i <= |rs| && frames + LiveFrames(rs[i..]) == LiveFrames(rs)
    {
      assert rs[i..][1..] == rs[i + 1..];
      frames := frames + [if rs[i].Event? then EventFrame(rs[i].copy) else Heartbeat];
      i := i + 1;
    }
    assert LiveFrames(rs[i..]) == [];
    SeenOfLive(rs);
  }

  method Replay(history: Option<seq<Copy>>) returns (frames: seq<Frame>)
    ensures frames == [Connected] + Replayed(Past(history)) + [LiveStart] && Seen(frames) == Past(history)
  {
    hide Seen;
    frames := [Connected];
    if history.Some? {
      var h := history.value;
      for i := 0 to |h|
        invariant frames == [Connected] + Replayed(h[..i])
      {
        assert h[..i + 1][..i] == h[..i];
        frames := frames + [HistoryFrame(h[i])];
      }
      assert h[..|h|] == h;
    }
    frames := frames + [LiveStart];
    SeenOfReplay(Past(history));
  }

  /** All a viewer is sent. */
  function Frames(history: Option<seq<Copy>>, finished: bool, rs: seq<Ready>): seq<Frame> {
    [Connected] + Replayed(Past(history)) + [LiveStart] + if finished then [] else LiveFrames(rs)
  }

  /** Writes the replay, then the live events; a run that has finished gets its replay only. */
  method ServeStream(history: Option<seq<Copy>>, finished: bool, rs: seq<Ready>) returns (frames: seq<Frame>)
    ensures frames == Frames(history, finished, rs)
    ensures Seen(frames) == Past(history) + if finished then [] else Heard(rs)
  {
    hide LiveFrames, Heard, Seen, Replayed, Past;
    frames := Replay(history);
    if finished {
      return;
    }
    var live := FollowLive(rs);
    SeenSplit(frames, live);
    frames := frames + live;
  }

  /** The events a viewer is shown, in order. */
  function Seen(fs: seq<Frame>): seq<Copy> {
    if fs == [] then []
    else
      var f := fs[|fs| - 1];
      Seen(fs[..|fs| - 1]) + if f.HistoryFrame? || f.EventFrame? then [f.copy] else []
  }

  /** The events received before the stream ends. */
  function Heard(rs: seq<Ready>): seq<Copy> {
    if rs == [] || Stops(rs[0]) then []
    else (if rs[0].Event? then [rs[0].copy] else []) + Heard(rs[1..])
  }

  function EventsIn(rs: seq<Ready>): seq<Copy> {
    if rs == [] then [] else EventsIn(rs[..|rs| - 1]) + if rs[|rs| - 1].Event? then [rs[|rs| - 1].copy] else []
  }

  lemma {:induction false} EventsInConcat(a: seq<Ready>, b: seq<Ready>)
    ensures EventsIn(a + b) == EventsIn(a) + EventsIn(b)
  {
    if b == [] {
      assert a + b == a;
    } else {
      EventsInConcat(a, b[..|b| - 1]);
      assert (a + b)[..|a + b| - 1] == a + b[..|b| - 1];
    }
  }

  /** The live part ends at the closed channel or the cancelled request and nowhere else: what comes before is
      sent frame by frame, an event for an event and a heartbeat for a heartbeat. */
  lemma {:induction false} LiveUntilClosed(rs: seq<Ready>, k: nat)
    requires k <= |rs| && (k < |rs| ==> rs[k] == ChannelClosed || rs[k] == RequestDone)
    requires forall i :: 0 <= i < k ==> rs[i].Event? || rs[i].Beat?
    ensures Heard(rs) == EventsIn(rs[..k]) && |LiveFrames(rs)| == k
    ensures forall i :: 0 <= i < k ==> LiveFrames(rs)[i] == if rs[i].Event? then EventFrame(rs[i].copy) else Heartbeat
    decreases k
  {
    if k == 0 {
      assert rs[..0] == [];
    } else {
      LiveUntilClosed(rs[1..], k - 1);
      EventsInConcat([rs[0]], rs[1..][..k - 1]);
      assert rs[..k] == [rs[0]] + rs[1..][..k - 1] && [rs[0]][..0] == [];
    }
  }

  lemma {:induction false} SeenSplit(fs: seq<Frame>, gs: seq<Frame>)
    ensures Seen(fs + gs) == Seen(fs) + Seen(gs)
  {
    if gs == [] {
      assert fs + gs == fs;
    } else {
      SeenSplit(fs, gs[..|gs| - 1]);
      assert (fs + gs)[..|fs + gs| - 1] == fs + gs[..|gs| - 1];
    }
  }

  lemma {:induction false} SeenReplayed(history: seq<Copy>)
    ensures Seen(Replayed(history)) == history
  {
    if history != [] {
      SeenReplayed(history[..|history| - 1]);
    }
  }

  lemma SeenOfReplay(history: seq<Copy>)
    ensures Seen([Connected] + Replayed(history) + [LiveStart]) == history
  {
    SeenReplayed(history);
    SeenSplit([Connected], Replayed(history));
    SeenSplit([Connected] + Replayed(history), [LiveStart]);
    assert Seen([Connected]) == [] && Seen([LiveStart]) == [];
  }

  lemma {:induction false} SeenOfLive(rs: seq<Ready>)
    ensures Seen(LiveFrames(rs)) == Heard(rs)
  {
    if rs != [] && !Stops(rs[0]) {
      SeenOfLive(rs[1..]);
      var f := if rs[0].Event? then EventFrame(rs[0].copy) else Heartbeat;
      SeenSplit([f], LiveFrames(rs[1..]));
      assert [f][..0] == [];
    }
  }

  /** A viewer is shown the replayed events and then the ones received live. */
  lemma FramesShow(history: Option<seq<Copy>>, finished: bool, rs: seq<Ready>)
    ensures Seen(Frames(history, finished, rs)) == Past(history) + if finished then [] else Heard(rs)
  {
    hide LiveFrames, Heard, Seen, Replayed, Past;
    var replay := [Connected] + Replayed(Past(history)) + [LiveStart];
    SeenOfReplay(Past(history));
    if finished {
      assert Frames(history, finished, rs) == replay;
    } else {
      SeenSplit(replay, LiveFrames(rs));
      SeenOfLive(rs);
    }
  }
}
