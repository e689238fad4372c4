/** What the steps achieve: the viewer's channel is the hub's, what it holds reaches the viewer, and
    everything published can be stored.
 */
module ReplayProgress {
  import opened Wrappers
  import opened RunStream
  import opened ReplayLive
  import BW = BatchWriter
  import Hub = RunEventHub

  // ---------------------------------------------------------------- the viewer's channel is the hub's

  function AsEvent(c: Copy): Hub.StreamEvent { Hub.StreamEvent(c.eventType, c.sequence) }

  function AsEvents(cs: seq<Copy>): seq<Hub.StreamEvent> { seq(|cs|, j requires 0 <= j < |cs| => AsEvent(cs[j])) }

  /** What a step makes the hub do for this run and viewer. */
  function HubAct(s: State, a: Action): seq<Hub.Action> {
    match a
    case AgentEvent(ty, mapped) =>
      if s.toPersist == [] && mapped then [Hub.Publish(RUN, Hub.StreamEvent(ty, s.counter + 1))] else []
    case Subscribe => if s.viewer.statusAt.At? && s.viewer.subAt.Never? then [Hub.Subscribe(RUN, VIEWER)] else []
    case CloseHub => if s.ending.due > 0 then [Hub.Close(RUN)] else []
    case Take =>
      if s.viewer.replayed && !s.viewer.sawEnded && s.viewer.taken < |s.viewer.live| then [Hub.Receive(VIEWER)] else []
    case _ => []
  }

  function HubActs(acts: seq<Action>): seq<Hub.Action> {
    if acts == [] then [] else HubActs(acts[..|acts| - 1]) + HubAct(Run(acts[..|acts| - 1]), acts[|acts| - 1])
  }

  function LaneOf(v: Viewer): Hub.Lane {
    if v.subAt.Never? then Hub.Absent else Hub.Lane(RUN, AsEvents(v.live), v.taken, v.closedAt.Never?)
  }

  lemma AsEventsMore(cs: seq<Copy>, c: Copy)
    ensures AsEvents(cs + [c]) == AsEvents(cs) + [AsEvent(c)]
  {
  }

  predicate NoLaneYet(v: Viewer) { v.subAt.Never? ==> v.live == [] && v.taken == 0 && v.closedAt.Never? }

  lemma LanePublish(s: State, ty: string)
    requires NoLaneYet(s.viewer) && s.toPersist == []
    ensures var t := Step(s, AgentEvent(ty, true));
      && LaneOf(t.viewer) == Hub.LaneStep(LaneOf(s.viewer), Hub.Publish(RUN, Hub.StreamEvent(ty, s.counter + 1)), VIEWER)
      && NoLaneYet(t.viewer)
  {
    AsEventsMore(s.viewer.live, Copy(|s.events|, ty, s.counter + 1));
  }

  lemma LaneAct(s: State, a: Action)
    requires NoLaneYet(s.viewer)
    ensures var w, t := HubAct(s, a), Step(s, a);
      && |w| <= 1 && LaneOf(t.viewer) == (if w == [] then LaneOf(s.viewer) else Hub.LaneStep(LaneOf(s.viewer), w[0], VIEWER))
      && NoLaneYet(t.viewer)
  {
    if a.AgentEvent? && s.toPersist == [] && a.mapped {
      LanePublish(s, a.eventType);
    } else {
      LaneOther(s, a);
    }
  }

  lemma LaneOther(s: State, a: Action)
    requires NoLaneYet(s.viewer) && !(a.AgentEvent? && s.toPersist == [] && a.mapped)
    ensures var w, t := HubAct(s, a), Step(s, a);
      && |w| <= 1 && LaneOf(t.viewer) == (if w == [] then LaneOf(s.viewer) else Hub.LaneStep(LaneOf(s.viewer), w[0], VIEWER))
      && NoLaneYet(t.viewer)
  {
    hide StoreAct, Written, PersistCopy;
  }

  /** The viewer's channel in this machine is its lane of the hub, so the hub's results hold of it. */
  lemma {:induction false} LiveIsTheHubsLane(acts: seq<Action>)
    ensures LaneOf(Run(acts).viewer) == Hub.LaneRun(HubActs(acts), VIEWER)
    ensures NoLaneYet(Run(acts).viewer)
  {
    if acts != [] {
      hide Step, Hub.LaneStep, LaneOf, NoLaneYet;
      var pre, a := acts[..|acts| - 1], acts[|acts| - 1];
      var w := HubAct(Run(pre), a);
      LiveIsTheHubsLane(pre);
      LaneAct(Run(pre), a);
      if w == [] {
        assert HubActs(pre) + [] == HubActs(pre);
      } else {
        assert w == [w[0]];
        assert (HubActs(pre) + [w[0]])[..|HubActs(pre)|] == HubActs(pre);
      }
    }
  }

  // ---------------------------------------------------------------- what is in the channel reaches the viewer

  function Takes(n: nat): seq<Action> { if n == 0 then [] else Takes(n - 1) + [Take] }

  function Receives(n: nat): seq<Hub.Action> { if n == 0 then [] else Receives(n - 1) + [Hub.Receive(VIEWER)] }

  lemma TakeStep(s: State)
    requires s.viewer.replayed && !s.viewer.sawEnded && s.viewer.taken < |s.viewer.live|
    ensures Step(s, Take) == s.(now := s.now + 1, viewer := s.viewer.(taken := s.viewer.taken + 1))
    ensures HubAct(s, Take) == [Hub.Receive(VIEWER)]
  {
  }

  lemma HubSnoc(acts: seq<Action>, a: Action)
    ensures HubActs(acts + [a]) == HubActs(acts) + HubAct(Run(acts), a)
  {
    assert (acts + [a])[..|acts|] == acts;
  }

  /** Each take of a viewer that has replayed is one receive from its channel. */
  lemma {:induction false} TakesReceive(acts: seq<Action>, n: nat)
    requires var v := Run(acts).viewer; v.replayed && !v.sawEnded && v.taken + n <= |v.live|
    ensures var s := Run(acts);
      Run(acts + Takes(n)) == s.(now := s.now + n, viewer := s.viewer.(taken := s.viewer.taken + n))
    ensures HubActs(acts + Takes(n)) == HubActs(acts) + Receives(n)
  {
    hide Run, Step, HubActs, HubAct;
    if n == 0 {
      assert acts + Takes(0) == acts && HubActs(acts) + [] == HubActs(acts);
    } else {
      var pre := acts + Takes(n - 1);
      TakesReceive(acts, n - 1);
      TakeStep(Run(pre));
      Snoc(pre, Take);
      HubSnoc(pre, Take);
      assert acts + Takes(n) == pre + [Take];
      assert HubActs(acts) + Receives(n) == HubActs(acts) + Receives(n - 1) + [Hub.Receive(VIEWER)];
    }
  }

  /** Event i was published after the viewer subscribed, before the hub closed its channel, with a slot free. */
  predicate DueLive(s: State, i: nat)
    requires i < |s.events|
  {
    var e, v := s.events[i], s.viewer;
    v.subAt.At? && v.subAt.t < e.at && (v.closedAt.At? ==> e.at <= v.closedAt.t) && !e.full
  }

  lemma WholeChannel(s: State, i: nat)
    requires LiveTrue(s) && i < |s.events|
    ensures multiset(s.viewer.live)[s.events[i].copy] == if DueLive(s, i) then 1 else 0
  {
    LiveOnce(s.(viewer := s.viewer.(taken := |s.viewer.live|)), i);
    assert s.viewer.live[..|s.viewer.live|] == s.viewer.live;
    assert PublishedInTime(s, i) <==> DueLive(s, i);
  }

  lemma ShownIsBoth(acts: seq<Action>, rs: seq<RunStream.Ready>)
    requires var v := Run(acts).viewer; !v.sawEnded && Heard(rs) == v.live
    ensures var v := Run(acts).viewer;
      Seen(Frames(HistoryOf(v), v.sawEnded, rs)) == v.history + v.live && LiveTrue(Run(acts))
  {
    hide Run, Seen, Frames, Heard, LiveTrue, Ordered, TimesPast, EndingTrue;
    RunInv(acts);
    FramesShow(HistoryOf(Run(acts).viewer), false, rs);
    assert [] + Run(acts).viewer.live == Run(acts).viewer.live;
  }

  lemma LiveGenuine(s: State, c: Copy)
    requires LiveTrue(s) && c in s.viewer.live
    ensures True(s.events, c)
  {
  }

  /** How often the frames of a viewer that has taken the whole channel show an event. */
  lemma ShownCount(acts: seq<Action>, rs: seq<RunStream.Ready>, i: nat)
    requires i < |Run(acts).events|
    requires var v := Run(acts).viewer; !v.sawEnded && Heard(rs) == v.live
    ensures var s := Run(acts);
      multiset(Seen(Frames(HistoryOf(s.viewer), s.viewer.sawEnded, rs)))[s.events[i].copy]
      == multiset(s.viewer.history)[s.events[i].copy] + if DueLive(s, i) then 1 else 0
  {
    hide *;
    ShownIsBoth(acts, rs);
    WholeChannel(Run(acts), i);
  }

  lemma ShownGenuine(acts: seq<Action>, rs: seq<RunStream.Ready>, c: Copy)
    requires var v := Run(acts).viewer; !v.sawEnded && Heard(rs) == v.live
    requires c in Seen(Frames(HistoryOf(Run(acts).viewer), Run(acts).viewer.sawEnded, rs))
    ensures True(Run(acts).events, c)
  {
    hide *;
    ShownIsBoth(acts, rs);
    if c in Run(acts).viewer.history { HistoryGenuine(acts, c); } else { LiveGenuine(Run(acts), c); }
  }

  /** What the frames show: every event as often as the history does, and once more exactly if it was published
      after Subscribe, before the hub closed the channel, with a slot free; and nothing else. */
  ghost predicate ShowsAll(s: State, rs: seq<RunStream.Ready>) {
    var shown := Seen(Frames(HistoryOf(s.viewer), s.viewer.sawEnded, rs));
    && (forall i :: 0 <= i < |s.events| ==>
          multiset(shown)[s.events[i].copy] == multiset(s.viewer.history)[s.events[i].copy] + if DueLive(s, i) then 1 else 0)
    && (forall c :: c in shown ==> True(s.events, c))
  }

  lemma ChannelShowsAll(acts: seq<Action>, rs: seq<RunStream.Ready>)
    requires var v := Run(acts).viewer; !v.sawEnded && Heard(rs) == v.live
    ensures ShowsAll(Run(acts), rs)
  {
    hide Run, Seen, Frames, Heard, DueLive, True, HistoryOf;
    var s := Run(acts);
    forall i | 0 <= i < |s.events|
      ensures multiset(Seen(Frames(HistoryOf(s.viewer), s.viewer.sawEnded, rs)))[s.events[i].copy]
        == multiset(s.viewer.history)[s.events[i].copy] + if DueLive(s, i) then 1 else 0
    {
      ShownCount(acts, rs, i);
    }
    forall c | c in Seen(Frames(HistoryOf(s.viewer), s.viewer.sawEnded, rs)) ensures True(s.events, c) {
      ShownGenuine(acts, rs, c);
    }
  }

  lemma TakenWithin(acts: seq<Action>)
    ensures Run(acts).viewer.taken <= |Run(acts).viewer.live|
  {
    hide Run;
    RunInv(acts);
  }

  /** Live events are shown: from any point of any run at which a viewer has replayed and follows the channel,
      it can take what the channel holds, one receive each, and then the frames it was sent show every event as
      often as its history does, and once more exactly if it was published after Subscribe, before the hub
      closed the channel, with a slot free; and nothing else. */
  lemma ChannelReachesTheViewer(acts: seq<Action>, rs: seq<RunStream.Ready>)
    requires var v := Run(acts).viewer; v.replayed && !v.sawEnded && Heard(rs) == v.live
    ensures var v := Run(acts).viewer; v.taken <= |v.live|
    ensures var s := Run(acts);
      var n := |s.viewer.live| - s.viewer.taken;
      var t := Run(acts + Takes(n));
      && t.viewer == s.viewer.(taken := |s.viewer.live|) && t.events == s.events
      && HubActs(acts + Takes(n)) == HubActs(acts) + Receives(n)
      && ShowsAll(t, rs)
  {
    hide *;
    TakenWithin(acts);
    var n := |Run(acts).viewer.live| - Run(acts).viewer.taken;
    TakesReceive(acts, n);
    ChannelShowsAll(acts + Takes(n), rs);
  }

  /** A read that fails replays nothing, and the viewer goes on with the channel. */
  lemma FailedReadGoesLive(acts: seq<Action>, rows: seq<Copy>)
    requires Run(acts).viewer.subAt.At? && !Run(acts).viewer.replayed
    ensures var v, w := Run(acts).viewer, Run(acts + [ReadHistory(false, rows)]).viewer;
      w == v.(replayed := true) && w.readAt.Never? && w.history == []
  {
    hide Run, Written, StoreAct, Ordered, LiveTrue, TimesPast, EndingTrue;
    RunInv(acts);
    Snoc(acts, ReadHistory(false, rows));
  }

  // ---------------------------------------------------------------- everything can be stored

  /** A flush, or the close at agent_end, takes the whole buffer into a batch. */
  lemma BufferIsTaken(acts: seq<Action>, a: Action)
    requires a.Flush? || a.CloseBuffer?
    ensures var s, t := Run(acts), Run(acts + [a]);
      && Buffered(t.store) == [] && Waiting(t.store) == Waiting(s.store) + Buffered(s.store)
      && t.store.inserts == s.store.inserts && t.store.spawned == s.store.spawned && t.toPersist == s.toPersist
      && t.events == s.events && (a.CloseBuffer? ==> RUN !in t.store.writer.buffers)
  {
    Snoc(acts, a);
    RunStoreShaped(acts);
    hide Run, Waiting, Buffered, StoreShaped;
    TakeCopies(Run(acts).store, if a.Flush? then BW.Flush(RUN) else BW.Close(RUN));
  }

  /** What the storing continuation keeps. */
  ghost predicate Stores(s: State, t: State) {
    && t.events == s.events && t.viewer == s.viewer && t.ending == s.ending
    && s.store.inserts <= t.store.inserts
    && forall j :: |s.store.inserts| <= j < |t.store.inserts| ==> t.store.inserts[j].ok
  }

  lemma StoresThen(s: State, t: State, u: State)
    requires Stores(s, t) && Stores(t, u)
    ensures Stores(s, u)
  {
    assert forall j :: 0 <= j < |t.store.inserts| ==> u.store.inserts[j] == t.store.inserts[j];
  }

  lemma QueueOne(s: State, k: nat)
    ensures var t := Step(s, QueueNext(k));
      t == s.(now := s.now + 1, store := s.store.(writer := BW.Step(s.store.writer, BW.QueueNext(k))))
  {
    hide BW.Step;
  }

  lemma {:induction false} QueueingRun(acts: seq<Action>, k: nat, n: nat)
    ensures var s := Run(acts);
      Run(acts + Queueing(k, n)) == s.(now := s.now + n, store := s.store.(writer := BW.Drained(s.store.writer, k, n)))
  {
    hide Run, Step, BW.Step;
    if n == 0 {
      assert acts + Queueing(k, 0) == acts;
    } else {
      var pre := acts + Queueing(k, n - 1);
      QueueingRun(acts, k, n - 1);
      QueueOne(Run(pre), k);
      Snoc(pre, QueueNext(k));
      assert acts + Queueing(k, n) == pre + [QueueNext(k)];
    }
  }

  lemma {:induction false} DrainedKeeps(w: BW.State, k: nat, n: nat)
    ensures var t := BW.Drained(w, k, n);
      |t.batches| == |w.batches| && t.buffers == w.buffers && t.store == w.store
  {
    if n > 0 {
      DrainedKeeps(w, k, n - 1);
    }
  }

  function Unsent(st: Store): set<nat> { set k: nat | k < |st.writer.batches| && k !in st.executed }

  lemma SendStep(s: State, k: nat)
    requires ReplayLive.Ready(s.store, k)
    ensures var t := Step(s, InsertBatch(k, true));
      && Stores(s, t) && t.toPersist == s.toPersist && t.store.spawned == s.store.spawned
      && t.store.writer == s.store.writer && t.store.executed == s.store.executed + {k}
  {
  }

  /** One batch is filled and sent. */
  lemma SendBatch(acts: seq<Action>, k: nat) returns (more: seq<Action>)
    requires k in Unsent(Run(acts).store)
    ensures var s, t := Run(acts), Run(acts + more);
      && Stores(s, t) && t.toPersist == s.toPersist && t.store.spawned == s.store.spawned
      && Unsent(t.store) == Unsent(s.store) - {k} && BW.Live(t.store.writer, RUN) == BW.Live(s.store.writer, RUN)
  {
    RunStoreShaped(acts);
    var s := Run(acts);
    var b := s.store.writer.batches[k];
    assert BW.BatchShaped(s.store.writer, b);
    var n := |b.taken| - |b.queued|;
    hide Run, Step, BW.Step, BW.Drained;
    QueueingRun(acts, k, n);
    BW.DrainAdvances(s.store.writer, k, n);
    DrainedKeeps(s.store.writer, k, n);
    var mid := acts + Queueing(k, n);
    SendStep(Run(mid), k);
    Snoc(mid, InsertBatch(k, true));
    more := Queueing(k, n) + [InsertBatch(k, true)];
    assert acts + more == mid + [InsertBatch(k, true)];
  }

  lemma {:induction false} SendAll(acts: seq<Action>) returns (more: seq<Action>)
    ensures var s, t := Run(acts), Run(acts + more);
      && Stores(s, t) && t.toPersist == s.toPersist && t.store.spawned == s.store.spawned
      && Unsent(t.store) == {} && BW.Live(t.store.writer, RUN) == BW.Live(s.store.writer, RUN)
    decreases |Unsent(Run(acts).store)|
  {
    hide Run, Unsent, BW.Live, Stores;
    var s := Run(acts);
    if Unsent(s.store) == {} {
      more := [];
      assert acts + more == acts;
      StoresNothing(s);
    } else {
      var k :| k in Unsent(s.store);
      var first := SendBatch(acts, k);
      var rest := SendAll(acts + first);
      more := first + rest;
      assert acts + more == (acts + first) + rest;
      StoresThen(s, Run(acts + first), Run(acts + more));
    }
  }

  lemma StoresNothing(s: State)
    ensures Stores(s, s)
  {
  }

  lemma SendOneStep(s: State)
    requires s.store.spawned != []
    ensures var t := Step(s, InsertOne(0, true));
      && Stores(s, t) && t.toPersist == s.toPersist && |t.store.spawned| == |s.store.spawned| - 1
      && t.store.writer == s.store.writer && t.store.executed == s.store.executed
  {
  }

  lemma {:induction false} SendSpawned(acts: seq<Action>) returns (more: seq<Action>)
    ensures var s, t := Run(acts), Run(acts + more);
      && Stores(s, t) && t.toPersist == s.toPersist && t.store.spawned == []
      && t.store.writer == s.store.writer && t.store.executed == s.store.executed
    decreases |Run(acts).store.spawned|
  {
    hide Run, Step, Stores;
    var s := Run(acts);
    if s.store.spawned == [] {
      more := [];
      assert acts + more == acts;
      StoresNothing(s);
    } else {
      SendOneStep(s);
      Snoc(acts, InsertOne(0, true));
      var rest := SendSpawned(acts + [InsertOne(0, true)]);
      more := [InsertOne(0, true)] + rest;
      assert acts + more == (acts + [InsertOne(0, true)]) + rest;
      StoresThen(s, Run(acts + [InsertOne(0, true)]), Run(acts + more));
    }
  }

  lemma HandOverSteps(s: State)
    requires |s.toPersist| <= 1
    ensures var t := Step(Step(s, Persist(0)), Flush);
      Stores(s, t) && t.toPersist == []
  {
    hide BW.Step;
  }

  lemma {:induction false} NothingUnderWay(bs: seq<BW.Batch>, executed: set<nat>, batched: seq<Copy>)
    requires forall k :: 0 <= k < |bs| ==> k in executed
    ensures UnderWay(bs, executed, batched) == []
  {
    if bs != [] {
      NothingUnderWay(bs[..|bs| - 1], executed, batched);
    }
  }

  lemma {:induction false} MeantSplits(ins: seq<Insert>)
    ensures multiset(Meant(ins, Any())) == multiset(Meant(ins, Failed())) + multiset(Meant(ins, Stored()))
  {
    if ins != [] {
      MeantSplits(ins[..|ins| - 1]);
    }
  }

  lemma {:induction false} FailuresKept(ins: seq<Insert>, more: seq<Insert>)
    requires ins <= more && forall j :: |ins| <= j < |more| ==> more[j].ok
    ensures Meant(more, Failed()) == Meant(ins, Failed())
  {
    if |more| > |ins| {
      FailuresKept(ins, more[..|more| - 1]);
    } else {
      assert more == ins;
    }
  }

  /** Nothing gets stuck on its way to storage: from any point of any run, the gateway, the batch writer and
      the goroutines can go on so that every published event has been written by the one insert meant for it,
      except those whose insert had already failed. */
  lemma EverythingCanBeStored(acts: seq<Action>) returns (more: seq<Action>)
    ensures var s, t := Run(acts), Run(acts + more);
      && Stores(s, t)
      && forall i :: 0 <= i < |s.events| ==>
           multiset(Meant(t.store.inserts, Stored()))[s.events[i].copy]
           + multiset(Meant(s.store.inserts, Failed()))[s.events[i].copy] == 1
  {
    hide Run, Step, Stores, Meant, UnderWay, Unsent;
    RunCounted(acts);
    var s := Run(acts);
    var a := acts + [Persist(0)];
    var b := a + [Flush];
    Snoc(acts, Persist(0));
    Snoc(a, Flush);
    HandOverSteps(s);
    BufferIsTaken(a, Flush);
    var sendAll := SendAll(b);
    var sendSpawned := SendSpawned(b + sendAll);
    more := [Persist(0), Flush] + sendAll + sendSpawned;
    var c := b + sendAll;
    assert acts + more == c + sendSpawned;
    StoresThen(s, Run(b), Run(c));
    StoresThen(s, Run(c), Run(acts + more));
    SameUnsent(Run(c).store, Run(acts + more).store);
    AllIsMeant(acts + more);
    StoredExactly(acts, acts + more);
  }

  lemma SameUnsent(st: Store, tt: Store)
    requires tt.writer == st.writer && tt.executed == st.executed
    ensures Unsent(tt) == Unsent(st)
  {
  }

  lemma AllIsMeant(acts: seq<Action>)
    requires var s := Run(acts);
      s.toPersist == [] && s.store.spawned == [] && Unsent(s.store) == {} && BW.Live(s.store.writer, RUN) == []
    ensures multiset(Meant(Run(acts).store.inserts, Any())) == multiset(AllCopies(Run(acts).events))
  {
    hide Run, Meant;
    RouteConservation(acts);
    var st := Run(acts).store;
    forall k | 0 <= k < |st.writer.batches| ensures k in st.executed {
      assert k !in Unsent(st);
    }
    NothingUnderWay(st.writer.batches, st.executed, st.batched);
  }

  lemma StoredExactly(acts: seq<Action>, all: seq<Action>)
    requires Stores(Run(acts), Run(all))
    requires multiset(Meant(Run(all).store.inserts, Any())) == multiset(AllCopies(Run(all).events))
    ensures forall i :: 0 <= i < |Run(acts).events| ==>
      multiset(Meant(Run(all).store.inserts, Stored()))[Run(acts).events[i].copy]
      + multiset(Meant(Run(acts).store.inserts, Failed()))[Run(acts).events[i].copy] == 1
  {
    hide Run, Meant;
    RunOrdered(all);
    MeantSplits(Run(all).store.inserts);
    FailuresKept(Run(acts).store.inserts, Run(all).store.inserts);
    forall i | 0 <= i < |Run(acts).events|
      ensures multiset(AllCopies(Run(all).events))[Run(acts).events[i].copy] == 1
    {
      PublishedOnce(Run(all), i);
    }
  }
}
