/** What a viewer of one agent run sees: the stored history read once, then the live channel.  Events
    reach the two by different routes and at different times: the gateway publishes to the hub at
    once, and persists through the batch writer or a goroutine of its own.  The batch writer is the one
    of module BatchWriter, backing arrays included.
 */
module ReplayLive {
  import opened Wrappers
  import opened RunStream
  import BW = BatchWriter
  import Hub = RunEventHub

  const RUN: BW.RunId := 0
  const VIEWER: Hub.SubId := 0

  datatype When = Never | At(t: nat)

  /** A published event: its connection and time of publication, and whether the viewer's channel was
      subscribed but full at that time. */
  datatype Published = Published(copy: Copy, conn: nat, at: nat, full: bool)

  /** One insert: what was written, what should have been, and the batch it came from, if any. */
  datatype Insert = Insert(copies: seq<Copy>, meant: seq<Copy>, batch: Option<nat>, at: nat, ok: bool)

  /** `batched` are the copies appended to the writer, by serial; `spawned` those with a goroutine of their
      own; `executed` the batches sent to the database. */
  datatype Store = Store(writer: BW.State, batched: seq<Copy>, spawned: seq<Copy>, executed: set<nat>,
                         inserts: seq<Insert>)

  datatype Viewer = Viewer(statusAt: When, sawEnded: bool, subAt: When, closedAt: When, replayed: bool,
                           readAt: When, history: seq<Copy>, live: seq<Copy>, taken: nat)

  /** When the run's status first became terminal, how many hub closes are due, and the latest one. */
  datatype Ending = Ending(commitAt: When, due: nat, hubAt: When)

  datatype State = State(now: nat, conn: nat, counter: nat, events: seq<Published>, toPersist: seq<Copy>,
                         store: Store, viewer: Viewer, ending: Ending)

  const Init := State(0, 0, 0, [], [], Store(BW.Init, [], [], {}, []),
                      Viewer(Never, false, Never, Never, false, Never, [], [], 0), Ending(Never, 0, Never))

  datatype Action =
    | AgentEvent(eventType: string, mapped: bool)   // receive loop: number it, publish it
    | Persist(spare: nat)                           // ... then hand it to storage
    | Flush                                         // batch timer or explicit flush
    | CloseBuffer                                   // agent_end
    | QueueNext(k: nat)                             // the loop that fills a batch
    | InsertBatch(k: nat, ok: bool)
    | InsertOne(k: nat, ok: bool)
    | Finish(stored: bool)                          // the run's status is set, then the hub closed
    | CloseHub
    | ReadStatus                                    // the viewer: status, subscription, history, channel
    | Subscribe
    | ReadHistory(ok: bool, rows: seq<Copy>)        // a failed read replays nothing and goes live
    | Take
    | Reconnect                                     // the per-connection counters start again

  predicate Batchable(ty: string) {
    ty == "message_update" || ty == "tool_execution_start" || ty == "tool_execution_end"
  }

  // ---------------------------------------------------------------- storage

  function CopyOf(e: BW.PendingEvent, batched: seq<Copy>): Copy {
    if e.serial < |batched| then batched[e.serial] else Copy(0, "", 0)
  }

  function CopiesOf(es: seq<BW.PendingEvent>, batched: seq<Copy>): seq<Copy> {
    seq(|es|, j requires 0 <= j < |es| => CopyOf(es[j], batched))
  }

  function Drop<T>(xs: seq<T>, k: nat): seq<T>
    requires k < |xs|
  {
    xs[..k] + xs[k + 1..]
  }

  function PersistCopy(st: Store, c: Copy, spare: nat): Store {
    if Batchable(c.eventType)
    then st.(writer := BW.Step(st.writer, BW.Append(RUN, c.eventType, c.sequence, spare)), batched := st.batched + [c])
    else st.(spawned := st.spawned + [c])
  }

  predicate Ready(st: Store, k: nat) {
    k < |st.writer.batches| && k !in st.executed && |st.writer.batches[k].queued| == |st.writer.batches[k].taken|
  }

  function Execute(st: Store, k: nat, at: nat, ok: bool): Store
    requires Ready(st, k)
  {
    var b := st.writer.batches[k];
    st.(executed := st.executed + {k},
        inserts := st.inserts + [Insert(CopiesOf(b.queued, st.batched), CopiesOf(b.taken, st.batched), Some(k), at, ok)])
  }

  function ExecuteOne(st: Store, k: nat, at: nat, ok: bool): Store
    requires k < |st.spawned|
  {
    var c := [st.spawned[k]];
    st.(spawned := Drop(st.spawned, k), inserts := st.inserts + [Insert(c, c, None, at, ok)])
  }

  /** The copies the inserts wrote that `p` selects, in insertion order. */
  function Written(ins: seq<Insert>, p: Insert -> bool): seq<Copy> {
    if ins == [] then []
    else
      var n := |ins| - 1;
      Written(ins[..n], p) + if p(ins[n]) then ins[n].copies else []
  }

  /** The copies those inserts should have written. */
  function Meant(ins: seq<Insert>, p: Insert -> bool): seq<Copy> {
    if ins == [] then []
    else
      var n := |ins| - 1;
      Meant(ins[..n], p) + if p(ins[n]) then ins[n].meant else []
  }

  function Any(): Insert -> bool { (i: Insert) => true }
  function Failed(): Insert -> bool { (i: Insert) => !i.ok }
  function Stored(): Insert -> bool { (i: Insert) => i.ok }
  function StoredBy(t: nat): Insert -> bool { (i: Insert) => i.ok && i.at < t }
  function StoredLater(t: nat): Insert -> bool { (i: Insert) => i.ok && i.at >= t }

  predicate BySequence(cs: seq<Copy>) { forall i, j :: 0 <= i < j < |cs| ==> cs[i].sequence <= cs[j].sequence }

  // ---------------------------------------------------------------- steps

  predicate Listening(v: Viewer) { v.subAt.At? && v.closedAt.Never? }

  predicate Room(v: Viewer) { |v.live| < v.taken + Hub.SLOTS }

  function Publish(s: State, ty: string): State {
    var c := Copy(|s.events|, ty, s.counter + 1);
    var v := s.viewer;
    s.(counter := s.counter + 1,
       events := s.events + [Published(c, s.conn, s.now, Listening(v) && !Room(v))],
       toPersist := [c],
       viewer := if Listening(v) && Room(v) then v.(live := v.live + [c]) else v)
  }

  function ViewerAct(s: State, a: Action): Viewer {
    var v := s.viewer;
    match a
    case ReadStatus => if v.statusAt.Never? then v.(statusAt := At(s.now), sawEnded := s.ending.commitAt.At?) else v
    case Subscribe => if v.statusAt.At? && v.subAt.Never? then v.(subAt := At(s.now)) else v
    case ReadHistory(ok, rows) =>
      if v.subAt.Never? || v.replayed then v
      else if !ok then v.(replayed := true)
      else if multiset(rows) == multiset(Written(s.store.inserts, Stored())) && BySequence(rows)
      then v.(replayed := true, readAt := At(s.now), history := rows)
      else v
    case Take => if v.replayed && !v.sawEnded && v.taken < |v.live| then v.(taken := v.taken + 1) else v
    case CloseHub => if s.ending.due > 0 && Listening(v) then v.(closedAt := At(s.now)) else v
    case _ => v
  }

  function EndingAct(s: State, a: Action): Ending {
    var g := s.ending;
    match a
    case Finish(stored) =>
      g.(due := g.due + 1, commitAt := if stored && g.commitAt.Never? then At(s.now) else g.commitAt)
    case CloseHub => if g.due > 0 then g.(due := g.due - 1, hubAt := At(s.now)) else g
    case _ => g
  }

  function StoreAct(st: Store, a: Action, at: nat): Store {
    match a
    case Flush => st.(writer := BW.Step(st.writer, BW.Flush(RUN)))
    case CloseBuffer => st.(writer := BW.Step(st.writer, BW.Close(RUN)))
    case QueueNext(k) => st.(writer := BW.Step(st.writer, BW.QueueNext(k)))
    case InsertBatch(k, ok) => if Ready(st, k) then Execute(st, k, at, ok) else st
    case InsertOne(k, ok) => if k < |st.spawned| then ExecuteOne(st, k, at, ok) else st
    case _ => st
  }

  function Act(s: State, a: Action): State {
    match a
    case AgentEvent(ty, mapped) =>
      if s.toPersist != [] then s
      else if !mapped then s.(counter := s.counter + 1)
      else Publish(s, ty)
    case Persist(spare) =>
      if s.toPersist == [] then s else s.(toPersist := [], store := PersistCopy(s.store, s.toPersist[0], spare))
    case Reconnect => if s.toPersist == [] then s.(counter := 0, conn := s.conn + 1) else s
    case _ => s.(store := StoreAct(s.store, a, s.now), viewer := ViewerAct(s, a), ending := EndingAct(s, a))
  }

  function Step(s: State, a: Action): State { Act(s, a).(now := s.now + 1) }

  function Run(acts: seq<Action>): State {
    if acts == [] then Init else Step(Run(acts[..|acts| - 1]), acts[|acts| - 1])
  }

  // ---------------------------------------------------------------- the batch writer's own run

  /** What a step makes the batch writer do. */
  function WriterAct(s: State, a: Action): seq<BW.Action> {
    match a
    case Persist(spare) =>
      if s.toPersist == [] || !Batchable(s.toPersist[0].eventType) then []
      else [BW.Append(RUN, s.toPersist[0].eventType, s.toPersist[0].sequence, spare)]
    case Flush => [BW.Flush(RUN)]
    case CloseBuffer => [BW.Close(RUN)]
    case QueueNext(k) => [BW.QueueNext(k)]
    case _ => []
  }

  function WriterActs(acts: seq<Action>): seq<BW.Action> {
    if acts == [] then []
    else WriterActs(acts[..|acts| - 1]) + WriterAct(Run(acts[..|acts| - 1]), acts[|acts| - 1])
  }

  lemma WriterStep(s: State, a: Action)
    ensures var w := WriterAct(s, a);
      |w| <= 1 && Step(s, a).store.writer == if w == [] then s.store.writer else BW.Step(s.store.writer, w[0])
  {
  }

  /** The writer inside this machine is a run of the batch writer, so all its results hold here. */
  lemma {:induction false} WriterRuns(acts: seq<Action>)
    ensures Run(acts).store.writer == BW.Run(WriterActs(acts))
  {
    if acts != [] {
      hide Step, BW.Step;
      var pre, a := acts[..|acts| - 1], acts[|acts| - 1];
      var w := WriterAct(Run(pre), a);
      WriterRuns(pre);
      WriterStep(Run(pre), a);
      if w != [] {
        BW.Snoc(WriterActs(pre), w[0]);
        assert w == [w[0]];
      } else {
        assert WriterActs(pre) + [] == WriterActs(pre);
      }
    }
  }

  // ---------------------------------------------------------------- where every copy is

  function AllCopies(es: seq<Published>): seq<Copy> { seq(|es|, i requires 0 <= i < |es| => es[i].copy) }

  /** Taken by batches that have not been sent yet. */
  function UnderWay(bs: seq<BW.Batch>, executed: set<nat>, batched: seq<Copy>): seq<Copy> {
    if bs == [] then []
    else
      var n := |bs| - 1;
      UnderWay(bs[..n], executed, batched) + if n in executed then [] else CopiesOf(bs[n].taken, batched)
  }

  function Buffered(st: Store): seq<Copy> { CopiesOf(BW.Live(st.writer, RUN), st.batched) }

  function Waiting(st: Store): seq<Copy> { UnderWay(st.writer.batches, st.executed, st.batched) }

  /** Every published copy, wherever it is on its way to storage. */
  function Route(s: State): multiset<Copy> {
    multiset(s.toPersist) + multiset(Buffered(s.store)) + multiset(Waiting(s.store)) + multiset(s.store.spawned)
    + multiset(Meant(s.store.inserts, Any()))
  }

  /** The writer is in a reachable shape and holds only events of this run, one copy each. */
  ghost predicate StoreShaped(st: Store) {
    && BW.Shaped(st.writer) && BW.Genuine(st.writer) && |st.batched| == |st.writer.appended|
    && (forall k :: k in st.executed ==> k < |st.writer.batches|)
  }

  lemma CopiesGrow(es: seq<BW.PendingEvent>, batched: seq<Copy>, c: Copy)
    requires forall j :: 0 <= j < |es| ==> es[j].serial < |batched|
    ensures CopiesOf(es, batched + [c]) == CopiesOf(es, batched)
  {
  }

  lemma {:induction false} UnderWayGrow(bs: seq<BW.Batch>, executed: set<nat>, batched: seq<Copy>, c: Copy)
    requires forall k, j :: 0 <= k < |bs| && 0 <= j < |bs[k].taken| ==> bs[k].taken[j].serial < |batched|
    ensures UnderWay(bs, executed, batched + [c]) == UnderWay(bs, executed, batched)
  {
    if bs != [] {
      UnderWayGrow(bs[..|bs| - 1], executed, batched, c);
      CopiesGrow(bs[|bs| - 1].taken, batched, c);
    }
  }

  lemma {:induction false} UnderWaySame(bs: seq<BW.Batch>, cs: seq<BW.Batch>, executed: set<nat>, batched: seq<Copy>)
    requires |bs| == |cs| && forall k :: 0 <= k < |bs| ==> bs[k].taken == cs[k].taken
    ensures UnderWay(bs, executed, batched) == UnderWay(cs, executed, batched)
  {
    if bs != [] {
      UnderWaySame(bs[..|bs| - 1], cs[..|cs| - 1], executed, batched);
    }
  }

  lemma UnderWayMore(bs: seq<BW.Batch>, b: BW.Batch, executed: set<nat>, batched: seq<Copy>)
    requires |bs| !in executed
    ensures UnderWay(bs + [b], executed, batched) == UnderWay(bs, executed, batched) + CopiesOf(b.taken, batched)
  {
    assert (bs + [b])[..|bs|] == bs;
  }

  lemma {:induction false} UnderWaySkip(bs: seq<BW.Batch>, executed: set<nat>, k: nat, batched: seq<Copy>)
    requires k >= |bs|
    ensures UnderWay(bs, executed + {k}, batched) == UnderWay(bs, executed, batched)
  {
    if bs != [] {
      UnderWaySkip(bs[..|bs| - 1], executed, k, batched);
    }
  }

  lemma {:induction false} UnderWayDone(bs: seq<BW.Batch>, executed: set<nat>, k: nat, batched: seq<Copy>)
    requires k < |bs| && k !in executed
    ensures multiset(UnderWay(bs, executed, batched))
         == multiset(UnderWay(bs, executed + {k}, batched)) + multiset(CopiesOf(bs[k].taken, batched))
  {
    var n := |bs| - 1;
    if k == n {
      UnderWaySkip(bs[..n], executed, k, batched);
    } else {
      UnderWayDone(bs[..n], executed, k, batched);
    }
  }

  lemma WriterCounts(w: BW.State, a: BW.Action)
    ensures |BW.Step(w, a).appended| == |w.appended| + if a.Append? then 1 else 0
    ensures |w.batches| <= |BW.Step(w, a).batches|
  {
  }

  ghost predicate Counted(s: State) {
    && |s.toPersist| <= 1 && |s.store.batched| == |s.store.writer.appended|
    && (forall k :: k in s.store.executed ==> k < |s.store.writer.batches|)
  }

  lemma CountedStep(s: State, a: Action)
    requires Counted(s)
    ensures Counted(Step(s, a))
  {
    hide BW.Step;
    match a
    case Persist(spare) =>
      if s.toPersist != [] {
        WriterCounts(s.store.writer, BW.Append(RUN, s.toPersist[0].eventType, s.toPersist[0].sequence, spare));
      }
    case Flush => WriterCounts(s.store.writer, BW.Flush(RUN));
    case CloseBuffer => WriterCounts(s.store.writer, BW.Close(RUN));
    case QueueNext(k) => WriterCounts(s.store.writer, BW.QueueNext(k));
    case _ =>
  }

  lemma {:induction false} RunCounted(acts: seq<Action>)
    ensures Counted(Run(acts))
  {
    if acts != [] {
      hide Step, Counted;
      RunCounted(acts[..|acts| - 1]);
      CountedStep(Run(acts[..|acts| - 1]), acts[|acts| - 1]);
    }
  }

  lemma RunStoreShaped(acts: seq<Action>)
    ensures StoreShaped(Run(acts).store) && |Run(acts).toPersist| <= 1
  {
    hide Run, BW.Run, BW.Shaped, BW.Genuine;
    RunCounted(acts);
    WriterRuns(acts);
    BW.RunShaped(WriterActs(acts));
    BW.RunGenuine(WriterActs(acts));
  }

  ghost predicate RouteTrue(s: State) { Route(s) == multiset(AllCopies(s.events)) }

  /** Only these parts of the state matter to the route. */
  lemma RouteKept(s: State, t: State)
    requires RouteTrue(s) && t.events == s.events && t.toPersist == s.toPersist && t.store == s.store
    ensures RouteTrue(t)
  {
  }

  lemma RoutePublish(s: State, ty: string)
    requires RouteTrue(s) && s.toPersist == []
    ensures RouteTrue(Publish(s, ty))
  {
    hide Meant, Waiting, Buffered;
    var t := Publish(s, ty);
    assert AllCopies(t.events) == AllCopies(s.events) + t.toPersist;
  }

  /** An append moves one copy into the buffer and leaves everything taken as it was. */
  lemma AppendCopies(st: Store, c: Copy, spare: nat)
    requires StoreShaped(st) && Batchable(c.eventType)
    ensures var t := PersistCopy(st, c, spare);
      Buffered(t) == Buffered(st) + [c] && Waiting(t) == Waiting(st)
  {
    var w := st.writer;
    var e := BW.PendingEvent(RUN, c.eventType, c.sequence, |w.appended|);
    var t := PersistCopy(st, c, spare);
    assert t.writer == BW.DoAppend(w, e, spare);
    BW.LiveAfterAppend(w, e, spare, RUN);
    LiveSerials(st);
    TakenSerials(st);
    CopiesGrow(BW.Live(w, RUN), st.batched, c);
    CopiesMore(BW.Live(w, RUN), e, st.batched + [c]);
    UnderWaySame(w.batches, t.writer.batches, st.executed, st.batched + [c]);
    UnderWayGrow(w.batches, st.executed, st.batched, c);
  }

  lemma CopiesMore(es: seq<BW.PendingEvent>, e: BW.PendingEvent, batched: seq<Copy>)
    ensures CopiesOf(es + [e], batched) == CopiesOf(es, batched) + [CopyOf(e, batched)]
  {
  }

  lemma LiveSerials(st: Store)
    requires StoreShaped(st)
    ensures forall j :: 0 <= j < |BW.Live(st.writer, RUN)| ==> BW.Live(st.writer, RUN)[j].serial < |st.batched|
  {
    var w := st.writer;
    if BW.Bound(w, RUN) {
      var cells := w.store[w.buffers[RUN].arr];
      assert BW.AllAppended(w, cells);
      forall j | 0 <= j < |BW.Live(w, RUN)| ensures BW.Live(w, RUN)[j].serial < |st.batched| {
        assert BW.Appended(w, cells[j]);
      }
    }
  }

  lemma TakenSerials(st: Store)
    requires StoreShaped(st)
    ensures forall k, j :: 0 <= k < |st.writer.batches| && 0 <= j < |st.writer.batches[k].taken| ==>
      st.writer.batches[k].taken[j].serial < |st.batched|
  {
    var w := st.writer;
    forall k, j | 0 <= k < |w.batches| && 0 <= j < |w.batches[k].taken|
      ensures w.batches[k].taken[j].serial < |st.batched|
    {
      assert BW.AllAppended(w, w.batches[k].taken) && BW.Appended(w, w.batches[k].taken[j]);
    }
  }

  lemma RoutePersist(s: State, spare: nat)
    requires RouteTrue(s) && StoreShaped(s.store) && |s.toPersist| == 1
    ensures RouteTrue(Act(s, Persist(spare)))
  {
    hide Meant, Waiting, Buffered, BW.Step;
    var c := s.toPersist[0];
    assert s.toPersist == [c];
    if Batchable(c.eventType) {
      AppendCopies(s.store, c, spare);
    } else {
      assert Buffered(Act(s, Persist(spare)).store) == Buffered(s.store) by { SameWriter(s.store, Act(s, Persist(spare)).store); }
      assert Waiting(Act(s, Persist(spare)).store) == Waiting(s.store) by { SameWriter(s.store, Act(s, Persist(spare)).store); }
    }
  }

  lemma SameWriter(st: Store, tt: Store)
    requires tt.writer == st.writer && tt.batched == st.batched && tt.executed == st.executed
    ensures Buffered(tt) == Buffered(st) && Waiting(tt) == Waiting(st)
  {
  }

  /** A flush or close moves the buffer into a batch. */
  lemma TakeCopies(st: Store, a: BW.Action)
    requires StoreShaped(st) && (a == BW.Flush(RUN) || a == BW.Close(RUN))
    ensures var t := st.(writer := BW.Step(st.writer, a));
      Buffered(t) == [] && Waiting(t) == Waiting(st) + Buffered(st)
  {
    var w := st.writer;
    BW.BatchesAfterTake(w, a);
    BW.LiveAfterTake(w, a, RUN);
    if BW.Live(w, RUN) == [] {
      assert Waiting(st) + [] == Waiting(st);
    } else {
      UnderWayMore(w.batches, BW.TakeBatch(w, RUN, a.Close?), st.executed, st.batched);
    }
  }

  lemma QueueCopies(st: Store, k: nat)
    ensures var t := st.(writer := BW.Step(st.writer, BW.QueueNext(k)));
      Buffered(t) == Buffered(st) && Waiting(t) == Waiting(st)
  {
    var w := BW.Step(st.writer, BW.QueueNext(k));
    assert BW.Live(w, RUN) == BW.Live(st.writer, RUN);
    UnderWaySame(st.writer.batches, w.batches, st.executed, st.batched);
  }

  lemma RouteShifted(s: State, t: State)
    requires RouteTrue(s) && t.events == s.events && t.toPersist == s.toPersist
    requires t.store.spawned == s.store.spawned && t.store.inserts == s.store.inserts
    requires (Buffered(t.store) == Buffered(s.store) && Waiting(t.store) == Waiting(s.store))
          || (Buffered(t.store) == [] && Waiting(t.store) == Waiting(s.store) + Buffered(s.store))
    ensures RouteTrue(t)
  {
    hide Meant, Waiting, Buffered;
  }

  lemma RouteMove(s: State, a: Action)
    requires RouteTrue(s) && StoreShaped(s.store) && (a.Flush? || a.CloseBuffer? || a.QueueNext?)
    ensures RouteTrue(Act(s, a))
  {
    hide RouteTrue, Waiting, Buffered, BW.Step, StoreShaped;
    if a.QueueNext? {
      QueueCopies(s.store, a.k);
    } else {
      TakeCopies(s.store, if a.Flush? then BW.Flush(RUN) else BW.Close(RUN));
    }
    RouteShifted(s, Act(s, a));
  }

  lemma MeantMore(ins: seq<Insert>, i: Insert)
    ensures Meant(ins + [i], Any()) == Meant(ins, Any()) + i.meant
  {
    assert (ins + [i])[..|ins|] == ins;
  }

  lemma RouteExecute(s: State, k: nat, ok: bool)
    requires RouteTrue(s) && Ready(s.store, k)
    ensures RouteTrue(Act(s, InsertBatch(k, ok)))
  {
    hide Meant;
    var st, t := s.store, Act(s, InsertBatch(k, ok)).store;
    UnderWayDone(st.writer.batches, st.executed, k, st.batched);
    MeantMore(st.inserts, t.inserts[|st.inserts|]);
    hide Waiting, Buffered;
    assert Buffered(t) == Buffered(st) by { SameBuffer(st, t); }
  }

  lemma SameBuffer(st: Store, tt: Store)
    requires tt.writer == st.writer && tt.batched == st.batched
    ensures Buffered(tt) == Buffered(st)
  {
  }

  lemma DropOne<T>(xs: seq<T>, k: nat)
    requires k < |xs|
    ensures multiset(xs) == multiset(Drop(xs, k)) + multiset([xs[k]])
  {
    assert xs == xs[..k] + [xs[k]] + xs[k + 1..];
  }

  lemma RouteExecuteOne(s: State, k: nat, ok: bool)
    requires RouteTrue(s) && k < |s.store.spawned|
    ensures RouteTrue(Act(s, InsertOne(k, ok)))
  {
    hide Meant, Waiting, Buffered, Drop;
    var st, t := s.store, Act(s, InsertOne(k, ok)).store;
    DropOne(st.spawned, k);
    MeantMore(st.inserts, t.inserts[|st.inserts|]);
    SameWriter(st, t);
  }

  lemma RouteAct(s: State, a: Action)
    requires RouteTrue(s) && StoreShaped(s.store) && |s.toPersist| <= 1
    ensures RouteTrue(Step(s, a))
  {
    hide RouteTrue, StoreShaped;
    var t := Act(s, a);
    match a {
      case AgentEvent(ty, mapped) =>
        if s.toPersist == [] && mapped { RoutePublish(s, ty); } else { RouteKept(s, t); }
      case Persist(spare) => if s.toPersist != [] { RoutePersist(s, spare); } else { RouteKept(s, t); }
      case Flush => RouteMove(s, a);
      case CloseBuffer => RouteMove(s, a);
      case QueueNext(_) => RouteMove(s, a);
      case InsertBatch(k, ok) => if Ready(s.store, k) { RouteExecute(s, k, ok); } else { RouteKept(s, t); }
      case InsertOne(k, ok) => if k < |s.store.spawned| { RouteExecuteOne(s, k, ok); } else { RouteKept(s, t); }
      case _ => RouteKept(s, t);
    }
    RouteKept(t, Step(s, a));
  }

  /** Conservation: in every interleaving the published copies are, each exactly once, those still in the
      receive loop, in the buffer, in a batch not yet sent, with a goroutine of their own, or meant by an
      insert that was made. */
  lemma {:induction false} RouteConservation(acts: seq<Action>)
    ensures RouteTrue(Run(acts))
  {
    if acts != [] {
      hide RouteTrue, StoreShaped, Step;
      var pre := acts[..|acts| - 1];
      RouteConservation(pre);
      RunStoreShaped(pre);
      RouteAct(Run(pre), acts[|acts| - 1]);
    }
  }

  // ---------------------------------------------------------------- copies are genuine

  predicate True(es: seq<Published>, c: Copy) { c.index < |es| && es[c.index].copy == c }

  ghost predicate AllTrue(es: seq<Published>, cs: seq<Copy>) { forall j :: 0 <= j < |cs| ==> True(es, cs[j]) }

  /** Events are numbered by position, and the copies handed on so far come in publication order. */
  ghost predicate Ordered(s: State) {
    && (forall i :: 0 <= i < |s.events| ==> s.events[i].copy.index == i)
    && AllTrue(s.events, s.toPersist) && AllTrue(s.events, s.store.batched) && AllTrue(s.events, s.store.spawned)
    && (forall j, l :: 0 <= j < l < |s.store.batched| ==> s.store.batched[j].index < s.store.batched[l].index)
    && (forall j, l :: 0 <= j < |s.store.batched| && 0 <= l < |s.toPersist| ==> s.store.batched[j].index < s.toPersist[l].index)
  }

  lemma OrderedKept(s: State, t: State)
    requires Ordered(s) && t.events == s.events && t.toPersist == s.toPersist
    requires t.store.batched == s.store.batched && forall c :: c in t.store.spawned ==> c in s.store.spawned
    ensures Ordered(t)
  {
    forall j | 0 <= j < |t.store.spawned| ensures True(t.events, t.store.spawned[j]) {
      assert t.store.spawned[j] in s.store.spawned;
    }
  }

  lemma OrderedPublish(s: State, ty: string)
    requires Ordered(s) && s.toPersist == []
    ensures Ordered(Publish(s, ty))
  {
    var t := Publish(s, ty);
    assert forall i :: 0 <= i < |s.events| ==> t.events[i] == s.events[i];
  }

  lemma OrderedPersist(s: State, spare: nat)
    requires Ordered(s) && |s.toPersist| == 1
    ensures Ordered(Act(s, Persist(spare)))
  {
    hide BW.Step;
    assert True(s.events, s.toPersist[0]);
  }

  lemma OrderedAct(s: State, a: Action)
    requires Ordered(s) && |s.toPersist| <= 1
    ensures Ordered(Step(s, a))
  {
    var t := Act(s, a);
    hide Ordered, BW.Step;
    if a.AgentEvent? && s.toPersist == [] && a.mapped {
      OrderedPublish(s, a.eventType);
    } else if a.Persist? && s.toPersist != [] {
      OrderedPersist(s, a.spare);
    } else {
      OrderedKept(s, t);
    }
    OrderedKept(t, Step(s, a));
  }

  lemma {:induction false} RunOrdered(acts: seq<Action>)
    ensures Ordered(Run(acts))
  {
    if acts != [] {
      hide Ordered, Step;
      var pre := acts[..|acts| - 1];
      RunOrdered(pre);
      RunCounted(pre);
      OrderedAct(Run(pre), acts[|acts| - 1]);
    }
  }

  // ---------------------------------------------------------------- inserts

  predicate Finished(b: BW.Batch) { |b.queued| == |b.taken| }

  /** An insert of a batch wrote what the batch had queued; one of a single event wrote that event. */
  ghost predicate InsertTrue(st: Store, i: Insert) {
    if i.batch.None? then i.copies == i.meant
    else
      var k := i.batch.value;
      && k < |st.writer.batches| && Finished(st.writer.batches[k])
      && i.copies == CopiesOf(st.writer.batches[k].queued, st.batched)
      && i.meant == CopiesOf(st.writer.batches[k].taken, st.batched)
  }

  ghost predicate InsertsTrue(st: Store) { forall j :: 0 <= j < |st.inserts| ==> InsertTrue(st, st.inserts[j]) }

  /** A batch whose loop has ended never changes what it took and queued. */
  lemma FinishedStays(w: BW.State, a: BW.Action, k: nat)
    requires k < |w.batches| && Finished(w.batches[k])
    ensures var t := BW.Step(w, a);
      k < |t.batches| && t.batches[k].taken == w.batches[k].taken && t.batches[k].queued == w.batches[k].queued
  {
  }

  lemma InsertTrueMoves(st: Store, a: BW.Action, i: Insert)
    requires InsertTrue(st, i)
    ensures InsertTrue(st.(writer := BW.Step(st.writer, a)), i)
  {
    hide BW.Step;
    if i.batch.Some? {
      FinishedStays(st.writer, a, i.batch.value);
    }
  }

  lemma BatchSerials(st: Store, k: nat)
    requires StoreShaped(st) && k < |st.writer.batches|
    ensures forall j :: 0 <= j < |st.writer.batches[k].taken| ==> st.writer.batches[k].taken[j].serial < |st.batched|
    ensures forall j :: 0 <= j < |st.writer.batches[k].queued| ==> st.writer.batches[k].queued[j].serial < |st.batched|
  {
    var w := st.writer;
    assert BW.AllAppended(w, w.batches[k].taken) && BW.AllAppended(w, w.batches[k].queued);
    forall j | 0 <= j < |w.batches[k].taken| ensures w.batches[k].taken[j].serial < |st.batched| {
      assert BW.Appended(w, w.batches[k].taken[j]);
    }
    forall j | 0 <= j < |w.batches[k].queued| ensures w.batches[k].queued[j].serial < |st.batched| {
      assert BW.Appended(w, w.batches[k].queued[j]);
    }
  }

  lemma InsertTruePersist(st: Store, c: Copy, spare: nat, i: Insert)
    requires StoreShaped(st) && InsertTrue(st, i)
    ensures InsertTrue(PersistCopy(st, c, spare), i)
  {
    hide BW.Step;
    var a := BW.Append(RUN, c.eventType, c.sequence, spare);
    if i.batch.Some? && Batchable(c.eventType) {
      var k := i.batch.value;
      FinishedStays(st.writer, a, k);
      BatchSerials(st, k);
      CopiesGrow(st.writer.batches[k].taken, st.batched, c);
      CopiesGrow(st.writer.batches[k].queued, st.batched, c);
    }
  }

  lemma InsertsTrueStore(st: Store, a: Action, at: nat)
    requires InsertsTrue(st)
    ensures InsertsTrue(StoreAct(st, a, at))
  {
    var t := StoreAct(st, a, at);
    hide BW.Step;
    forall j | 0 <= j < |t.inserts| ensures InsertTrue(t, t.inserts[j]) {
      if j < |st.inserts| {
        var i := st.inserts[j];
        assert InsertTrue(st, i) && t.inserts[j] == i;
        match a
        case Flush => InsertTrueMoves(st, BW.Flush(RUN), i);
        case CloseBuffer => InsertTrueMoves(st, BW.Close(RUN), i);
        case QueueNext(k) => InsertTrueMoves(st, BW.QueueNext(k), i);
        case _ =>
      }
    }
  }

  lemma InsertsTrueAct(s: State, a: Action)
    requires InsertsTrue(s.store) && StoreShaped(s.store)
    ensures InsertsTrue(Step(s, a).store)
  {
    if a.Persist? {
      if s.toPersist != [] {
        var t := PersistCopy(s.store, s.toPersist[0], a.spare);
        hide StoreShaped, InsertTrue, BW.Step;
        forall j | 0 <= j < |t.inserts| ensures InsertTrue(t, t.inserts[j]) {
          assert InsertTrue(s.store, s.store.inserts[j]);
          InsertTruePersist(s.store, s.toPersist[0], a.spare, s.store.inserts[j]);
        }
      }
    } else if !a.AgentEvent? && !a.Reconnect? {
      hide InsertsTrue, StoreAct;
      InsertsTrueStore(s.store, a, s.now);
    }
  }

  lemma {:induction false} RunInserts(acts: seq<Action>)
    ensures InsertsTrue(Run(acts).store)
  {
    if acts != [] {
      hide InsertsTrue, StoreShaped, Step;
      var pre := acts[..|acts| - 1];
      RunInserts(pre);
      RunStoreShaped(pre);
      InsertsTrueAct(Run(pre), acts[|acts| - 1]);
    }
  }

  lemma CopyOfInjective(st: Store, e: BW.PendingEvent, f: BW.PendingEvent)
    requires |st.batched| == |st.writer.appended| && BW.Appended(st.writer, e) && BW.Appended(st.writer, f)
    requires forall j, l :: 0 <= j < l < |st.batched| ==> st.batched[j].index < st.batched[l].index
    requires CopyOf(e, st.batched) == CopyOf(f, st.batched)
    ensures e == f
  {
  }

  lemma CopiesDiffer(st: Store, es: seq<BW.PendingEvent>, e: BW.PendingEvent)
    requires |st.batched| == |st.writer.appended| && BW.AllAppended(st.writer, es) && BW.Appended(st.writer, e)
    requires forall j, l :: 0 <= j < l < |st.batched| ==> st.batched[j].index < st.batched[l].index
    requires e !in es
    ensures CopyOf(e, st.batched) !in CopiesOf(es, st.batched)
  {
    forall j | 0 <= j < |es| ensures CopyOf(es[j], st.batched) != CopyOf(e, st.batched) {
      assert es[j] in es && BW.Appended(st.writer, es[j]);
      if CopyOf(es[j], st.batched) == CopyOf(e, st.batched) {
        CopyOfInjective(st, es[j], e);
      }
    }
  }

  /** An insert of a batch that no append overtook wrote exactly what it was meant to write. */
  lemma FaithfulInsert(acts: seq<Action>, j: nat)
    requires j < |Run(acts).store.inserts|
    requires var st := Run(acts).store; var i := st.inserts[j];
      i.batch.Some? ==> i.batch.value < |st.writer.batches| && !st.writer.batches[i.batch.value].clobbered
    ensures Run(acts).store.inserts[j].copies == Run(acts).store.inserts[j].meant
  {
    hide Run, BW.Run;
    RunInserts(acts);
    WriterRuns(acts);
    var st := Run(acts).store;
    assert InsertTrue(st, st.inserts[j]);
    if st.inserts[j].batch.Some? {
      BW.BatchFaithfulIffNotClobbered(WriterActs(acts), st.inserts[j].batch.value);
    }
  }

  /** Cell `x` of the batch that insert `j` sent was overwritten before the loop read it. */
  predicate LostAt(st: Store, j: nat, x: nat) {
    && j < |st.inserts| && st.inserts[j].batch.Some? && st.inserts[j].batch.value < |st.writer.batches|
    && var b := st.writer.batches[st.inserts[j].batch.value];
       Finished(b) && x < |b.taken| && b.queued[x] != b.taken[x]
  }

  function TakenAt(st: Store, j: nat, x: nat): BW.PendingEvent
    requires LostAt(st, j, x)
  {
    st.writer.batches[st.inserts[j].batch.value].taken[x]
  }

  function QueuedAt(st: Store, j: nat, x: nat): BW.PendingEvent
    requires LostAt(st, j, x)
  {
    st.writer.batches[st.inserts[j].batch.value].queued[x]
  }

  /** The event taken from such a cell is not written by the insert, and the one written instead was appended
      later and is none the insert is meant to write. */
  lemma LostCell(acts: seq<Action>, j: nat, x: nat)
    requires LostAt(Run(acts).store, j, x)
    ensures var st := Run(acts).store;
      var missing, extra := CopyOf(TakenAt(st, j, x), st.batched), CopyOf(QueuedAt(st, j, x), st.batched);
      && missing in st.inserts[j].meant && missing !in st.inserts[j].copies
      && extra in st.inserts[j].copies && extra !in st.inserts[j].meant
      && TakenAt(st, j, x).serial < QueuedAt(st, j, x).serial
      && True(Run(acts).events, missing) && True(Run(acts).events, extra)
  {
    hide Run, BW.Run, BW.Shaped;
    RunInserts(acts);
    WriterRuns(acts);
    RunStoreShaped(acts);
    RunOrdered(acts);
    var st := Run(acts).store;
    var k := st.inserts[j].batch.value;
    assert InsertTrue(st, st.inserts[j]);
    var b := st.writer.batches[k];
    BW.OverwrittenCell(WriterActs(acts), k, x);
    assert CopiesOf(b.taken, st.batched)[x] == CopyOf(b.taken[x], st.batched);
    assert CopiesOf(b.queued, st.batched)[x] == CopyOf(b.queued[x], st.batched);
    assert BW.AllAppended(st.writer, b.taken) && BW.AllAppended(st.writer, b.queued);
    assert BW.Appended(st.writer, b.taken[x]) && BW.Appended(st.writer, b.queued[x]);
    CopiesDiffer(st, b.queued, b.taken[x]);
    CopiesDiffer(st, b.taken, b.queued[x]);
  }

  lemma LastApart<T>(a: seq<T>, b: seq<T>)
    requires b != []
    ensures a + b == (a + b[..|b| - 1]) + [b[|b| - 1]] && b == b[..|b| - 1] + [b[|b| - 1]]
  {
  }

  lemma {:induction false} MeantConcat(a: seq<Insert>, b: seq<Insert>)
    ensures Meant(a + b, Any()) == Meant(a, Any()) + Meant(b, Any())
  {
    assert Meant([], Any()) == [];
    hide Meant, Any;
    if b == [] {
      assert a + b == a;
    } else {
      var pre, last := b[..|b| - 1], b[|b| - 1];
      LastApart(a, b);
      MeantConcat(a, pre);
      MeantMore(a + pre, last);
      MeantMore(pre, last);
    }
  }

  lemma MeantDrop(ins: seq<Insert>, j: nat)
    requires j < |ins|
    ensures multiset(Meant(ins, Any())) == multiset(Meant(Drop(ins, j), Any())) + multiset(ins[j].meant)
  {
    hide Meant;
    MeantMore(ins[..j], ins[j]);
    MeantConcat(ins[..j] + [ins[j]], ins[j + 1..]);
    MeantConcat(ins[..j], ins[j + 1..]);
    assert ins == (ins[..j] + [ins[j]]) + ins[j + 1..];
  }

  /** Where an event is on its way, insert `j` aside. */
  function ElsewhereThan(s: State, j: nat, c: Copy): nat
    requires j < |s.store.inserts|
  {
    multiset(s.toPersist)[c] + multiset(Buffered(s.store))[c] + multiset(Waiting(s.store))[c]
    + multiset(s.store.spawned)[c] + multiset(Meant(Drop(s.store.inserts, j), Any()))[c]
  }

  /** An event that an insert is not meant to write has its one place elsewhere. */
  lemma HasItsOwnPlace(acts: seq<Action>, j: nat, c: Copy)
    requires j < |Run(acts).store.inserts| && True(Run(acts).events, c) && c !in Run(acts).store.inserts[j].meant
    ensures ElsewhereThan(Run(acts), j, c) == 1
  {
    hide Run, Meant, Buffered, Waiting, Drop;
    RouteConservation(acts);
    RunOrdered(acts);
    PublishedOnce(Run(acts), c.index);
    MeantDrop(Run(acts).store.inserts, j);
  }

  /** An insert of a batch that was overtaken leaves out an event it was meant to write, and writes one that
      has its one place elsewhere: another insert is meant to write it, or it is still on its way. */
  lemma OvertakenInsert(acts: seq<Action>, j: nat) returns (missing: Copy, extra: Copy)
    requires j < |Run(acts).store.inserts| && Run(acts).store.inserts[j].batch.Some?
    requires var st := Run(acts).store; var k := st.inserts[j].batch.value;
      k < |st.writer.batches| && st.writer.batches[k].clobbered
    ensures var i := Run(acts).store.inserts[j];
      missing in i.meant && missing !in i.copies && extra in i.copies && extra !in i.meant
    ensures ElsewhereThan(Run(acts), j, extra) == 1
  {
    hide Run, BW.Run, ElsewhereThan;
    var x := ClobberedCell(acts, j);
    LostCell(acts, j, x);
    var st := Run(acts).store;
    missing, extra := CopyOf(TakenAt(st, j, x), st.batched), CopyOf(QueuedAt(st, j, x), st.batched);
    HasItsOwnPlace(acts, j, extra);
  }

  lemma ClobberedCell(acts: seq<Action>, j: nat) returns (x: nat)
    requires j < |Run(acts).store.inserts| && Run(acts).store.inserts[j].batch.Some?
    requires var st := Run(acts).store; var k := st.inserts[j].batch.value;
      k < |st.writer.batches| && st.writer.batches[k].clobbered
    ensures LostAt(Run(acts).store, j, x)
  {
    hide Run, BW.Run;
    RunInserts(acts);
    WriterRuns(acts);
    var st := Run(acts).store;
    assert InsertTrue(st, st.inserts[j]);
    x := BW.ClobberedLosesAndRepeats(WriterActs(acts), st.inserts[j].batch.value);
  }

  // ---------------------------------------------------------------- times

  predicate Passed(w: When, now: nat) { w.At? ==> w.t < now }

  predicate Before(w: When, t: nat) { w.At? && w.t < t }

  ghost predicate TimesPast(s: State) {
    && (forall i :: 0 <= i < |s.events| ==> s.events[i].at < s.now)
    && (forall j :: 0 <= j < |s.store.inserts| ==> s.store.inserts[j].at < s.now)
    && Passed(s.viewer.statusAt, s.now) && Passed(s.viewer.subAt, s.now) && Passed(s.viewer.closedAt, s.now)
    && Passed(s.viewer.readAt, s.now) && Passed(s.ending.commitAt, s.now) && Passed(s.ending.hubAt, s.now)
  }

  lemma StoreTimes(st: Store, a: Action, at: nat)
    ensures var t := StoreAct(st, a, at);
      && st.inserts <= t.inserts && forall j :: |st.inserts| <= j < |t.inserts| ==> t.inserts[j].at == at
  {
    hide BW.Step;
  }

  predicate Stamped(v: When, w: When, now: nat) { w == v || w == At(now) }

  lemma ViewerTimes(s: State, a: Action)
    ensures var v, w := s.viewer, Step(s, a).viewer;
      && Stamped(v.statusAt, w.statusAt, s.now) && Stamped(v.subAt, w.subAt, s.now)
      && Stamped(v.closedAt, w.closedAt, s.now) && Stamped(v.readAt, w.readAt, s.now)
  {
    hide BW.Step, StoreAct, Written, PersistCopy;
  }

  lemma OtherTimes(s: State, a: Action)
    ensures var t := Step(s, a);
      && Stamped(s.ending.commitAt, t.ending.commitAt, s.now) && Stamped(s.ending.hubAt, t.ending.hubAt, s.now)
      && s.events <= t.events && (forall i :: |s.events| <= i < |t.events| ==> t.events[i].at == s.now)
      && t.now == s.now + 1
  {
    hide BW.Step, StoreAct, ViewerAct, PersistCopy;
  }

  lemma TimesAct(s: State, a: Action)
    requires TimesPast(s)
    ensures TimesPast(Step(s, a))
  {
    ViewerTimes(s, a);
    OtherTimes(s, a);
    ActInserts(s, a);
    hide Step;
    var t := Step(s, a);
    assert forall i :: 0 <= i < |s.events| ==> t.events[i] == s.events[i];
    assert forall j :: 0 <= j < |s.store.inserts| ==> t.store.inserts[j] == s.store.inserts[j];
  }

  // ---------------------------------------------------------------- the live channel

  /** Published after Subscribe, before the hub closed the channel, with a slot free. */
  predicate PublishedInTime(s: State, i: nat)
    requires i < |s.events|
  {
    Before(s.viewer.subAt, s.events[i].at) && !Before(s.viewer.closedAt, s.events[i].at) && !s.events[i].full
  }

  ghost predicate LiveTrue(s: State) {
    && AllTrue(s.events, s.viewer.live) && s.viewer.taken <= |s.viewer.live|
    && (forall i :: 0 <= i < |s.events| ==> (s.events[i].copy in s.viewer.live <==> PublishedInTime(s, i)))
    && (forall j, k :: 0 <= j < k < |s.viewer.live| ==> s.viewer.live[j].index < s.viewer.live[k].index)
  }

  lemma LivePublish(s: State, ty: string)
    requires Ordered(s) && TimesPast(s) && LiveTrue(s)
    ensures LiveTrue(Publish(s, ty))
  {
    var t, n := Publish(s, ty), |s.events|;
    assert forall i :: 0 <= i < n ==> t.events[i] == s.events[i];
    assert forall j :: 0 <= j < |s.viewer.live| ==> True(s.events, s.viewer.live[j]);
    forall i | 0 <= i < |t.events|
      ensures t.events[i].copy in t.viewer.live <==> PublishedInTime(t, i)
    {
      if i < n {
        assert PublishedInTime(t, i) <==> PublishedInTime(s, i);
        assert t.events[i].copy.index == i;
      } else if Listening(s.viewer) && Room(s.viewer) {
        assert t.viewer.live[|s.viewer.live|] == t.events[n].copy;
      } else {
        assert forall j :: 0 <= j < |t.viewer.live| ==> t.viewer.live[j].index < n;
      }
    }
  }

  /** The channel's contents stay, and its times change only to the present. */
  ghost predicate SameChannel(s: State, t: State) {
    && t.events == s.events && t.viewer.live == s.viewer.live && t.viewer.taken <= |t.viewer.live|
    && (t.viewer.subAt == s.viewer.subAt || (s.viewer.subAt.Never? && t.viewer.subAt == At(s.now)))
    && (t.viewer.closedAt == s.viewer.closedAt || (s.viewer.closedAt.Never? && t.viewer.closedAt == At(s.now)))
  }

  lemma LiveKept(s: State, t: State)
    requires TimesPast(s) && LiveTrue(s) && SameChannel(s, t)
    ensures LiveTrue(t)
  {
    assert forall i :: 0 <= i < |s.events| ==> (PublishedInTime(t, i) <==> PublishedInTime(s, i));
  }

  lemma ActSameChannel(s: State, a: Action)
    requires !(a.AgentEvent? && s.toPersist == [] && a.mapped) && s.viewer.taken <= |s.viewer.live|
    ensures SameChannel(s, Step(s, a))
  {
    hide BW.Step, StoreAct, Written, PersistCopy;
  }

  lemma LiveAct(s: State, a: Action)
    requires Ordered(s) && TimesPast(s) && LiveTrue(s)
    ensures LiveTrue(Step(s, a))
  {
    if a.AgentEvent? && s.toPersist == [] && a.mapped {
      var t := Publish(s, a.eventType);
      LivePublish(s, a.eventType);
      assert forall i :: 0 <= i < |t.events| ==> PublishedInTime(t.(now := s.now + 1), i) == PublishedInTime(t, i);
    } else {
      ActSameChannel(s, a);
      hide Step;
      LiveKept(s, Step(s, a));
    }
  }

  // ---------------------------------------------------------------- the history

  lemma {:induction false} SameSelection(ins: seq<Insert>, p: Insert -> bool, q: Insert -> bool)
    requires forall j :: 0 <= j < |ins| ==> p(ins[j]) == q(ins[j])
    ensures Written(ins, p) == Written(ins, q)
  {
    if ins != [] {
      SameSelection(ins[..|ins| - 1], p, q);
    }
  }

  lemma {:induction false} LaterInserts(ins: seq<Insert>, more: seq<Insert>, t: nat)
    requires ins <= more && forall j :: |ins| <= j < |more| ==> more[j].at >= t
    ensures Written(more, StoredBy(t)) == Written(ins, StoredBy(t))
  {
    if |more| > |ins| {
      var n := |more| - 1;
      assert ins <= more[..n];
      LaterInserts(ins, more[..n], t);
      assert !StoredBy(t)(more[n]);
    } else {
      assert more == ins;
    }
  }

  /** The history is the rows stored before the read, by sequence number. */
  ghost predicate HistoryTrue(s: State) {
    var v := s.viewer;
    && (v.readAt.Never? ==> v.history == []) && (v.readAt.At? ==> v.replayed)
    && (v.readAt.At? ==> multiset(v.history) == multiset(Written(s.store.inserts, StoredBy(v.readAt.t))) && BySequence(v.history))
  }

  lemma HistoryKept(s: State, t: State)
    requires HistoryTrue(s) && TimesPast(s)
    requires t.viewer.readAt == s.viewer.readAt && t.viewer.history == s.viewer.history
    requires t.viewer.replayed == s.viewer.replayed
    requires s.store.inserts <= t.store.inserts
    requires forall j :: |s.store.inserts| <= j < |t.store.inserts| ==> t.store.inserts[j].at == s.now
    ensures HistoryTrue(t)
  {
    if s.viewer.readAt.At? {
      LaterInserts(s.store.inserts, t.store.inserts, s.viewer.readAt.t);
    }
  }

  lemma HistoryRead(s: State, rows: seq<Copy>)
    requires TimesPast(s)
    requires multiset(rows) == multiset(Written(s.store.inserts, Stored())) && BySequence(rows)
    ensures HistoryTrue(s.(viewer := s.viewer.(replayed := true, readAt := At(s.now), history := rows)))
  {
    SameSelection(s.store.inserts, Stored(), StoredBy(s.now));
  }

  lemma ActInserts(s: State, a: Action)
    ensures var t := Step(s, a);
      && s.store.inserts <= t.store.inserts
      && (forall j :: |s.store.inserts| <= j < |t.store.inserts| ==> t.store.inserts[j].at == s.now)
      && (!a.ReadHistory? ==> t.viewer.readAt == s.viewer.readAt && t.viewer.history == s.viewer.history
                              && t.viewer.replayed == s.viewer.replayed)
      && (a.ReadHistory? ==> t.store.inserts == s.store.inserts)
  {
    hide BW.Step, Written, StoreAct;
    StoreTimes(s.store, a, s.now);
    if a.ReadHistory? {
      StoreUntouched(s.store, a, s.now);
    }
  }

  lemma StoreUntouched(st: Store, a: Action, at: nat)
    requires a.ReadHistory?
    ensures StoreAct(st, a, at) == st
  {
  }

  lemma HistoryAct(s: State, a: Action)
    requires TimesPast(s) && HistoryTrue(s)
    ensures HistoryTrue(Step(s, a))
  {
    ActInserts(s, a);
    if a.ReadHistory? && s.viewer.subAt.At? && !s.viewer.replayed && a.ok
      && multiset(a.rows) == multiset(Written(s.store.inserts, Stored())) && BySequence(a.rows) {
      StoreUntouched(s.store, a, s.now);
      HistoryRead(s, a.rows);
    } else if a.ReadHistory? {
      StoreUntouched(s.store, a, s.now);
    } else {
      hide Step, HistoryTrue, TimesPast;
      HistoryKept(s, Step(s, a));
    }
  }

  // ---------------------------------------------------------------- when a stream ends

  /** What the viewer knows of the ending, told by times alone. */
  ghost predicate EndingTrue(s: State) {
    var v, g := s.viewer, s.ending;
    && (v.subAt.At? ==> Before(v.statusAt, v.subAt.t)) && (v.closedAt.At? ==> v.subAt.At?)
    && (v.sawEnded <==> v.statusAt.At? && Before(g.commitAt, v.statusAt.t))
    && (v.closedAt.At? <==> g.hubAt.At? && Before(v.subAt, g.hubAt.t))
  }

  lemma EndingKept(s: State, a: Action)
    requires TimesPast(s) && EndingTrue(s)
    ensures EndingTrue(Step(s, a))
  {
    hide BW.Step, StoreAct, Written, PersistCopy;
  }

  ghost predicate Inv(s: State) { Ordered(s) && TimesPast(s) && LiveTrue(s) && HistoryTrue(s) && EndingTrue(s) }

  /** Live, history and ending are what the times of publication, storage and reading say. */
  lemma {:induction false} RunInv(acts: seq<Action>)
    ensures Inv(Run(acts))
  {
    if acts != [] {
      hide Step, Ordered, TimesPast, LiveTrue, HistoryTrue, EndingTrue;
      var s, a := Run(acts[..|acts| - 1]), acts[|acts| - 1];
      RunInv(acts[..|acts| - 1]);
      RunCounted(acts[..|acts| - 1]);
      OrderedAct(s, a);
      TimesAct(s, a);
      LiveAct(s, a);
      HistoryAct(s, a);
      EndingKept(s, a);
    }
  }

  // ---------------------------------------------------------------- counting

  lemma UniqueCount(xs: seq<Copy>, i: nat)
    requires i < |xs| && forall j :: 0 <= j < |xs| && j != i ==> xs[j] != xs[i]
    ensures multiset(xs)[xs[i]] == 1
  {
    var a, b := xs[..i], xs[i + 1..];
    assert xs == a + [xs[i]] + b;
    assert xs[i] !in a && xs[i] !in b;
  }

  lemma PublishedOnce(s: State, i: nat)
    requires Ordered(s) && i < |s.events|
    ensures multiset(AllCopies(s.events))[s.events[i].copy] == 1
  {
    UniqueCount(AllCopies(s.events), i);
  }

  lemma {:induction false} MeantSplit(ins: seq<Insert>, t: nat)
    ensures multiset(Meant(ins, Any())) ==
      multiset(Meant(ins, Failed())) + multiset(Meant(ins, StoredBy(t))) + multiset(Meant(ins, StoredLater(t)))
  {
    if ins != [] {
      MeantSplit(ins[..|ins| - 1], t);
    }
  }

  /** The fate of every published event: it is in exactly one place on its way, or the one insert meant to
      write it failed, came before time t, or came later. */
  lemma EventFate(acts: seq<Action>, i: nat, t: nat)
    requires i < |Run(acts).events|
    ensures var s := Run(acts);
      var c, st := s.events[i].copy, s.store;
      multiset(s.toPersist)[c] + multiset(Buffered(st))[c] + multiset(Waiting(st))[c] + multiset(st.spawned)[c]
      + multiset(Meant(st.inserts, Failed()))[c] + multiset(Meant(st.inserts, StoredBy(t)))[c]
      + multiset(Meant(st.inserts, StoredLater(t)))[c] == 1
  {
    hide Run, Meant, Buffered, Waiting;
    RouteConservation(acts);
    RunOrdered(acts);
    PublishedOnce(Run(acts), i);
    MeantSplit(Run(acts).store.inserts, t);
  }

  lemma {:induction false} WrittenFaithful(ins: seq<Insert>, p: Insert -> bool)
    requires forall j :: 0 <= j < |ins| && p(ins[j]) ==> ins[j].copies == ins[j].meant
    ensures Written(ins, p) == Meant(ins, p)
  {
    if ins != [] {
      WrittenFaithful(ins[..|ins| - 1], p);
    }
  }

  lemma {:induction false} WrittenFrom(ins: seq<Insert>, p: Insert -> bool, c: Copy) returns (j: nat)
    requires c in Written(ins, p)
    ensures j < |ins| && p(ins[j]) && c in ins[j].copies
  {
    var n := |ins| - 1;
    if c in Written(ins[..n], p) {
      j := WrittenFrom(ins[..n], p, c);
    } else {
      j := n;
    }
  }

  lemma {:induction false} WrittenHas(ins: seq<Insert>, p: Insert -> bool, j: nat, c: Copy)
    requires j < |ins| && p(ins[j]) && c in ins[j].copies
    ensures c in Written(ins, p)
  {
    if j < |ins| - 1 {
      WrittenHas(ins[..|ins| - 1], p, j, c);
    }
  }

  lemma WrittenLast(ins: seq<Insert>, p: Insert -> bool, c: Copy)
    requires ins != []
    ensures var n := |ins| - 1;
      multiset(Written(ins, p))[c] == multiset(Written(ins[..n], p))[c] + if p(ins[n]) then multiset(ins[n].copies)[c] else 0
  {
  }

  /** An event written by two of the inserts is there at least twice. */
  lemma {:induction false} WrittenTwice(ins: seq<Insert>, p: Insert -> bool, j: nat, l: nat, c: Copy)
    requires j < l < |ins| && p(ins[j]) && p(ins[l]) && c in ins[j].copies && c in ins[l].copies
    ensures multiset(Written(ins, p))[c] >= 2
  {
    hide Written;
    var n := |ins| - 1;
    WrittenLast(ins, p, c);
    if l < n {
      WrittenTwice(ins[..n], p, j, l, c);
    } else {
      WrittenHas(ins[..n], p, j, c);
      assert c in multiset(Written(ins[..n], p)) && c in multiset(ins[n].copies);
    }
  }

  lemma {:induction false} MeantHas(ins: seq<Insert>, p: Insert -> bool, j: nat, c: Copy)
    requires j < |ins| && p(ins[j]) && c in ins[j].meant
    ensures c in Meant(ins, p)
  {
    if j < |ins| - 1 {
      MeantHas(ins[..|ins| - 1], p, j, c);
    }
  }

  lemma DropHas<T>(xs: seq<T>, j: nat, l: nat)
    requires j < |xs| && l < |xs| && j != l
    ensures xs[l] in Drop(xs, j)
  {
    if l < j {
      assert Drop(xs, j)[l] == xs[l];
    } else {
      assert Drop(xs, j)[l - 1] == xs[l];
    }
  }

  /** No event is meant by two inserts. */
  lemma MeantOnce(acts: seq<Action>, j: nat, l: nat, c: Copy)
    requires j < |Run(acts).store.inserts| && l < |Run(acts).store.inserts| && j != l
    requires c in Run(acts).store.inserts[j].meant && True(Run(acts).events, c)
    ensures c !in Run(acts).store.inserts[l].meant
  {
    hide Run, Meant, Buffered, Waiting, Drop;
    var ins := Run(acts).store.inserts;
    if c in ins[l].meant {
      RouteConservation(acts);
      RunOrdered(acts);
      PublishedOnce(Run(acts), c.index);
      MeantDrop(ins, j);
      DropHas(ins, j, l);
      var rest := Drop(ins, j);
      var m :| 0 <= m < |rest| && rest[m] == ins[l];
      MeantHas(rest, Any(), m, c);
    }
  }

  /** Every copy in the history is genuine, whatever overtook what. */
  lemma GenuineInsert(acts: seq<Action>, j: nat)
    requires j < |Run(acts).store.inserts|
    ensures AllTrue(Run(acts).events, Run(acts).store.inserts[j].copies)
  {
    hide Run, Meant, Buffered, Waiting;
    RunInserts(acts);
    RunOrdered(acts);
    RunStoreShaped(acts);
    RouteConservation(acts);
    var s := Run(acts);
    var ins := s.store.inserts[j];
    assert InsertTrue(s.store, ins);
    forall x | 0 <= x < |ins.copies| ensures True(s.events, ins.copies[x]) {
      if ins.batch.None? {
        MeantHas(s.store.inserts, Any(), j, ins.copies[x]);
        assert ins.copies[x] in multiset(AllCopies(s.events));
        assert ins.copies[x] in AllCopies(s.events);
      } else {
        BatchSerials(s.store, ins.batch.value);
      }
    }
  }

  lemma HistoryGenuine(acts: seq<Action>, c: Copy)
    requires c in Run(acts).viewer.history
    ensures True(Run(acts).events, c)
  {
    hide Run, Written;
    RunInv(acts);
    var s := Run(acts);
    assert c in multiset(s.viewer.history);
    var j := WrittenFrom(s.store.inserts, StoredBy(s.viewer.readAt.t), c);
    GenuineInsert(acts, j);
  }

  /** A replayed and a live copy of one event are equal. */
  lemma CopiesAgree(acts: seq<Action>, c: Copy, d: Copy)
    requires c in Run(acts).viewer.history && d in Run(acts).viewer.live && c.index == d.index
    ensures c == d
  {
    hide Run;
    HistoryGenuine(acts, c);
    RunInv(acts);
  }

  // ---------------------------------------------------------------- what a viewer is shown

  function HistoryOf(v: Viewer): Option<seq<Copy>> { if v.readAt.At? then Some(v.history) else None }

  function ReadTime(v: Viewer): nat { if v.readAt.At? then v.readAt.t else 0 }

  /** The event's insert succeeded before the replay read. */
  predicate StoredInTime(s: State, i: nat)
    requires i < |s.events|
  {
    s.events[i].copy in Meant(s.store.inserts, StoredBy(ReadTime(s.viewer)))
  }

  predicate Received(s: State, i: nat)
    requires i < |s.events| && s.viewer.taken <= |s.viewer.live|
  {
    s.events[i].copy in s.viewer.live[..s.viewer.taken]
  }

  /** No insert stored before the replay read sent a batch that an append had overtaken. */
  predicate NoneOvertaken(s: State) {
    var st, t := s.store, ReadTime(s.viewer);
    forall j :: 0 <= j < |st.inserts| && StoredBy(t)(st.inserts[j]) ==> !SentOvertaken(st, st.inserts[j])
  }

  predicate SentOvertaken(st: Store, i: Insert) {
    i.batch.Some? && i.batch.value < |st.writer.batches| && st.writer.batches[i.batch.value].clobbered
  }

  lemma NothingBefore(ins: seq<Insert>)
    ensures Written(ins, StoredBy(0)) == [] && Meant(ins, StoredBy(0)) == []
  {
  }

  /** How often the history holds an event: once if it was stored in time and not at all otherwise. */
  lemma HistoryCount(acts: seq<Action>, i: nat)
    requires i < |Run(acts).events| && NoneOvertaken(Run(acts))
    ensures multiset(Run(acts).viewer.history)[Run(acts).events[i].copy] == if StoredInTime(Run(acts), i) then 1 else 0
  {
    hide Run, Written, Meant, StoreShaped, Buffered, Waiting;
    RunInv(acts);
    RunInserts(acts);
    var s := Run(acts);
    var ins, t := s.store.inserts, ReadTime(s.viewer);
    forall j | 0 <= j < |ins| && StoredBy(t)(ins[j]) ensures ins[j].copies == ins[j].meant {
      assert InsertTrue(s.store, ins[j]) && !SentOvertaken(s.store, ins[j]);
      FaithfulInsert(acts, j);
    }
    WrittenFaithful(ins, StoredBy(t));
    NothingBefore(ins);
    EventFate(acts, i, t);
  }

  lemma LiveOnce(s: State, i: nat)
    requires LiveTrue(s) && i < |s.events|
    ensures multiset(s.viewer.live[..s.viewer.taken])[s.events[i].copy] == if Received(s, i) then 1 else 0
  {
    var xs, c := s.viewer.live[..s.viewer.taken], s.events[i].copy;
    if c in xs {
      var j :| 0 <= j < |xs| && xs[j] == c;
      UniqueCount(xs, j);
    }
  }

  /** What a viewer is shown: in every interleaving in which no batch stored before the replay read was
      overtaken, an event is shown once for being stored before the replay read and once for being received live, and not otherwise.  It
      entered the channel exactly when it was published after Subscribe, before the hub closed the channel
      and with a slot free.  If it was not stored in time, it is still on its way in exactly one place, or
      its insert failed, or succeeded after the read. */
  lemma Coverage(acts: seq<Action>, i: nat, rs: seq<RunStream.Ready>)
    requires i < |Run(acts).events| && NoneOvertaken(Run(acts))
    requires var v := Run(acts).viewer; v.taken <= |v.live| && Heard(rs) == v.live[..v.taken]
    ensures var s := Run(acts);
      var c, v, st, t := s.events[i].copy, s.viewer, s.store, ReadTime(s.viewer);
      && multiset(Seen(Frames(HistoryOf(v), v.sawEnded, rs)))[c]
         == (if StoredInTime(s, i) then 1 else 0) + (if !v.sawEnded && Received(s, i) then 1 else 0)
      && (c in v.live <==> PublishedInTime(s, i))
      && (!StoredInTime(s, i) ==>
            multiset(s.toPersist)[c] + multiset(Buffered(st))[c] + multiset(Waiting(st))[c] + multiset(st.spawned)[c]
            + multiset(Meant(st.inserts, Failed()))[c] + multiset(Meant(st.inserts, StoredLater(t)))[c] == 1)
  {
    hide Run, Seen, Frames, Heard, Meant, Buffered, Waiting;
    var s := Run(acts);
    RunInv(acts);
    HistoryCount(acts, i);
    LiveOnce(s, i);
    EventFate(acts, i, ReadTime(s.viewer));
    FramesShow(HistoryOf(s.viewer), s.viewer.sawEnded, rs);
  }

  /** An event that an insert writes without being meant to sits in a cell that was overwritten. */
  lemma WrittenUnmeant(acts: seq<Action>, l: nat, e: BW.PendingEvent) returns (y: nat)
    requires l < |Run(acts).store.inserts| && BW.Appended(Run(acts).store.writer, e)
    requires var st := Run(acts).store; var c := CopyOf(e, st.batched);
      c in st.inserts[l].copies && c !in st.inserts[l].meant
    ensures LostAt(Run(acts).store, l, y) && QueuedAt(Run(acts).store, l, y) == e
  {
    hide Run, BW.Run, BW.Shaped;
    RunInserts(acts);
    RunStoreShaped(acts);
    RunOrdered(acts);
    var st := Run(acts).store;
    assert InsertTrue(st, st.inserts[l]);
    var b := st.writer.batches[st.inserts[l].batch.value];
    var c := CopyOf(e, st.batched);
    y :| 0 <= y < |b.queued| && CopiesOf(b.queued, st.batched)[y] == c;
    assert BW.AllAppended(st.writer, b.queued) && BW.Appended(st.writer, b.queued[y]);
    CopyOfInjective(st, b.queued[y], e);
    assert CopiesOf(b.taken, st.batched)[y] in st.inserts[l].meant;
  }

  /** An event the history should hold and does not. */
  predicate MissingFrom(s: State, c: Copy) {
    True(s.events, c) && StoredInTime(s, c.index) && c !in s.viewer.history
  }

  /** Of an overtaken batch stored before the read some event is missing.  If the event its cell lost is in
      the history after all, another overtaken batch wrote it in place of one appended earlier. */
  lemma {:induction false} LostFromHistory(acts: seq<Action>, j: nat, x: nat, n: nat) returns (lost: Copy)
    requires LostAt(Run(acts).store, j, x) && StoredBy(ReadTime(Run(acts).viewer))(Run(acts).store.inserts[j])
    requires n == TakenAt(Run(acts).store, j, x).serial
    ensures MissingFrom(Run(acts), lost)
    decreases n
  {
    hide Run, Written, Meant, Inv;
    var s := Run(acts);
    var st, p := s.store, StoredBy(ReadTime(s.viewer));
    var e := TakenAt(st, j, x);
    lost := CopyOf(e, st.batched);
    LostCell(acts, j, x);
    MeantHas(st.inserts, p, j, lost);
    if lost in s.viewer.history {
      HistoryWritten(acts, lost);
      var l := WrittenFrom(st.inserts, p, lost);
      MeantOnce(acts, j, l, lost);
      TakenIsAppended(acts, j, x);
      var y := WrittenUnmeant(acts, l, e);
      LostCell(acts, l, y);
      lost := LostFromHistory(acts, l, y, TakenAt(st, l, y).serial);
    }
  }

  lemma TakenIsAppended(acts: seq<Action>, j: nat, x: nat)
    requires LostAt(Run(acts).store, j, x)
    ensures BW.Appended(Run(acts).store.writer, TakenAt(Run(acts).store, j, x))
  {
    hide Run, BW.Shaped;
    RunStoreShaped(acts);
    var w := Run(acts).store.writer;
    assert BW.AllAppended(w, w.batches[Run(acts).store.inserts[j].batch.value].taken);
  }

  lemma HistoryWritten(acts: seq<Action>, c: Copy)
    ensures var s := Run(acts);
      c in s.viewer.history <==> c in Written(s.store.inserts, StoredBy(ReadTime(s.viewer)))
  {
    hide Run, Written, Ordered, LiveTrue, TimesPast, EndingTrue;
    RunInv(acts);
    var s := Run(acts);
    NothingBefore(s.store.inserts);
    assert c in s.viewer.history <==> c in multiset(s.viewer.history);
  }

  /** The history holds event i as often as it should. */
  predicate HistoryRight(s: State, i: nat)
    requires i < |s.events|
  {
    multiset(s.viewer.history)[s.events[i].copy] == if StoredInTime(s, i) then 1 else 0
  }

  /** Exactly when the replay is right: every event is in the history once if it was stored before the read
      and otherwise not at all, if and only if no batch stored before the read had been overtaken; and as
      soon as one had, some event is missing. */
  lemma HistoryRightIff(acts: seq<Action>)
    ensures var s := Run(acts);
      && ((forall i :: 0 <= i < |s.events| ==> HistoryRight(s, i)) <==> NoneOvertaken(s))
      && ((exists c :: MissingFrom(s, c)) <==> !NoneOvertaken(s))
  {
    hide Run, Written, Meant, StoredInTime;
    var s := Run(acts);
    if NoneOvertaken(s) {
      forall i | 0 <= i < |s.events| ensures HistoryRight(s, i) {
        HistoryCount(acts, i);
      }
      forall c | True(s.events, c) && StoredInTime(s, c.index) ensures c in s.viewer.history {
        assert HistoryRight(s, c.index);
        assert c in multiset(s.viewer.history);
      }
    } else {
      var j :| 0 <= j < |s.store.inserts| && StoredBy(ReadTime(s.viewer))(s.store.inserts[j])
        && SentOvertaken(s.store, s.store.inserts[j]);
      var x := ClobberedCell(acts, j);
      var lost := LostFromHistory(acts, j, x, TakenAt(s.store, j, x).serial);
      assert !HistoryRight(s, lost.index);
    }
  }

  /** How often the frames show event i, if all is well. */
  predicate ShownRight(s: State, rs: seq<RunStream.Ready>, i: nat)
    requires i < |s.events| && s.viewer.taken <= |s.viewer.live|
  {
    multiset(Seen(Frames(HistoryOf(s.viewer), s.viewer.sawEnded, rs)))[s.events[i].copy]
    == (if StoredInTime(s, i) then 1 else 0) + (if !s.viewer.sawEnded && Received(s, i) then 1 else 0)
  }

  /** Shown right is replayed right: what is received live is always right. */
  lemma ShownIsReplayed(acts: seq<Action>, i: nat, rs: seq<RunStream.Ready>)
    requires i < |Run(acts).events|
    requires var v := Run(acts).viewer; v.taken <= |v.live| && Heard(rs) == v.live[..v.taken]
    ensures ShownRight(Run(acts), rs, i) <==> HistoryRight(Run(acts), i)
  {
    hide Run, Seen, Frames, Heard, StoredInTime;
    var s := Run(acts);
    RunInv(acts);
    LiveOnce(s, i);
    FramesShow(HistoryOf(s.viewer), s.viewer.sawEnded, rs);
  }

  /** Exactly when a viewer is shown every event as often as promised. */
  lemma CoverageIff(acts: seq<Action>, rs: seq<RunStream.Ready>)
    requires var v := Run(acts).viewer; v.taken <= |v.live| && Heard(rs) == v.live[..v.taken]
    ensures (forall i :: 0 <= i < |Run(acts).events| ==> ShownRight(Run(acts), rs, i)) <==> NoneOvertaken(Run(acts))
  {
    hide Run, ShownRight, HistoryRight, NoneOvertaken, Heard;
    HistoryRightIff(acts);
    forall i | 0 <= i < |Run(acts).events| ensures ShownRight(Run(acts), rs, i) <==> HistoryRight(Run(acts), i) {
      ShownIsReplayed(acts, i, rs);
    }
  }

  /** What an overtaken batch does to the history: stored before the read, it leaves out an event it was
      meant to write, so that some event stored in time is missing, and shows one that another insert writes
      again if that insert is faithful and in time. */
  lemma OvertakenHistory(acts: seq<Action>, j: nat) returns (missing: Copy, extra: Copy, lost: Copy)
    requires Run(acts).viewer.readAt.At? && j < |Run(acts).store.inserts|
    requires var st := Run(acts).store; var i := st.inserts[j];
      StoredBy(Run(acts).viewer.readAt.t)(i) && SentOvertaken(st, i)
    ensures var s := Run(acts); var ins := s.store.inserts;
      && missing in ins[j].meant && missing !in ins[j].copies && extra in ins[j].copies && extra !in ins[j].meant
      && ElsewhereThan(s, j, extra) == 1 && extra in s.viewer.history
      && (forall l :: 0 <= l < |ins| && l != j && StoredBy(s.viewer.readAt.t)(ins[l]) && extra in ins[l].copies ==>
            multiset(s.viewer.history)[extra] >= 2)
      && ((forall l :: 0 <= l < |ins| && l != j && StoredBy(s.viewer.readAt.t)(ins[l]) ==> missing !in ins[l].copies) ==>
            missing !in s.viewer.history)
      && MissingFrom(s, lost)
  {
    hide Run, Written, ElsewhereThan, MissingFrom;
    RunInv(acts);
    missing, extra := OvertakenInsert(acts, j);
    var s := Run(acts);
    var ins, p := s.store.inserts, StoredBy(s.viewer.readAt.t);
    var x := ClobberedCell(acts, j);
    lost := LostFromHistory(acts, j, x, TakenAt(s.store, j, x).serial);
    WrittenHas(ins, p, j, extra);
    HistoryWritten(acts, extra);
    forall l | 0 <= l < |ins| && l != j && p(ins[l]) && extra in ins[l].copies
      ensures multiset(s.viewer.history)[extra] >= 2
    {
      if l < j { WrittenTwice(ins, p, l, j, extra); } else { WrittenTwice(ins, p, j, l, extra); }
    }
    if missing in s.viewer.history {
      HistoryWritten(acts, missing);
      var l := WrittenFrom(ins, p, missing);
    }
  }

  lemma Snoc(acts: seq<Action>, a: Action)
    ensures Run(acts + [a]) == Step(Run(acts), a)
    ensures WriterActs(acts + [a]) == WriterActs(acts) + WriterAct(Run(acts), a)
  {
    assert (acts + [a])[..|acts + [a]| - 1] == acts;
  }

  function Queueing(k: nat, n: nat): seq<Action> { if n == 0 then [] else Queueing(k, n - 1) + [QueueNext(k)] }

  lemma QueueKeeps(s: State, k: nat)
    ensures Step(s, QueueNext(k)).store.executed == s.store.executed && WriterAct(s, QueueNext(k)) == [BW.QueueNext(k)]
  {
    hide BW.Step;
  }

  lemma {:induction false} QueueingActs(acts: seq<Action>, k: nat, n: nat)
    ensures WriterActs(acts + Queueing(k, n)) == WriterActs(acts) + BW.Drain(k, n)
    ensures Run(acts + Queueing(k, n)).store.executed == Run(acts).store.executed
  {
    hide Run, Step, WriterActs, WriterAct;
    if n == 0 {
      assert acts + Queueing(k, 0) == acts && WriterActs(acts) + BW.Drain(k, 0) == WriterActs(acts);
    } else {
      var pre := acts + Queueing(k, n - 1);
      QueueingActs(acts, k, n - 1);
      assert acts + Queueing(k, n) == pre + [QueueNext(k)];
      Snoc(pre, QueueNext(k));
      QueueKeeps(Run(pre), k);
      assert WriterActs(acts) + BW.Drain(k, n) == WriterActs(acts) + BW.Drain(k, n - 1) + [BW.QueueNext(k)];
    }
  }

  lemma FlushSteps(s: State)
    requires s.toPersist == []
    ensures var t := Step(s, Flush);
      && t.toPersist == [] && t.counter == s.counter && t.store.executed == s.store.executed
      && WriterAct(s, Flush) == [BW.Flush(RUN)]
  {
    hide BW.Step;
  }

  lemma EventSteps(s: State, ty: string, spare: nat)
    requires s.toPersist == [] && Batchable(ty)
    ensures var t := Step(s, AgentEvent(ty, true));
      && WriterAct(s, AgentEvent(ty, true)) == []
      && WriterAct(t, Persist(spare)) == [BW.Append(RUN, ty, s.counter + 1, spare)]
      && Step(t, Persist(spare)).store.executed == s.store.executed
  {
    hide BW.Step;
  }

  lemma OvertakeActs(acts: seq<Action>, ty: string, spare: nat)
    requires Run(acts).toPersist == [] && Batchable(ty)
    ensures var more := acts + [Flush] + [AgentEvent(ty, true)] + [Persist(spare)];
      && WriterActs(more) == WriterActs(acts) + [BW.Flush(RUN)] + [BW.Append(RUN, ty, Run(acts).counter + 1, spare)]
      && Run(more).store.executed == Run(acts).store.executed
  {
    hide Run, Step, WriterActs, WriterAct;
    var a := acts + [Flush];
    Snoc(acts, Flush);
    FlushSteps(Run(acts));
    Snoc(a, AgentEvent(ty, true));
    EventSteps(Run(a), ty, spare);
    Snoc(a + [AgentEvent(ty, true)], Persist(spare));
    assert WriterActs(a) + [] == WriterActs(a);
  }

  /** From any point of any run with events buffered and none in the receive loop, an event that arrives
      between a flush and the loop that fills its batch overtakes it: the batch can be sent in this state. */
  lemma BatchIsOvertaken(acts: seq<Action>, ty: string, spare: nat) returns (more: seq<Action>)
    requires Run(acts).toPersist == [] && Batchable(ty) && BW.Live(Run(acts).store.writer, RUN) != []
    ensures var st := Run(acts + more).store;
      var k := |Run(acts).store.writer.batches|;
      Ready(st, k) && st.writer.batches[k].clobbered
  {
    hide Run, BW.Run, BW.Live, BW.Drain, WriterActs, Queueing, Batchable;
    var s := Run(acts);
    var w, k, n := WriterActs(acts), |s.store.writer.batches|, |BW.Live(s.store.writer, RUN)|;
    WriterRuns(acts);
    RunCounted(acts);
    OvertakeActs(acts, ty, spare);
    var mid := acts + [Flush] + [AgentEvent(ty, true)] + [Persist(spare)];
    QueueingActs(mid, k, n);
    more := [Flush] + [AgentEvent(ty, true)] + [Persist(spare)] + Queueing(k, n);
    assert acts + more == mid + Queueing(k, n);
    WriterRuns(acts + more);
    BW.AppendOvertakesFlush(w, RUN, ty, s.counter + 1, spare);
    BW.BatchFaithfulIffNotClobbered(WriterActs(acts + more), k);
    var b := Run(acts + more).store.writer.batches[k];
    assert b.queued[0] != b.taken[0];
  }
}
