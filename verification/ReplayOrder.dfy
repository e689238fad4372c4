/** In which order a replay comes, what the sequence numbers are, and what was published when.
 */
module ReplayOrder {
  import opened Wrappers
  import opened RunStream
  import opened ReplayLive
  import BW = BatchWriter

  // ---------------------------------------------------------------- publications, told by the steps

  /** Messages of the session handled on this connection. */
  function SinceReconnect(acts: seq<Action>): nat {
    if acts == [] then 0
    else
      var pre, a := acts[..|acts| - 1], acts[|acts| - 1];
      if Run(pre).toPersist != [] then SinceReconnect(pre)
      else if a.AgentEvent? then SinceReconnect(pre) + 1
      else if a.Reconnect? then 0
      else SinceReconnect(pre)
  }

  lemma CounterStep(s: State, a: Action)
    ensures var t := Step(s, a);
      && t.now == s.now + 1
      && t.counter == if s.toPersist != [] then s.counter
                      else if a.AgentEvent? then s.counter + 1 else if a.Reconnect? then 0 else s.counter
  {
    hide BW.Step, StoreAct, ViewerAct, EndingAct, PersistCopy;
  }

  lemma {:induction false} CounterCounts(acts: seq<Action>)
    ensures Run(acts).counter == SinceReconnect(acts) && Run(acts).now == |acts|
  {
    if acts != [] {
      hide Step;
      CounterCounts(acts[..|acts| - 1]);
      CounterStep(Run(acts[..|acts| - 1]), acts[|acts| - 1]);
    }
  }

  /** Step k publishes: the receive loop is free and the session's run is known. */
  predicate Publishes(acts: seq<Action>, k: nat)
    requires k < |acts|
  {
    acts[k].AgentEvent? && acts[k].mapped && Run(acts[..k]).toPersist == []
  }

  /** Event `e` is what step k published: numbered by the messages handled on the connection, and marked full
      exactly if the viewer was subscribed with 128 events waiting for it. */
  ghost predicate PublishedBy(acts: seq<Action>, i: nat, e: Published, k: nat)
    requires k < |acts|
  {
    var s := Run(acts[..k]);
    && Publishes(acts, k) && |s.events| == i && e.at == k && e.conn == s.conn
    && e.copy == Copy(i, acts[k].eventType, SinceReconnect(acts[..k]) + 1)
    && (e.full <==> s.viewer.subAt.At? && s.viewer.closedAt.Never? && |s.viewer.live| - s.viewer.taken >= 128)
  }

  lemma PublishStep(acts: seq<Action>)
    requires acts != []
    ensures var n := |acts| - 1;
      var s, t := Run(acts[..n]), Run(acts);
      if Publishes(acts, n) then |t.events| == |s.events| + 1 && t.events[..|s.events|] == s.events
                                 && PublishedBy(acts, |s.events|, t.events[|s.events|], n)
      else t.events == s.events
  {
    hide Run, Step, SinceReconnect;
    var n := |acts| - 1;
    CounterCounts(acts[..n]);
    PublishKeeps(Run(acts[..n]), acts[n]);
    Snoc(acts[..n], acts[n]);
    assert acts == acts[..n] + [acts[n]];
  }

  lemma PublishKeeps(s: State, a: Action)
    ensures var t := Step(s, a);
      if a.AgentEvent? && a.mapped && s.toPersist == [] then
        var full := s.viewer.subAt.At? && s.viewer.closedAt.Never? && |s.viewer.live| - s.viewer.taken >= 128;
        t.events == s.events + [Published(Copy(|s.events|, a.eventType, s.counter + 1), s.conn, s.now, full)]
      else t.events == s.events
  {
    hide BW.Step, StoreAct, ViewerAct, EndingAct, PersistCopy;
  }

  lemma PublishedByLater(acts: seq<Action>, i: nat, e: Published, k: nat)
    requires k + 1 < |acts|
    ensures PublishedBy(acts, i, e, k) <==> PublishedBy(acts[..|acts| - 1], i, e, k)
    ensures Publishes(acts, k) <==> Publishes(acts[..|acts| - 1], k)
  {
    hide Run, SinceReconnect;
    assert acts[..|acts| - 1][..k] == acts[..k];
  }

  /** The published events are the steps that publish, in order. */
  lemma {:induction false} EventsArePublications(acts: seq<Action>)
    ensures var es := Run(acts).events;
      && (forall i :: 0 <= i < |es| ==> es[i].at < |acts| && PublishedBy(acts, i, es[i], es[i].at))
      && (forall k :: 0 <= k < |acts| && Publishes(acts, k) ==> exists i :: 0 <= i < |es| && es[i].at == k)
  {
    if acts != [] {
      var n := |acts| - 1;
      var pre, s, es := acts[..n], Run(acts[..n]), Run(acts).events;
      EventsArePublications(pre);
      PublishStep(acts);
      hide Run, PublishedBy, Publishes;
      forall i | 0 <= i < |es| ensures es[i].at < |acts| && PublishedBy(acts, i, es[i], es[i].at) {
        if i < |s.events| {
          assert es[i] == s.events[i] by { if |es| > |s.events| { assert es[..|s.events|][i] == es[i]; } }
          PublishedByLater(acts, i, es[i], es[i].at);
        } else {
          PublishedWhen(acts, i, es[i], n);
        }
      }
      forall k | 0 <= k < |acts| && Publishes(acts, k) ensures exists i :: 0 <= i < |es| && es[i].at == k {
        if k < n {
          PublishedByLater(acts, 0, Published(Copy(0, "", 0), 0, 0, false), k);
          var i :| 0 <= i < |s.events| && s.events[i].at == k;
          assert es[i] == s.events[i] by { if |es| > |s.events| { assert es[..|s.events|][i] == es[i]; } }
        } else {
          PublishedWhen(acts, |s.events|, es[|s.events|], n);
        }
      }
    }
  }

  lemma PublishedWhen(acts: seq<Action>, i: nat, e: Published, k: nat)
    requires k < |acts| && PublishedBy(acts, i, e, k)
    ensures e.at == k
  {
  }

  // ---------------------------------------------------------------- the order of the replay

  predicate InPublicationOrder(cs: seq<Copy>) { forall i, j :: 0 <= i < j < |cs| ==> cs[i].index <= cs[j].index }

  /** The replay comes in publication order if sequence numbers grow with publication among the stored
      events, and never does if they fall between two of them. */
  lemma ReplayOrder(acts: seq<Action>)
    ensures var h := Run(acts).viewer.history;
      && ((forall c, d :: c in h && d in h && c.index < d.index ==> c.sequence < d.sequence) ==> InPublicationOrder(h))
      && (forall c, d :: c in h && d in h && c.index < d.index && d.sequence < c.sequence ==> !InPublicationOrder(h))
  {
    hide Run, Written;
    RunInv(acts);
    var h := Run(acts).viewer.history;
    forall c, d | c in h && d in h && c.index < d.index && d.sequence < c.sequence
      ensures !InPublicationOrder(h)
    {
      var i :| 0 <= i < |h| && h[i] == c;
      var j :| 0 <= j < |h| && h[j] == d;
      assert j < i;
    }
  }

  /** By sequence number and, where two are equal, latest first: the answer that is worst for a reader. */
  predicate LatestFirst(c: Copy, d: Copy) { c.sequence < d.sequence || (c.sequence == d.sequence && c.index >= d.index) }

  predicate AllLatestFirst(cs: seq<Copy>) { forall i, j :: 0 <= i < j < |cs| ==> LatestFirst(cs[i], cs[j]) }

  function Place(c: Copy, cs: seq<Copy>): seq<Copy> {
    if cs == [] || LatestFirst(c, cs[0]) then [c] + cs else [cs[0]] + Place(c, cs[1..])
  }

  function WorstAnswer(cs: seq<Copy>): seq<Copy> { if cs == [] then [] else Place(cs[0], WorstAnswer(cs[1..])) }

  lemma {:induction false} PlaceContents(c: Copy, cs: seq<Copy>)
    ensures multiset(Place(c, cs)) == multiset(cs) + multiset{c}
  {
    hide LatestFirst;
    if cs != [] {
      assert cs == [cs[0]] + cs[1..];
      PlaceContents(c, cs[1..]);
    }
  }

  lemma PlaceMembers(c: Copy, cs: seq<Copy>, x: Copy)
    requires x in Place(c, cs)
    ensures x == c || x in cs
  {
    hide Place;
    PlaceContents(c, cs);
    assert x in multiset(Place(c, cs));
  }

  lemma FirstThenRest(c: Copy, cs: seq<Copy>)
    requires AllLatestFirst(cs) && forall x :: x in cs ==> LatestFirst(c, x)
    ensures AllLatestFirst([c] + cs)
  {
    hide LatestFirst;
    forall i, j | 0 <= i < j < |[c] + cs| ensures LatestFirst(([c] + cs)[i], ([c] + cs)[j]) {
      assert ([c] + cs)[j] == cs[j - 1] && cs[j - 1] in cs;
    }
  }

  lemma LatestFirstRest(c: Copy, cs: seq<Copy>, x: Copy)
    requires AllLatestFirst(cs) && cs != [] && LatestFirst(c, cs[0]) && x in cs
    ensures LatestFirst(c, x)
  {
  }

  lemma {:induction false} PlaceSorted(c: Copy, cs: seq<Copy>)
    requires AllLatestFirst(cs)
    ensures AllLatestFirst(Place(c, cs))
  {
    if cs == [] || LatestFirst(c, cs[0]) {
      forall x | x in cs ensures LatestFirst(c, x) {
        LatestFirstRest(c, cs, x);
      }
      hide LatestFirst;
      FirstThenRest(c, cs);
    } else {
      PlaceSorted(c, cs[1..]);
      var rest := Place(c, cs[1..]);
      assert LatestFirst(cs[0], c);
      forall x | x in rest ensures LatestFirst(cs[0], x) {
        PlaceMembers(c, cs[1..], x);
      }
      hide LatestFirst;
      FirstThenRest(cs[0], rest);
    }
  }

  lemma {:induction false} WorstAnswerSorted(cs: seq<Copy>)
    ensures AllLatestFirst(WorstAnswer(cs)) && multiset(WorstAnswer(cs)) == multiset(cs)
  {
    hide AllLatestFirst, Place;
    if cs == [] {
      NoneOutOfOrder();
    } else {
      assert cs == [cs[0]] + cs[1..];
      WorstAnswerSorted(cs[1..]);
      PlaceSorted(cs[0], WorstAnswer(cs[1..]));
      PlaceContents(cs[0], WorstAnswer(cs[1..]));
    }
  }

  lemma NoneOutOfOrder()
    ensures AllLatestFirst([])
  {
  }

  /** An answer of the history query over the stored rows `w`. */
  predicate Answers(rows: seq<Copy>, w: seq<Copy>) { multiset(rows) == multiset(w) && BySequence(rows) }

  /** Sequence numbers grow with publication among the rows. */
  predicate GrowsWithPublication(w: seq<Copy>) {
    forall c, d :: c in w && d in w && c.index < d.index ==> c.sequence < d.sequence
  }

  lemma GrowthOrders(rows: seq<Copy>, w: seq<Copy>)
    requires GrowsWithPublication(w) && Answers(rows, w)
    ensures InPublicationOrder(rows)
  {
    forall i, j | 0 <= i < j < |rows| ensures rows[i].index <= rows[j].index {
      assert rows[i] in multiset(rows) && rows[j] in multiset(rows);
      assert rows[i] in w && rows[j] in w;
    }
  }

  lemma WorstAnswerIsWrong(w: seq<Copy>, c: Copy, d: Copy)
    requires c in w && d in w && c.index < d.index && d.sequence <= c.sequence
    ensures Answers(WorstAnswer(w), w) && !InPublicationOrder(WorstAnswer(w))
  {
    var rows := WorstAnswer(w);
    WorstAnswerSorted(w);
    hide WorstAnswer;
    assert c in multiset(rows) && d in multiset(rows);
    var i :| 0 <= i < |rows| && rows[i] == c;
    var j :| 0 <= j < |rows| && rows[j] == d;
    assert j < i;
  }

  /** Every answer the query may give is in publication order exactly when sequence numbers grow with
      publication among the rows: equal ones, as two connections have them, are enough to spoil it. */
  lemma AnswersOrderedIff(w: seq<Copy>)
    ensures (forall rows :: Answers(rows, w) ==> InPublicationOrder(rows)) <==> GrowsWithPublication(w)
  {
    if GrowsWithPublication(w) {
      forall rows | Answers(rows, w) ensures InPublicationOrder(rows) {
        GrowthOrders(rows, w);
      }
    } else {
      var c, d :| c in w && d in w && c.index < d.index && d.sequence <= c.sequence;
      WorstAnswerIsWrong(w, c, d);
    }
  }

  /** The history a viewer has after the query answered `rows`. */
  function AfterAnswer(acts: seq<Action>, rows: seq<Copy>): Viewer { Run(acts + [ReadHistory(true, rows)]).viewer }

  lemma AnswerTaken(acts: seq<Action>, rows: seq<Copy>)
    requires Run(acts).viewer.subAt.At? && !Run(acts).viewer.replayed
    ensures var v := AfterAnswer(acts, rows);
      (v.readAt.At? <==> Answers(rows, Written(Run(acts).store.inserts, Stored()))) && (v.readAt.At? ==> v.history == rows)
  {
    hide Run, Written, StoreAct, Ordered, LiveTrue, TimesPast, EndingTrue;
    RunInv(acts);
    Snoc(acts, ReadHistory(true, rows));
  }

  /** The replay, over every answer the query may give at that point, comes in publication order exactly when
      sequence numbers grow with publication among the rows stored by then. */
  lemma ReplayOrderIff(acts: seq<Action>)
    requires Run(acts).viewer.subAt.At? && !Run(acts).viewer.replayed
    ensures (forall rows :: AfterAnswer(acts, rows).readAt.At? ==> InPublicationOrder(AfterAnswer(acts, rows).history))
        <==> GrowsWithPublication(Written(Run(acts).store.inserts, Stored()))
  {
    var w := Written(Run(acts).store.inserts, Stored());
    hide Run, Written, Answers, InPublicationOrder, GrowsWithPublication, AfterAnswer;
    AnswersOrderedIff(w);
    forall rows ensures (AfterAnswer(acts, rows).readAt.At? <==> Answers(rows, w))
      && (AfterAnswer(acts, rows).readAt.At? ==> AfterAnswer(acts, rows).history == rows)
    {
      AnswerTaken(acts, rows);
    }
    if GrowsWithPublication(w) {
    } else {
      var rows :| Answers(rows, w) && !InPublicationOrder(rows);
      assert AfterAnswer(acts, rows).readAt.At?;
    }
  }

  // ---------------------------------------------------------------- sequence numbers

  ghost predicate Numbered(s: State) {
    && (forall i, j :: 0 <= i < j < |s.events| && s.events[i].conn == s.events[j].conn ==>
          s.events[i].copy.sequence < s.events[j].copy.sequence)
    && (forall i :: 0 <= i < |s.events| ==> s.events[i].conn <= s.conn && s.events[i].copy.sequence >= 1)
    && (forall i :: 0 <= i < |s.events| && s.events[i].conn == s.conn ==> s.events[i].copy.sequence <= s.counter)
  }

  lemma NumberedKept(s: State, a: Action)
    requires !(a.AgentEvent? && s.toPersist == [] && a.mapped)
    ensures var t := Step(s, a);
      t.events == s.events && ((t.conn == s.conn && t.counter >= s.counter) || t.conn == s.conn + 1)
  {
    hide BW.Step, StoreAct, ViewerAct, EndingAct, PersistCopy;
  }

  lemma NumberedAct(s: State, a: Action)
    requires Numbered(s)
    ensures Numbered(Step(s, a))
  {
    var t := Step(s, a);
    if a.AgentEvent? && s.toPersist == [] && a.mapped {
      assert forall i :: 0 <= i < |s.events| ==> t.events[i] == s.events[i];
    } else {
      NumberedKept(s, a);
      hide Step;
    }
  }

  /** Within one connection sequence numbers identify events and follow publication order. */
  lemma {:induction false} SequenceIncreasesPerConnection(acts: seq<Action>)
    ensures Numbered(Run(acts))
  {
    if acts != [] {
      hide Step, Numbered;
      SequenceIncreasesPerConnection(acts[..|acts| - 1]);
      NumberedAct(Run(acts[..|acts| - 1]), acts[|acts| - 1]);
    }
  }

  /** So the replay of events of one connection is in publication order. */
  lemma OneConnectionReplaysInOrder(acts: seq<Action>)
    requires var s := Run(acts);
      forall i, j :: 0 <= i < |s.events| && 0 <= j < |s.events| ==> s.events[i].conn == s.events[j].conn
    ensures InPublicationOrder(Run(acts).viewer.history)
  {
    hide Run;
    var s := Run(acts);
    var h := s.viewer.history;
    SequenceIncreasesPerConnection(acts);
    ReplayOrder(acts);
    forall c, d | c in h && d in h && c.index < d.index ensures c.sequence < d.sequence {
      HistoryGenuine(acts, c);
      HistoryGenuine(acts, d);
    }
  }

  /** After a reconnect the numbers start again, so they do not identify events across connections. */
  lemma ReconnectRestartsSequence(acts: seq<Action>, ty: string)
    requires Run(acts).toPersist == []
    ensures var s, t := Run(acts), Run(acts + [Reconnect] + [AgentEvent(ty, true)]);
      |t.events| == |s.events| + 1 && t.events[|s.events|].copy.sequence == 1
  {
    Snoc(acts, Reconnect);
    Snoc(acts + [Reconnect], AgentEvent(ty, true));
    RestartSteps(Run(acts), ty);
    hide Run, Step;
  }

  lemma RestartSteps(s: State, ty: string)
    requires s.toPersist == []
    ensures var t := Step(Step(s, Reconnect), AgentEvent(ty, true));
      |t.events| == |s.events| + 1 && t.events[|s.events|].copy.sequence == 1
  {
  }

  /** Persisting leaves the receive loop empty; a reconnect then starts the counter again. */
  lemma ReconnectSteps(s: State)
    requires |s.toPersist| <= 1
    ensures var t := Step(Step(s, Persist(0)), Reconnect);
      && t.toPersist == [] && t.counter == 0 && t.events == s.events && t.viewer == s.viewer
      && t.store.inserts == s.store.inserts
  {
    hide BW.Step;
  }

  /** One more event, stored by its own goroutine. */
  lemma StoreOneSteps(s: State, ty: string)
    requires s.toPersist == [] && !Batchable(ty)
    ensures var k := |s.store.spawned|;
      var c := Copy(|s.events|, ty, s.counter + 1);
      var t := Step(Step(Step(s, AgentEvent(ty, true)), Persist(0)), InsertOne(k, true));
      && |t.store.inserts| == |s.store.inserts| + 1 && t.store.inserts[..|s.store.inserts|] == s.store.inserts
      && t.store.inserts[|s.store.inserts|].ok && t.store.inserts[|s.store.inserts|].copies == [c]
      && t.viewer.replayed == s.viewer.replayed
  {
    hide BW.Step, Drop;
  }

  lemma WatchSteps(s: State)
    ensures var t := Step(Step(s, ReadStatus), Subscribe);
      t.viewer.subAt.At? && t.viewer.replayed == s.viewer.replayed && t.store == s.store
  {
  }

  /** The run up to the read: a reconnect, one more stored event, and a viewer. */
  lemma ReconnectRun(acts: seq<Action>, ty: string) returns (more: seq<Action>)
    requires !Batchable(ty)
    ensures var s, t := Run(acts), Run(acts + more);
      && |t.store.inserts| == |s.store.inserts| + 1 && t.store.inserts[..|s.store.inserts|] == s.store.inserts
      && t.store.inserts[|s.store.inserts|].ok && t.store.inserts[|s.store.inserts|].copies == [Copy(|s.events|, ty, 1)]
      && t.viewer.replayed == s.viewer.replayed && t.viewer.subAt.At?
  {
    hide Run, Step, Batchable, WriterActs, WriterAct;
    RunCounted(acts);
    var a := acts + [Persist(0)];
    var b := a + [Reconnect];
    Snoc(acts, Persist(0));
    Snoc(a, Reconnect);
    ReconnectSteps(Run(acts));
    var k := |Run(b).store.spawned|;
    var c := b + [AgentEvent(ty, true)];
    var d := c + [Persist(0)];
    var e := d + [InsertOne(k, true)];
    Snoc(b, AgentEvent(ty, true));
    Snoc(c, Persist(0));
    Snoc(d, InsertOne(k, true));
    StoreOneSteps(Run(b), ty);
    Snoc(e, ReadStatus);
    Snoc(e + [ReadStatus], Subscribe);
    WatchSteps(Run(e));
    more := [Persist(0), Reconnect, AgentEvent(ty, true), Persist(0), InsertOne(k, true), ReadStatus, Subscribe];
    assert acts + more == e + [ReadStatus] + [Subscribe];
  }

  lemma WrittenMore(ins: seq<Insert>, more: seq<Insert>)
    requires |more| == |ins| + 1 && more[..|ins|] == ins && more[|ins|].ok
    ensures Written(more, Stored()) == Written(ins, Stored()) + more[|ins|].copies
  {
  }

  /** What is stored was published before and has a number of its own connection. */
  lemma StoredIsNumbered(acts: seq<Action>, c: Copy)
    requires c in Written(Run(acts).store.inserts, Stored())
    ensures c.index < |Run(acts).events| && c.sequence >= 1
  {
    hide Run, Written;
    var j := WrittenFrom(Run(acts).store.inserts, Stored(), c);
    GenuineInsert(acts, j);
    SequenceIncreasesPerConnection(acts);
    assert True(Run(acts).events, c);
  }

  /** The order does fail: from any run with a stored event and a viewer that has not read yet, a reconnect
      and one more stored event let the read answer out of publication order. */
  lemma ReconnectReplaysOutOfOrder(acts: seq<Action>, ty: string) returns (more: seq<Action>)
    requires Written(Run(acts).store.inserts, Stored()) != [] && !Run(acts).viewer.replayed && !Batchable(ty)
    ensures var v := Run(acts + more).viewer; v.readAt.At? && !InPublicationOrder(v.history)
  {
    hide *;
    var s := Run(acts);
    var w, c := Written(s.store.inserts, Stored()), Copy(|s.events|, ty, 1);
    var mid := ReconnectRun(acts, ty);
    WrittenMore(s.store.inserts, Run(acts + mid).store.inserts);
    StoredIsNumbered(acts, w[0]);
    var rows := WorstAnswer(w + [c]);
    assert w[0] in w + [c] && (w + [c])[|w|] == c;
    WorstAnswerIsWrong(w + [c], w[0], c);
    AnswerTaken(acts + mid, rows);
    AfterAnswerIs(acts + mid, rows);
    more := mid + [ReadHistory(true, rows)];
    assert acts + more == (acts + mid) + [ReadHistory(true, rows)];
  }

  lemma AfterAnswerIs(acts: seq<Action>, rows: seq<Copy>)
    ensures AfterAnswer(acts, rows) == Run(acts + [ReadHistory(true, rows)]).viewer
  {
    hide Run;
  }
}
