/** Live fan-out of agent run events.  A subscriber is a bounded channel plus a `closed` flag;
    the hub keeps the open ones per run.  Every public method holds the mutex throughout, so each
    is one step; receiving from a channel is a step of the viewer.
 */
module RunEventHub {

  type RunId = nat
  type SubId = nat

  datatype StreamEvent = StreamEvent(eventType: string, sequence: nat)

  const SLOTS := 128

  /** `ch` are the buffered events, `received` those the viewer already took.  `chOpen` is the state
      of the Go channel itself: sending on or closing a closed channel panics. */
  datatype Subscriber = Subscriber(run: RunId, ch: seq<StreamEvent>, chOpen: bool, closed: bool,
                                   received: seq<StreamEvent>)

  datatype State = State(clients: map<RunId, set<SubId>>, subs: map<SubId, Subscriber>, panicked: bool)

  const Init := State(map[], map[], false)

  datatype Action =
    | Subscribe(run: RunId, id: SubId)
    | Unsubscribe(run: RunId, id: SubId)
    | Publish(run: RunId, event: StreamEvent)
    | Close(run: RunId)
    | Receive(id: SubId)

  function Members(s: State, run: RunId): set<SubId> {
    if run in s.clients then s.clients[run] else {}
  }

  /** The send in Publish: skipped when flagged closed, dropped when full. */
  function Offer(sub: Subscriber, e: StreamEvent): Subscriber {
    if sub.closed || |sub.ch| >= SLOTS then sub else sub.(ch := sub.ch + [e])
  }

  function Shut(sub: Subscriber): Subscriber { sub.(closed := true, chOpen := false) }

  function OfferAll(subs: map<SubId, Subscriber>, ids: set<SubId>, e: StreamEvent): map<SubId, Subscriber> {
    map id | id in subs :: if id in ids then Offer(subs[id], e) else subs[id]
  }

  function ShutAll(subs: map<SubId, Subscriber>, ids: set<SubId>): map<SubId, Subscriber> {
    map id | id in subs :: if id in ids then Shut(subs[id]) else subs[id]
  }

  function Without(clients: map<RunId, set<SubId>>, run: RunId, id: SubId): map<RunId, set<SubId>>
    requires run in clients
  {
    if clients[run] - {id} == {} then clients - {run} else clients[run := clients[run] - {id}]
  }

  function Step(s: State, a: Action): State {
    match a
    case Subscribe(run, id) =>
      if id in s.subs then s
      else s.(clients := s.clients[run := Members(s, run) + {id}],
              subs := s.subs[id := Subscriber(run, [], true, false, [])])
    case Unsubscribe(run, id) =>
      if run !in s.clients then s
      else if id in s.clients[run] && id in s.subs then
        State(Without(s.clients, run, id), s.subs[id := Shut(s.subs[id])],
              s.panicked || !s.subs[id].chOpen)
      else s.(clients := Without(s.clients, run, id))
    case Publish(run, e) =>
      s.(subs := OfferAll(s.subs, Members(s, run), e),
         panicked := s.panicked || exists id :: id in Members(s, run) && id in s.subs
                                                && !s.subs[id].closed && !s.subs[id].chOpen)
    case Close(run) =>
      State(s.clients - {run}, ShutAll(s.subs, Members(s, run)),
            s.panicked || exists id :: id in Members(s, run) && id in s.subs && !s.subs[id].chOpen)
    case Receive(id) =>
      if id in s.subs && s.subs[id].ch != [] then
        var sub := s.subs[id];
        s.(subs := s.subs[id := sub.(ch := sub.ch[1..], received := sub.received + [sub.ch[0]])])
      else s
  }

  function Run(acts: seq<Action>): State {
    if acts == [] then Init else Step(Run(acts[..|acts| - 1]), acts[|acts| - 1])
  }

  /** The map holds exactly the open subscribers, each under its own run, and no empty set. */
  ghost predicate Inv(s: State) {
    && !s.panicked
    && (forall run :: run in s.clients ==> s.clients[run] != {})
    && (forall run, id :: run in s.clients && id in s.clients[run] ==> id in s.subs && s.subs[id].run == run)
    && (forall id :: id in s.subs ==> s.subs[id].chOpen == (id in Members(s, s.subs[id].run)))
    && (forall id :: id in s.subs ==> s.subs[id].closed == !s.subs[id].chOpen && |s.subs[id].ch| <= SLOTS)
  }

  lemma InvSubscribe(s: State, run: RunId, id: SubId)
    requires Inv(s)
    ensures Inv(Step(s, Subscribe(run, id)))
  {
  }

  lemma InvUnsubscribe(s: State, run: RunId, id: SubId)
    requires Inv(s)
    ensures Inv(Step(s, Unsubscribe(run, id)))
  {
    if run in s.clients {
      var t := Step(s, Unsubscribe(run, id));
      assert forall r :: r != run ==> Members(t, r) == Members(s, r);
      assert Members(t, run) == Members(s, run) - {id};
    }
  }

  lemma InvPublish(s: State, run: RunId, e: StreamEvent)
    requires Inv(s)
    ensures Inv(Step(s, Publish(run, e)))
  {
    var t := Step(s, Publish(run, e));
    assert t.clients == s.clients;
    forall id | id in t.subs
      ensures t.subs[id].run == s.subs[id].run && t.subs[id].chOpen == s.subs[id].chOpen
      ensures t.subs[id].closed == s.subs[id].closed && |t.subs[id].ch| <= SLOTS
    {
    }
  }

  lemma InvClose(s: State, run: RunId)
    requires Inv(s)
    ensures Inv(Step(s, Close(run)))
  {
    var t := Step(s, Close(run));
    forall id | id in t.subs
      ensures t.subs[id].run == s.subs[id].run && t.subs[id].ch == s.subs[id].ch
      ensures t.subs[id].chOpen == (s.subs[id].chOpen && s.subs[id].run != run)
      ensures t.subs[id].closed == !t.subs[id].chOpen
    {
    }
  }

  lemma InvStep(s: State, a: Action)
    requires Inv(s)
    ensures Inv(Step(s, a))
  {
    match a
    case Subscribe(run, id) => InvSubscribe(s, run, id);
    case Unsubscribe(run, id) => InvUnsubscribe(s, run, id);
    case Publish(run, e) => InvPublish(s, run, e);
    case Close(run) => InvClose(s, run);
    case Receive(id) =>
  }

  /** No interleaving of subscribe, unsubscribe, publish, close and receive sends on or closes a
      closed channel, and the map never holds a closed subscriber. */
  lemma {:induction false} HubNeverPanics(acts: seq<Action>)
    ensures Inv(Run(acts)) && !Run(acts).panicked
  {
    if acts != [] {
      HubNeverPanics(acts[..|acts| - 1]);
      InvStep(Run(acts[..|acts| - 1]), acts[|acts| - 1]);
    }
  }

  // ---------------------------------------------------------------- one subscriber's view

  /** A subscriber as a bounded queue on its own: what entered it, how much was taken, whether it is
      still subscribed. */
  datatype Lane = Absent | Lane(run: RunId, stream: seq<StreamEvent>, taken: nat, open: bool)

  function LaneStep(l: Lane, a: Action, id: SubId): Lane {
    match a
    case Subscribe(run, id') => if l.Absent? && id == id' then Lane(run, [], 0, true) else l
    case Unsubscribe(run, id') => if l.Lane? && l.run == run && id == id' then l.(open := false) else l
    case Publish(run, e) =>
      if l.Lane? && l.open && l.run == run && |l.stream| - l.taken < SLOTS
      then l.(stream := l.stream + [e]) else l
    case Close(run) => if l.Lane? && l.run == run then l.(open := false) else l
    case Receive(id') =>
      if l.Lane? && id == id' && l.taken < |l.stream| then l.(taken := l.taken + 1) else l
  }

  function LaneRun(acts: seq<Action>, id: SubId): Lane {
    if acts == [] then Absent else LaneStep(LaneRun(acts[..|acts| - 1], id), acts[|acts| - 1], id)
  }

  function Project(s: State, id: SubId): Lane {
    if id !in s.subs then Absent
    else var u := s.subs[id]; Lane(u.run, u.received + u.ch, |u.received|, u.chOpen)
  }

  lemma ProjectStep(s: State, a: Action, id: SubId)
    requires Inv(s)
    ensures Project(Step(s, a), id) == LaneStep(Project(s, id), a, id)
  {
    if id in s.subs {
      var u := s.subs[id];
      if a.Receive? && a.id == id && u.ch != [] {
        assert u.received + u.ch == u.received + [u.ch[0]] + u.ch[1..];
      }
    }
  }

  /** The hub refines one bounded queue per subscriber: no subscriber is affected by the others, by
      events of other runs, or by an unsubscribe that names the wrong run. */
  lemma {:induction false} HubRefinesLanes(acts: seq<Action>, id: SubId)
    ensures Project(Run(acts), id) == LaneRun(acts, id)
  {
    if acts != [] {
      HubRefinesLanes(acts[..|acts| - 1], id);
      HubNeverPanics(acts[..|acts| - 1]);
      ProjectStep(Run(acts[..|acts| - 1]), acts[|acts| - 1], id);
    }
  }

  // ---------------------------------------------------------------- fidelity

  /** Whether `id` is subscribed to `run` after `acts`, told from the calls alone. */
  predicate Subscribed(acts: seq<Action>, run: RunId, id: SubId) {
    if acts == [] then false
    else
      var pre, a := acts[..|acts| - 1], acts[|acts| - 1];
      match a
      case Subscribe(r, i) => Subscribed(pre, run, id) || (i == id && r == run && !Known(pre, id))
      case Unsubscribe(r, i) => Subscribed(pre, run, id) && !(i == id && r == run)
      case Close(r) => Subscribed(pre, run, id) && r != run
      case _ => Subscribed(pre, run, id)
  }

  predicate Known(acts: seq<Action>, id: SubId) {
    exists k :: 0 <= k < |acts| && acts[k].Subscribe? && acts[k].id == id
  }

  datatype Heard = Heard(event: StreamEvent, kept: bool)

  /** Every event published for `run` while `id` was subscribed, in order, marked with whether a
      slot was free. */
  function Hearing(acts: seq<Action>, run: RunId, id: SubId): seq<Heard> {
    if acts == [] then []
    else
      var pre, a := acts[..|acts| - 1], acts[|acts| - 1];
      if a.Publish? && a.run == run && Subscribed(pre, run, id)
      then Hearing(pre, run, id) + [Heard(a.event, Backlog(LaneRun(pre, id)) < SLOTS)]
      else Hearing(pre, run, id)
  }

  function Backlog(l: Lane): int { if l.Lane? then |l.stream| - l.taken else 0 }

  function Kept(hs: seq<Heard>): seq<StreamEvent> {
    if hs == [] then []
    else Kept(hs[..|hs| - 1]) + (if hs[|hs| - 1].kept then [hs[|hs| - 1].event] else [])
  }

  lemma KeptAppend(hs: seq<Heard>, h: Heard)
    ensures Kept(hs + [h]) == Kept(hs) + (if h.kept then [h.event] else [])
  {
    assert (hs + [h])[..|hs + [h]| - 1] == hs;
  }

  lemma KnownSnoc(pre: seq<Action>, a: Action, id: SubId)
    ensures Known(pre + [a], id) <==> Known(pre, id) || (a.Subscribe? && a.id == id)
  {
    if Known(pre, id) {
      var k :| 0 <= k < |pre| && pre[k].Subscribe? && pre[k].id == id;
      assert (pre + [a])[k] == pre[k];
    }
    if a.Subscribe? && a.id == id {
      assert (pre + [a])[|pre|] == a;
    }
  }

  lemma {:induction false} LaneFollowsCalls(acts: seq<Action>, run: RunId, id: SubId)
    ensures LaneRun(acts, id).Lane? <==> Known(acts, id)
    ensures Subscribed(acts, run, id) <==> LaneRun(acts, id).Lane? && LaneRun(acts, id).open && LaneRun(acts, id).run == run
  {
    if acts != [] {
      var pre, a := acts[..|acts| - 1], acts[|acts| - 1];
      LaneFollowsCalls(pre, run, id);
      KnownSnoc(pre, a, id);
      assert acts == pre + [a];
    }
  }

  /** What a subscriber received and still has buffered is exactly the events published for its run
      while it was subscribed, in order, minus those published when its slots were full. */
  lemma {:induction false} StreamIsWhatWasHeard(acts: seq<Action>, id: SubId)
    requires id in Run(acts).subs
    ensures var sub := Run(acts).subs[id];
      sub.received + sub.ch == Kept(Hearing(acts, sub.run, id))
  {
    HubRefinesLanes(acts, id);
    LaneIsKept(acts, LaneRun(acts, id).run, id);
  }

  lemma {:induction false} LaneIsKept(acts: seq<Action>, run: RunId, id: SubId)
    ensures LaneRun(acts, id).Lane? && LaneRun(acts, id).run == run ==>
      LaneRun(acts, id).stream == Kept(Hearing(acts, run, id))
    ensures LaneRun(acts, id).Absent? ==> Hearing(acts, run, id) == []
  {
    if acts != [] {
      var pre, a := acts[..|acts| - 1], acts[|acts| - 1];
      LaneIsKept(pre, run, id);
      LaneFollowsCalls(pre, run, id);
      if a.Publish? && a.run == run && Subscribed(pre, run, id) {
        KeptAppend(Hearing(pre, run, id), Heard(a.event, Backlog(LaneRun(pre, id)) < SLOTS));
      }
    }
  }

  /** What a publish does for one subscriber, from any point of any run: the event is put behind those that wait
      exactly if the subscriber is subscribed to the run, told by the calls, and fewer than 128 wait. */
  lemma PublishReachesIff(acts: seq<Action>, run: RunId, e: StreamEvent, id: SubId)
    requires id in Run(acts).subs
    ensures var s, t := Run(acts), Run(acts + [Publish(run, e)]);
      && id in t.subs && t.subs[id].received == s.subs[id].received && |s.subs[id].ch| <= 128
      && t.subs[id].ch == if Subscribed(acts, run, id) && |s.subs[id].ch| < 128 then s.subs[id].ch + [e] else s.subs[id].ch
  {
    hide LaneRun, Subscribed, Run;
    HubNeverPanics(acts);
    HubRefinesLanes(acts, id);
    LaneFollowsCalls(acts, run, id);
    Snoc(acts, Publish(run, e));
  }

  function Receiving(id: SubId, n: nat): seq<Action> { if n == 0 then [] else Receiving(id, n - 1) + [Receive(id)] }

  /** n of the events that wait for one subscriber have been received, and nothing else has changed. */
  ghost predicate ReceivedSome(s: State, t: State, id: SubId, n: nat) {
    && t.clients == s.clients && t.subs.Keys == s.subs.Keys && id in s.subs && n <= |s.subs[id].ch|
    && t.subs[id].received == s.subs[id].received + s.subs[id].ch[..n] && t.subs[id].ch == s.subs[id].ch[n..]
    && (forall i :: i in s.subs && i != id ==> t.subs[i] == s.subs[i])
  }

  lemma ReceiveOne(s: State, t: State, id: SubId, n: nat)
    requires ReceivedSome(s, t, id, n) && n < |s.subs[id].ch|
    ensures ReceivedSome(s, Step(t, Receive(id)), id, n + 1)
  {
    var c := s.subs[id].ch;
    assert c[..n + 1] == c[..n] + [c[n]] && c[n..][1..] == c[n + 1..];
  }

  lemma NoneReceived(s: State, id: SubId)
    requires id in s.subs
    ensures ReceivedSome(s, s, id, 0)
  {
  }

  lemma Snoc(acts: seq<Action>, a: Action)
    ensures Run(acts + [a]) == Step(Run(acts), a)
  {
    assert (acts + [a])[..|acts|] == acts;
  }

  /** A viewer that receives gets what waits for it, oldest first, also after its channel was closed. */
  lemma {:induction false} ReceivingDrains(acts: seq<Action>, id: SubId, n: nat)
    requires id in Run(acts).subs && n <= |Run(acts).subs[id].ch|
    ensures ReceivedSome(Run(acts), Run(acts + Receiving(id, n)), id, n)
  {
    hide Step, ReceivedSome, Run;
    if n == 0 {
      assert acts + Receiving(id, 0) == acts;
      NoneReceived(Run(acts), id);
    } else {
      ReceivingDrains(acts, id, n - 1);
      var pre := acts + Receiving(id, n - 1);
      assert acts + Receiving(id, n) == pre + [Receive(id)];
      Snoc(pre, Receive(id));
      ReceiveOne(Run(acts), Run(pre), id, n - 1);
    }
  }

  /** In every run an unsubscribe changes something exactly when its subscriber is still in the map. */
  lemma UnsubscribeHarmlessIff(acts: seq<Action>, run: RunId, id: SubId)
    ensures Step(Run(acts), Unsubscribe(run, id)) == Run(acts) <==> id !in Members(Run(acts), run)
  {
    HubNeverPanics(acts);
    var s := Run(acts);
    var t := Step(s, Unsubscribe(run, id));
    if id in Members(s, run) {
      assert s.subs[id].chOpen && !t.subs[id].chOpen;
    } else if run in s.clients {
      assert s.clients[run] - {id} == s.clients[run];
      assert s.clients[run := s.clients[run]] == s.clients;
    }
  }

  lemma ClosedStep(s: State, a: Action, id: SubId)
    requires id in s.subs && s.subs[id].closed
    ensures var t := Step(s, a); id in t.subs && t.subs[id].closed && t.subs[id].run == s.subs[id].run
  {
  }

  /** A closed subscriber stays closed and never becomes a member of any run again. */
  lemma {:induction false} ClosedStaysOut(acts: seq<Action>, more: seq<Action>, id: SubId)
    requires id in Run(acts).subs && Run(acts).subs[id].closed
    ensures var t := Run(acts + more); id in t.subs && t.subs[id].closed && forall run :: id !in Members(t, run)
  {
    if more == [] {
      assert acts + more == acts;
    } else {
      ClosedStaysOut(acts, more[..|more| - 1], id);
      assert (acts + more)[..|acts + more| - 1] == acts + more[..|more| - 1];
      ClosedStep(Run(acts + more[..|more| - 1]), more[|more| - 1], id);
    }
    HubNeverPanics(acts + more);
  }

  /** A viewer's deferred unsubscribe is harmless however long after the hub closed its run it comes, and
      whoever subscribed to the run in between. */
  lemma UnsubscribeAfterCloseIsHarmless(acts: seq<Action>, run: RunId, id: SubId, more: seq<Action>)
    requires id in Run(acts).subs && Run(acts).subs[id].run == run
    ensures var t := Run(acts + [Close(run)] + more); Step(t, Unsubscribe(run, id)) == t
  {
    var closed := acts + [Close(run)];
    HubNeverPanics(acts);
    CloseShuts(Run(acts), run, id);
    assert closed[..|closed| - 1] == acts;
    hide Step;
    ClosedStaysOut(closed, more, id);
    UnsubscribeHarmlessIff(closed + more, run, id);
  }

  lemma CloseShuts(s: State, run: RunId, id: SubId)
    requires Inv(s) && id in s.subs && s.subs[id].run == run
    ensures var t := Step(s, Close(run)); id in t.subs && t.subs[id].closed
  {
  }

  // ---------------------------------------------------------------- the hub object

  class Hub {
    var clients: map<RunId, set<SubId>>
    var subs: map<SubId, Subscriber>

    ghost function View(): State reads this { State(clients, subs, false) }

    constructor ()
      ensures View() == Init
    {
      clients, subs := map[], map[];
    }

    method SubscribeTo(run: RunId, id: SubId)
      requires Inv(View()) && id !in subs
      modifies this
      ensures View() == Step(old(View()), Subscribe(run, id)) && Inv(View())
    {
      InvStep(View(), Subscribe(run, id));
      if run !in clients {
        clients := clients[run := {}];
      }
      clients := clients[run := clients[run] + {id}];
      subs := subs[id := Subscriber(run, [], true, false, [])];
    }

    method UnsubscribeFrom(run: RunId, id: SubId)
      requires Inv(View())
      modifies this
      ensures View() == Step(old(View()), Unsubscribe(run, id)) && Inv(View())
    {
      InvStep(View(), Unsubscribe(run, id));
      if run in clients {
        if id in clients[run] {
          assert subs[id].chOpen;  // closing it does not panic
          subs := subs[id := Shut(subs[id])];
          clients := clients[run := clients[run] - {id}];
        }
        assert clients[run] == old(clients)[run] - {id};
        assert clients == old(clients)[run := old(clients)[run] - {id}];
        if clients[run] == {} {
          clients := clients - {run};
          assert clients == old(clients) - {run};
        }
      }
    }

    /** Fan-out to `members` in whatever order the set is visited. */
    method SendToAll(members: set<SubId>, e: StreamEvent)
      requires members <= subs.Keys && forall id :: id in members ==> subs[id].chOpen
      modifies this`subs
      ensures subs == OfferAll(old(subs), members, e)
    {
      var todo := members;
      while todo != {}
        invariant todo <= members && subs.Keys == old(subs).Keys
        invariant forall id :: id in subs ==>
          subs[id] == if id in members && id !in todo then Offer(old(subs)[id], e) else old(subs)[id]
        decreases |todo|
      {
        var id :| id in todo;
        todo := todo - {id};
        var sub := subs[id];
        assert sub.chOpen;  // sending on it does not panic
        if !sub.closed && |sub.ch| < SLOTS {
          subs := subs[id := sub.(ch := sub.ch + [e])];
        }
      }
    }

    method ShutEach(members: set<SubId>)
      requires members <= subs.Keys && forall id :: id in members ==> subs[id].chOpen
      modifies this`subs
      ensures subs == ShutAll(old(subs), members)
    {
      var todo := members;
      while todo != {}
        invariant todo <= members && subs.Keys == old(subs).Keys
        invariant forall id :: id in subs ==>
          subs[id] == if id in members && id !in todo then Shut(old(subs)[id]) else old(subs)[id]
        decreases |todo|
      {
        var id :| id in todo;
        todo := todo - {id};
        assert subs[id].chOpen;  // closing it does not panic
        subs := subs[id := Shut(subs[id])];
      }
    }

    /** The mutex is held during the whole fan-out. */
    method PublishTo(run: RunId, e: StreamEvent)
      requires Inv(View())
      modifies this`subs
      ensures View() == Step(old(View()), Publish(run, e)) && Inv(View())
    {
      InvStep(View(), Publish(run, e));
      SendToAll(if run in clients then clients[run] else {}, e);
    }

    method CloseRun(run: RunId)
      requires Inv(View())
      modifies this
      ensures View() == Step(old(View()), Close(run)) && Inv(View())
    {
      InvStep(View(), Close(run));
      ShutEach(if run in clients then clients[run] else {});
      clients := clients - {run};
    }
  }
}
