/** The satellite's outbound path: three bounded queues drained by the one goroutine
    that may call Send on the stream.  Each channel operation is one step, so a run
    is any interleaving of producers, the writer, the stream and reconnects.
 */
module StreamWriter {

  datatype Message = Message(serial: nat)

  datatype Lane = Control | AgentEvents | Bulk

  function Capacity(l: Lane): nat {
    match l
    case Control => 64
    case AgentEvents => 512
    case Bulk => 256
  }

  /** A message that left its queue, and whether Send succeeded on connection `conn`. */
  datatype Departure = Departure(msg: Message, conn: nat, delivered: bool)

  /** `State.wire` below is everything Send delivered, in order, over all connections. */

  /** A queue together with everything that ever entered and left it. */
  datatype Channel = Channel(accepted: seq<Message>, departed: seq<Departure>, pending: seq<Message>)

  /** Where the writer is in its loop: before the non-blocking check, in the blocking
      select, inside Send, or gone. */
  datatype Phase = Polling | Selecting | Sending(lane: Lane, msg: Message) | Returned

  datatype State = State(control: Channel, agentEvents: Channel, bulk: Channel,
                         wire: seq<Message>, phase: Phase, conn: nat, connDone: bool, daemonDone: bool) {
    function Chan(l: Lane): Channel {
      match l
      case Control => control
      case AgentEvents => agentEvents
      case Bulk => bulk
    }

    function With(l: Lane, c: Channel): State {
      match l
      case Control => this.(control := c)
      case AgentEvents => this.(agentEvents := c)
      case Bulk => this.(bulk := c)
    }

    /** The message the writer holds for lane `l`, if any. */
    function InHand(l: Lane): seq<Message> {
      if phase.Sending? && phase.lane == l then [phase.msg] else []
    }
  }

  const Empty := Channel([], [], [])
  const Init := State(Empty, Empty, Empty, [], Polling, 0, false, false)

  /** `Enqueue.pickDone` resolves the select when the context is done and there is room:
      Go may take either ready case. */
  datatype Event =
    | Enqueue(lane: Lane, msg: Message, pickDone: bool)
    | Poll
    | SelectDone
    | SelectLane(lane: Lane)
    | SendOk
    | SendFail
    | DropConnection
    | StopDaemon
    | Reconnect

  predicate Accepts(s: State, l: Lane, pickDone: bool) {
    !(pickDone && s.daemonDone) && |s.Chan(l).pending| < Capacity(l)
  }

  function Take(s: State, l: Lane): State
    requires s.Chan(l).pending != []
  {
    var c := s.Chan(l);
    s.With(l, c.(pending := c.pending[1..])).(phase := Sending(l, c.pending[0]))
  }

  function Depart(s: State, ok: bool): State
    requires s.phase.Sending?
  {
    var l := s.phase.lane;
    var c := s.Chan(l);
    s.With(l, c.(departed := c.departed + [Departure(s.phase.msg, s.conn, ok)]))
     .(wire := if ok then s.wire + [s.phase.msg] else s.wire, phase := if ok then Polling else Returned)
  }

  /** One step; an event that is not enabled changes nothing. */
  function Step(s: State, e: Event): State {
    match e
    case Enqueue(l, m, pickDone) =>
      if Accepts(s, l, pickDone)
      then var c := s.Chan(l); s.With(l, c.(accepted := c.accepted + [m], pending := c.pending + [m]))
      else s
    case Poll =>
      if !s.phase.Polling? then s
      else if s.control.pending != [] then Take(s, Control)
      else s.(phase := Selecting)
    case SelectDone =>
      if s.phase.Selecting? && (s.connDone || s.daemonDone) then s.(phase := Returned) else s
    case SelectLane(l) =>
      if s.phase.Selecting? && s.Chan(l).pending != [] then Take(s, l) else s
    case SendOk => if s.phase.Sending? then Depart(s, true) else s
    case SendFail => if s.phase.Sending? then Depart(s, false) else s
    case DropConnection => s.(connDone := true)
    case StopDaemon => s.(daemonDone := true)
    case Reconnect =>
      // the previous writer has returned before the next one starts
      if s.phase.Returned? && !s.daemonDone
      then s.(phase := Polling, conn := s.conn + 1, connDone := false) else s
  }

  function RunFrom(s: State, evs: seq<Event>): State {
    if evs == [] then s else Step(RunFrom(s, evs[..|evs| - 1]), evs[|evs| - 1])
  }

  function Run(evs: seq<Event>): State { RunFrom(Init, evs) }

  function Messages(ds: seq<Departure>): seq<Message> {
    seq(|ds|, i requires 0 <= i < |ds| => ds[i].msg)
  }

  // ---------------------------------------------------------------- conservation

  /** Accepted = departed ++ in hand ++ pending, in this order, and the queue is within bounds. */
  ghost predicate Accounted(s: State, l: Lane) {
    && s.Chan(l).accepted == Messages(s.Chan(l).departed) + s.InHand(l) + s.Chan(l).pending
    && |s.Chan(l).pending| <= Capacity(l)
  }

  lemma MessagesAppend(ds: seq<Departure>, d: Departure)
    ensures Messages(ds + [d]) == Messages(ds) + [d.msg]
  {
  }

  lemma TakeAccounted(s: State, from: Lane, l: Lane)
    requires Accounted(s, l) && !s.phase.Sending? && s.Chan(from).pending != []
    ensures Accounted(Take(s, from), l)
  {
    if from == l {
      var p := s.Chan(l).pending;
      assert p == [p[0]] + p[1..];
    }
  }

  lemma DepartAccounted(s: State, ok: bool, l: Lane)
    requires Accounted(s, l) && s.phase.Sending?
    ensures Accounted(Depart(s, ok), l)
  {
    if s.phase.lane == l {
      MessagesAppend(s.Chan(l).departed, Departure(s.phase.msg, s.conn, ok));
    }
  }

  lemma OfferAccounted(s: State, to: Lane, m: Message, pickDone: bool, l: Lane)
    requires Accounted(s, l)
    ensures Accounted(Step(s, Enqueue(to, m, pickDone)), l)
  {
  }

  lemma StepAccounted(s: State, e: Event, l: Lane)
    requires Accounted(s, l)
    ensures Accounted(Step(s, e), l)
  {
    match e
    case Enqueue(to, m, pickDone) => OfferAccounted(s, to, m, pickDone, l);
    case Poll => if s.phase.Polling? && s.control.pending != [] { TakeAccounted(s, Control, l); }
    case SelectLane(from) =>
      if s.phase.Selecting? && s.Chan(from).pending != [] { TakeAccounted(s, from, l); }
    case SendOk => if s.phase.Sending? { DepartAccounted(s, true, l); }
    case SendFail => if s.phase.Sending? { DepartAccounted(s, false, l); }
    case _ =>
  }

  /** Nothing is lost silently, reordered or duplicated: in every run each queue's accepted
      messages are, in acceptance order, those that departed, the one in hand, and those pending. */
  lemma {:induction false} QueueConservation(evs: seq<Event>, l: Lane)
    ensures Accounted(Run(evs), l)
  {
    if evs != [] {
      QueueConservation(evs[..|evs| - 1], l);
      StepAccounted(Run(evs[..|evs| - 1]), evs[|evs| - 1], l);
    }
  }

  // ---------------------------------------------------------------- losses

  function Losses(ds: seq<Departure>, c: nat): nat {
    if ds == [] then 0
    else Losses(ds[..|ds| - 1], c)
         + (if !ds[|ds| - 1].delivered && ds[|ds| - 1].conn == c then 1 else 0)
  }

  function LossesOn(s: State, c: nat): nat {
    Losses(s.control.departed, c) + Losses(s.agentEvents.departed, c) + Losses(s.bulk.departed, c)
  }

  /** Connection `c` has ended. */
  predicate Ended(s: State, c: nat) { c < s.conn || (c == s.conn && s.phase.Returned?) }

  lemma LossesAppend(ds: seq<Departure>, d: Departure, c: nat)
    ensures Losses(ds + [d], c) == Losses(ds, c) + (if !d.delivered && d.conn == c then 1 else 0)
  {
    assert (ds + [d])[..|ds + [d]| - 1] == ds;
  }

  lemma DepartLosses(s: State, ok: bool, c: nat)
    requires s.phase.Sending?
    ensures LossesOn(Depart(s, ok), c) == LossesOn(s, c) + (if !ok && s.conn == c then 1 else 0)
  {
    var d := Departure(s.phase.msg, s.conn, ok);
    match s.phase.lane
    case Control => LossesAppend(s.control.departed, d, c);
    case AgentEvents => LossesAppend(s.agentEvents.departed, d, c);
    case Bulk => LossesAppend(s.bulk.departed, d, c);
  }

  lemma StepLosses(s: State, e: Event, c: nat)
    requires LossesOn(s, c) <= if Ended(s, c) then 1 else 0
    ensures LossesOn(Step(s, e), c) <= if Ended(Step(s, e), c) then 1 else 0
  {
    if (e.SendOk? || e.SendFail?) && s.phase.Sending? {
      DepartLosses(s, e.SendOk?, c);
    } else {
      StepKeepsDepartures(s, e);
    }
  }

  lemma StepKeepsDepartures(s: State, e: Event)
    requires !((e.SendOk? || e.SendFail?) && s.phase.Sending?)
    ensures Step(s, e).control.departed == s.control.departed
    ensures Step(s, e).agentEvents.departed == s.agentEvents.departed
    ensures Step(s, e).bulk.departed == s.bulk.departed
  {
  }

  /** Each connection loses at most one message over all three queues, and none while it lives. */
  lemma {:induction false} OneLossPerConnection(evs: seq<Event>, c: nat)
    ensures LossesOn(Run(evs), c) <= if Ended(Run(evs), c) then 1 else 0
  {
    if evs != [] {
      OneLossPerConnection(evs[..|evs| - 1], c);
      StepLosses(Run(evs[..|evs| - 1]), evs[|evs| - 1], c);
    }
  }

  /** `b` may follow `a` in one queue's departures: connections never go back, and a loss
      is the last thing its connection did. */
  predicate Follows(a: Departure, b: Departure) {
    if a.delivered then a.conn <= b.conn else a.conn < b.conn
  }

  ghost predicate Chained(ds: seq<Departure>) {
    forall i, j :: 0 <= i < j < |ds| ==> Follows(ds[i], ds[j])
  }

  /** Every departure so far may be followed by one on the current connection while it lives. */
  ghost predicate ChainedUpTo(s: State, l: Lane) {
    && Chained(s.Chan(l).departed)
    && (forall d :: d in s.Chan(l).departed ==>
          if d.delivered then d.conn <= s.conn else Ended(s, d.conn))
  }

  lemma ChainedAppend(ds: seq<Departure>, b: Departure)
    requires Chained(ds) && forall d :: d in ds ==> Follows(d, b)
    ensures Chained(ds + [b])
  {
  }

  lemma EndedMonotone(s: State, e: Event)
    ensures var t := Step(s, e);
      s.conn <= t.conn && (s.phase.Returned? ==> t.phase.Returned? || s.conn < t.conn)
  {
  }

  lemma ChainedKept(s: State, t: State, l: Lane)
    requires ChainedUpTo(s, l) && t.Chan(l).departed == s.Chan(l).departed
    requires s.conn <= t.conn && (s.phase.Returned? ==> t.phase.Returned? || s.conn < t.conn)
    ensures ChainedUpTo(t, l)
  {
  }

  lemma DepartChained(s: State, ok: bool, l: Lane)
    requires s.phase.Sending? && ChainedUpTo(s, l)
    ensures ChainedUpTo(Depart(s, ok), l)
  {
    if s.phase.lane == l {
      var b := Departure(s.phase.msg, s.conn, ok);
      ChainedAppend(s.Chan(l).departed, b);
      assert Depart(s, ok).Chan(l).departed == s.Chan(l).departed + [b];
    } else {
      ChainedKept(s, Depart(s, ok), l);
    }
  }

  lemma StepChained(s: State, e: Event, l: Lane)
    requires ChainedUpTo(s, l)
    ensures ChainedUpTo(Step(s, e), l)
  {
    if (e.SendOk? || e.SendFail?) && s.phase.Sending? {
      DepartChained(s, e.SendOk?, l);
    } else {
      StepKeepsDepartures(s, e);
      EndedMonotone(s, e);
      ChainedKept(s, Step(s, e), l);
    }
  }

  /** Per connection a queue's departures are deliveries followed by at most one loss. */
  lemma {:induction false} LossEndsItsConnection(evs: seq<Event>, l: Lane)
    ensures ChainedUpTo(Run(evs), l)
  {
    if evs != [] {
      LossEndsItsConnection(evs[..|evs| - 1], l);
      StepChained(Run(evs[..|evs| - 1]), evs[|evs| - 1], l);
    }
  }

  // ---------------------------------------------------------------- priority

  function BehindControl(s: State): nat { |s.agentEvents.departed| + |s.bulk.departed| }

  /** One agent or bulk message may already be committed when a control message arrives. */
  function Slack(s: State): nat {
    if s.phase.Selecting? || (s.phase.Sending? && s.phase.lane != Control) then 1 else 0
  }

  lemma StepMonotone(s: State, e: Event)
    ensures |s.control.departed| <= |Step(s, e).control.departed|
    ensures |s.control.accepted| <= |Step(s, e).control.accepted|
  {
  }

  lemma StepSlack(s: State, e: Event, k: nat)
    requires Accounted(s, Control) && |s.control.accepted| > k
    requires |s.control.departed| <= k
    ensures BehindControl(Step(s, e)) + Slack(Step(s, e)) <= BehindControl(s) + Slack(s)
  {
    if s.phase.Polling? {
      assert |s.control.pending| > 0;
    }
  }

  lemma {:induction false} SlackBound(s: State, evs: seq<Event>, k: nat)
    requires Accounted(s, Control)
    requires |s.control.accepted| > k
    requires |RunFrom(s, evs).control.departed| <= k
    ensures var t := RunFrom(s, evs);
      && Accounted(t, Control) && |t.control.accepted| > k
      && BehindControl(t) + Slack(t) <= BehindControl(s) + 1
  {
    if evs != [] {
      var pre, e := evs[..|evs| - 1], evs[|evs| - 1];
      StepMonotone(RunFrom(s, pre), e);
      SlackBound(s, pre, k);
      StepAccounted(RunFrom(s, pre), e, Control);
      StepSlack(RunFrom(s, pre), e, k);
    }
  }

  /** From the moment a control message is accepted until it leaves the queue, at most one
      agent or bulk message leaves, whatever producers, stream and reconnects do. */
  lemma PriorityBound(before: seq<Event>, m: Message, pickDone: bool, after: seq<Event>)
    requires Accepts(Run(before), Control, pickDone)
    requires var s := Step(Run(before), Enqueue(Control, m, pickDone));
      |RunFrom(s, after).control.departed| <= |Run(before).control.accepted|
    ensures var s := Step(Run(before), Enqueue(Control, m, pickDone));
      && s.control.accepted[|Run(before).control.accepted|] == m
      && BehindControl(RunFrom(s, after)) <= BehindControl(s) + 1
  {
    var s0 := Run(before);
    QueueConservation(before, Control);
    StepAccounted(s0, Enqueue(Control, m, pickDone), Control);
    SlackBound(Step(s0, Enqueue(Control, m, pickDone)), after, |s0.control.accepted|);
  }

  // ---------------------------------------------------------------- no round robin

  /** The select picks among ready lanes freely, so bulk traffic can overtake an agent event
      any number of times: `n` bulk messages leave while one agent event waits. */
  function Overtaking(n: nat): seq<Event> {
    if n == 0 then [Enqueue(AgentEvents, Message(0), false)]
    else Overtaking(n - 1) + [Enqueue(Bulk, Message(n), false)] + [Poll] + [SelectLane(Bulk)] + [SendOk]
  }

  lemma RunSnoc(s: State, evs: seq<Event>, e: Event)
    ensures RunFrom(s, evs + [e]) == Step(RunFrom(s, evs), e)
  {
    assert (evs + [e])[..|evs + [e]| - 1] == evs;
  }

  /** The agent event waits, all n bulk messages were delivered and the writer is free. */
  ghost predicate Starved(s: State, n: nat) {
    && s.agentEvents.pending == [Message(0)] && s.agentEvents.departed == []
    && |s.bulk.departed| == n && (forall i :: 0 <= i < n ==> s.bulk.departed[i].delivered)
    && s.bulk.pending == [] && s.control.pending == [] && s.phase == Polling && !s.daemonDone
  }

  lemma OvertakeOnce(s: State, m: Message, n: nat)
    requires Starved(s, n)
    ensures Starved(Step(Step(Step(Step(s, Enqueue(Bulk, m, false)), Poll), SelectLane(Bulk)), SendOk), n + 1)
  {
    var c := s.bulk;
    assert Step(s, Enqueue(Bulk, m, false)) == s.(bulk := Channel(c.accepted + [m], c.departed, [m]));
    assert [m][1..] == [];
  }

  lemma {:induction false} AgentEventsCanStarve(n: nat)
    ensures Starved(Run(Overtaking(n)), n)
  {
    if n == 0 {
      RunSnoc(Init, [], Enqueue(AgentEvents, Message(0), false));
      assert [] + [Enqueue(AgentEvents, Message(0), false)] == Overtaking(0);
    } else {
      hide Step, RunFrom, Starved;
      AgentEventsCanStarve(n - 1);
      var a := Overtaking(n - 1);
      var b := a + [Enqueue(Bulk, Message(n), false)];
      OvertakeOnce(Run(a), Message(n), n - 1);
      RunSnoc(Init, a, Enqueue(Bulk, Message(n), false));
      RunSnoc(Init, b, Poll);
      RunSnoc(Init, b + [Poll], SelectLane(Bulk));
      RunSnoc(Init, b + [Poll] + [SelectLane(Bulk)], SendOk);
    }
  }

  /** Bulk messages that can still leave without anything new being accepted. */
  function Supply(s: State): nat { |s.InHand(Bulk)| + |s.bulk.pending| }

  lemma {:induction false} RunFromAccounted(s: State, evs: seq<Event>, l: Lane)
    requires Accounted(s, l)
    ensures Accounted(RunFrom(s, evs), l)
  {
    if evs != [] {
      RunFromAccounted(s, evs[..|evs| - 1], l);
      StepAccounted(RunFrom(s, evs[..|evs| - 1]), evs[|evs| - 1], l);
    }
  }

  lemma {:induction false} RunFromConcat(s: State, a: seq<Event>, b: seq<Event>)
    ensures RunFrom(s, a + b) == RunFrom(RunFrom(s, a), b)
  {
    if b == [] {
      assert a + b == a;
    } else {
      RunFromConcat(s, a, b[..|b| - 1]);
      assert (a + b)[..|a + b| - 1] == a + b[..|b| - 1];
    }
  }

  /** In every continuation of every run, the bulk messages that leave are those in hand or pending at
      its start and those accepted meanwhile, less what is still there: none leaves from nowhere. */
  lemma BulkDepartures(before: seq<Event>, after: seq<Event>)
    ensures var s, t := Run(before), RunFrom(Run(before), after);
      |t.bulk.departed| + Supply(t) + |s.bulk.accepted| == |s.bulk.departed| + Supply(s) + |t.bulk.accepted|
  {
    QueueConservation(before, Bulk);
    RunFromAccounted(Run(before), after, Bulk);
  }

  predicate Quiet(evs: seq<Event>) { forall i :: 0 <= i < |evs| ==> !evs[i].Enqueue? }

  lemma {:induction false} QuietAcceptsNothing(s: State, evs: seq<Event>)
    requires Quiet(evs)
    ensures RunFrom(s, evs).bulk.accepted == s.bulk.accepted
  {
    if evs != [] {
      QuietAcceptsNothing(s, evs[..|evs| - 1]);
    }
  }

  /** The writer is gone for good. */
  predicate Stopped(s: State) { s.phase.Returned? && s.daemonDone }

  /** The continuation that serves n bulk messages and lets the agent events wait. */
  function ServeBulk(s: State, n: nat): seq<Event>
    decreases n, |s.control.pending|, match s.phase case Returned => 3 case Sending(_, _) => 2 case Polling => 1 case Selecting => 0
  {
    if n == 0 || Stopped(s) then []
    else
      match s.phase
      case Returned => [Reconnect] + ServeBulk(Step(s, Reconnect), n)
      case Sending(l, _) => [SendOk] + ServeBulk(Step(s, SendOk), if l == Bulk then n - 1 else n)
      case Polling => [Poll] + ServeBulk(Step(s, Poll), n)
      case Selecting =>
        if s.bulk.pending == [] then [] else [SelectLane(Bulk), SendOk] + ServeBulk(Step(Step(s, SelectLane(Bulk)), SendOk), n - 1)
  }

  /** What serving leaves behind: the agent events are where they were, n bulk messages have left. */
  ghost predicate Served(s: State, t: State, n: nat) {
    t.agentEvents.pending == s.agentEvents.pending && |t.bulk.departed| == |s.bulk.departed| + n
  }

  lemma OneMore(s: State, e: Event, rest: seq<Event>)
    requires !e.Enqueue? && Quiet(rest)
    ensures Quiet([e] + rest) && RunFrom(s, [e] + rest) == RunFrom(Step(s, e), rest)
  {
    RunFromConcat(s, [e], rest);
    assert [e][..0] == [];
    assert RunFrom(s, [e]) == Step(RunFrom(s, []), e);
  }

  lemma {:induction false} ServeBulkServes(s: State, n: nat)
    requires !Stopped(s) && n <= Supply(s)
    ensures Quiet(ServeBulk(s, n)) && Served(s, RunFrom(s, ServeBulk(s, n)), n)
    decreases n, |s.control.pending|, match s.phase case Returned => 3 case Sending(_, _) => 2 case Polling => 1 case Selecting => 0
  {
    hide RunFrom, Quiet;
    if n == 0 {
      NothingServed(s);
    } else if s.phase.Selecting? {
      var t := Step(s, SelectLane(Bulk));
      var u := Step(t, SendOk);
      ServeBulkServes(u, n - 1);
      var rest := ServeBulk(u, n - 1);
      OneMore(t, SendOk, rest);
      OneMore(s, SelectLane(Bulk), [SendOk] + rest);
      assert [SelectLane(Bulk), SendOk] + rest == [SelectLane(Bulk)] + ([SendOk] + rest);
    } else {
      var e := match s.phase case Returned => Reconnect case Sending(_, _) => SendOk case _ => Poll;
      var m := if s.phase.Sending? && s.phase.lane == Bulk then n - 1 else n;
      ServeBulkServes(Step(s, e), m);
      OneMore(s, e, ServeBulk(Step(s, e), m));
    }
  }

  lemma NothingServed(s: State)
    ensures Quiet(ServeBulk(s, 0)) && Served(s, RunFrom(s, ServeBulk(s, 0)), 0)
  {
  }

  /** How far bulk output can overtake: with nothing further accepted, at most n bulk messages leave while
      the waiting agent events stay where they are, in every continuation, exactly when at most n are in
      hand or pending or the writer is gone.  For n = 1 this is when the promised alternation is kept. */
  lemma OvertakingIff(before: seq<Event>, n: nat)
    ensures var s := Run(before);
      (forall evs :: Quiet(evs) && RunFrom(s, evs).agentEvents.pending == s.agentEvents.pending
                     ==> |RunFrom(s, evs).bulk.departed| <= |s.bulk.departed| + n)
      <==> Stopped(s) || Supply(s) <= n
  {
    hide Step, Run, RunFrom, Quiet, Supply;
    var s := Run(before);
    forall evs | Quiet(evs)
      ensures |RunFrom(s, evs).bulk.departed| <= |s.bulk.departed| + Supply(s)
    {
      BulkDepartures(before, evs);
      QuietAcceptsNothing(s, evs);
    }
    if Stopped(s) {
      forall evs
        ensures RunFrom(s, evs).bulk.departed == s.bulk.departed
      {
        StoppedStays(s, evs);
      }
    } else {
      var all := ServeBulk(s, Supply(s));
      ServeBulkServes(s, Supply(s));
      assert Quiet(all) && Served(s, RunFrom(s, all), Supply(s));
    }
  }

  lemma {:induction false} StoppedStays(s: State, evs: seq<Event>)
    requires Stopped(s)
    ensures Stopped(RunFrom(s, evs)) && RunFrom(s, evs).bulk.departed == s.bulk.departed
  {
    if evs != [] {
      StoppedStays(s, evs[..|evs| - 1]);
    }
  }

  // ---------------------------------------------------------------- everything can be delivered

  /** What waits in a lane: the message in the writer's hand, if it is of this lane, and the queue. */
  function Waiting(s: State, l: Lane): seq<Message> { s.InHand(l) + s.Chan(l).pending }

  /** The messages of lane `l` that Send delivered, in order. */
  function Delivered(ds: seq<Departure>): seq<Message> {
    if ds == [] then []
    else
      var n := |ds| - 1;
      Delivered(ds[..n]) + if ds[n].delivered then [ds[n].msg] else []
  }

  lemma DeliveredMore(ds: seq<Departure>, d: Departure)
    ensures Delivered(ds + [d]) == Delivered(ds) + if d.delivered then [d.msg] else []
  {
    assert (ds + [d])[..|ds|] == ds;
  }

  /** Everything delivered and everything that waits, in order: what lane `l` has brought or still can. */
  function Promised(s: State, l: Lane): seq<Message> { Delivered(s.Chan(l).departed) + Waiting(s, l) }

  /** The next step of a writer that is to serve lane `l`. */
  function NextStep(s: State, l: Lane): Event {
    match s.phase
    case Returned => Reconnect
    case Sending(_, _) => SendOk
    case Polling => Poll
    case Selecting => SelectLane(l)
  }

  function Distance(s: State, l: Lane): nat {
    match s.phase case Returned => 4 case Sending(of, _) => if of == l then 0 else 3 case Polling => 2 case Selecting => 1
  }

  lemma SentFacts(s: State, l: Lane)
    requires s.phase.Sending?
    ensures var t := Step(s, SendOk);
      && t.phase == Polling && t.Chan(l).pending == s.Chan(l).pending && t.control.pending == s.control.pending
      && t.Chan(l).departed == s.Chan(l).departed + if s.phase.lane == l then [Departure(s.phase.msg, s.conn, true)] else []
  {
  }

  lemma Regroup(a: seq<Message>, b: seq<Message>, c: seq<Message>)
    ensures (a + b) + c == a + (b + c)
  {
  }

  lemma SendKeepsPromise(s: State, l: Lane)
    requires s.phase.Sending?
    ensures var t := Step(s, SendOk);
      && Promised(t, l) == Promised(s, l) && t.phase == Polling && t.control.pending == s.control.pending
      && |Waiting(t, l)| == |Waiting(s, l)| - if s.phase.lane == l then 1 else 0
  {
    hide Step, Delivered;
    SentFacts(s, l);
    var t, ds := Step(s, SendOk), s.Chan(l).departed;
    var d, p := Departure(s.phase.msg, s.conn, true), s.Chan(l).pending;
    assert Waiting(t, l) == p;
    if s.phase.lane == l {
      DeliveredMore(ds, d);
      Regroup(Delivered(ds), [s.phase.msg], p);
    } else {
      assert ds + [] == ds;
    }
  }

  lemma TakeKeepsPromise(s: State, from: Lane, l: Lane)
    requires !s.phase.Sending? && s.Chan(from).pending != []
    ensures var t := Take(s, from);
      Promised(t, l) == Promised(s, l) && |Waiting(t, l)| == |Waiting(s, l)|
  {
    if from == l {
      var c := s.Chan(l).pending;
      assert c == [c[0]] + c[1..];
    }
  }

  /** The step keeps the promise and brings the writer nearer to delivering. */
  lemma NextStepServes(s: State, l: Lane)
    requires !Stopped(s) && Waiting(s, l) != []
    ensures var t := Step(s, NextStep(s, l));
      && Promised(t, l) == Promised(s, l) && !Stopped(t)
      && (|Waiting(t, l)| < |Waiting(s, l)|
          || (|Waiting(t, l)| == |Waiting(s, l)|
              && (|t.control.pending| < |s.control.pending| || (|t.control.pending| == |s.control.pending| && Distance(t, l) < Distance(s, l)))))
  {
    if s.phase.Sending? {
      hide Step, Promised, Waiting;
      SendKeepsPromise(s, l);
    } else if s.phase.Selecting? || (s.phase.Polling? && s.control.pending != []) {
      hide Promised, Waiting;
      var from := if s.phase.Selecting? then l else Control;
      assert s.phase.Selecting? ==> s.Chan(l).pending != [] by { NoneInHand(s, l); }
      TakeKeepsPromise(s, from, l);
      TakeFacts(s, from, l);
    } else {
      hide Delivered;
      PromiseSame(s, Step(s, NextStep(s, l)), l);
    }
  }

  lemma NoneInHand(s: State, l: Lane)
    requires !s.phase.Sending? && Waiting(s, l) != []
    ensures s.Chan(l).pending != []
  {
  }

  lemma TakeFacts(s: State, from: Lane, l: Lane)
    requires s.Chan(from).pending != []
    ensures var t := Take(s, from);
      && !Stopped(t) && t.phase.Sending? && t.phase.lane == from
      && (from == Control ==> |t.control.pending| == |s.control.pending| - 1)
      && (from != Control ==> t.control.pending == s.control.pending)
  {
  }

  lemma PromiseSame(s: State, t: State, l: Lane)
    requires !s.phase.Sending? && !t.phase.Sending? && t.Chan(l) == s.Chan(l)
    ensures Promised(t, l) == Promised(s, l) && Waiting(t, l) == Waiting(s, l)
  {
  }

  lemma {:induction false} DeliveryFrom(s: State, l: Lane) returns (evs: seq<Event>)
    requires !Stopped(s)
    ensures Quiet(evs) && Waiting(RunFrom(s, evs), l) == [] && Promised(RunFrom(s, evs), l) == Promised(s, l)
    decreases |Waiting(s, l)|, |s.control.pending|, Distance(s, l)
  {
    if Waiting(s, l) == [] {
      evs := [];
    } else {
      NextStepServes(s, l);
      var e := NextStep(s, l);
      hide RunFrom, Quiet, Step, Promised, Waiting;
      var rest := DeliveryFrom(Step(s, e), l);
      OneMore(s, e, rest);
      evs := [e] + rest;
    }
  }

  /** No lane is stuck: from any point of any run at which the writer is not gone for good, some continuation
      in which nothing is accepted delivers all that waits in a lane, in order, behind what was delivered. */
  lemma EverythingCanBeDelivered(before: seq<Event>, l: Lane) returns (after: seq<Event>)
    requires !Stopped(Run(before))
    ensures var s, t := Run(before), RunFrom(Run(before), after);
      && Quiet(after) && t.Chan(l).pending == [] && t.InHand(l) == []
      && Delivered(t.Chan(l).departed) == Delivered(s.Chan(l).departed) + s.InHand(l) + s.Chan(l).pending
  {
    hide Run, RunFrom, Quiet;
    after := DeliveryFrom(Run(before), l);
    var t := RunFrom(Run(before), after);
    assert Delivered(t.Chan(l).departed) + [] == Delivered(t.Chan(l).departed);
  }

  /** Enqueueing, by the numbers: a message joins its lane exactly when fewer than 64 priority messages, 512
      agent events or 256 bulk messages wait there, and the select did not take a context that is done. */
  lemma EnqueuedIff(before: seq<Event>, l: Lane, m: Message, pickDone: bool)
    ensures var s, t := Run(before), Run(before + [Enqueue(l, m, pickDone)]);
      && (forall k :: k != l ==> t.Chan(k) == s.Chan(k)) && t.phase == s.phase
      && var room := |s.Chan(l).pending| < (match l case Control => 64 case AgentEvents => 512 case Bulk => 256);
         if room && !(pickDone && s.daemonDone)
         then t.Chan(l).pending == s.Chan(l).pending + [m] && t.Chan(l).accepted == s.Chan(l).accepted + [m]
         else t == s
  {
    RunSnoc(Init, before, Enqueue(l, m, pickDone));
  }

  // ---------------------------------------------------------------- the daemon

  datatype Outcome = StillRunning | Blocked | WriterReturned

  /** What happens around one round of the writer loop: producer and cancellation events at
      each point where the goroutine can be preempted, the case the blocking select takes
      when several are ready, and the result of Send. */
  datatype Round = Round(beforePoll: seq<Event>, beforeSelect: seq<Event>, pick: Event,
                         duringSend: seq<Event>, sendOk: bool) {
    predicate Valid() {
      && (forall e :: e in beforePoll ==> External(e))
      && (forall e :: e in beforeSelect ==> External(e))
      && (forall e :: e in duringSend ==> External(e))
    }
  }

  predicate External(e: Event) { e.Enqueue? || e.DropConnection? || e.StopDaemon? }

  /** How the two selects of a round end, given the state before it. */
  ghost function Selected(s: State, r: Round): (State, Outcome) {
    var p := RunFrom(s, r.beforePoll);
    var q := RunFrom(p.(phase := Selecting), r.beforeSelect);
    if p.control.pending != [] then (Take(p, Control), StillRunning)
    else if r.pick.SelectDone? && (q.connDone || q.daemonDone) then (q.(phase := Returned), WriterReturned)
    else if r.pick.SelectLane? && q.Chan(r.pick.lane).pending != [] then (Take(q, r.pick.lane), StillRunning)
    else (q, Blocked)
  }

  /** How the whole round ends. */
  ghost function RoundEnd(s: State, r: Round): (State, Outcome) {
    var (t, o) := Selected(s, r);
    var u := RunFrom(t, r.duringSend);
    if o != StillRunning || !u.phase.Sending? then (t, o)
    else (Depart(u, r.sendOk), if r.sendOk then StillRunning else WriterReturned)
  }

  ghost function LoopEnd(s: State, rounds: seq<Round>): (State, Outcome) {
    if rounds == [] then (s, StillRunning)
    else
      var (t, o) := LoopEnd(s, rounds[..|rounds| - 1]);
      if o != StillRunning then (t, o) else RoundEnd(t, rounds[|rounds| - 1])
  }

  lemma {:induction false} LoopStops(s: State, rounds: seq<Round>, k: nat)
    requires k <= |rounds| && LoopEnd(s, rounds[..k]).1 != StillRunning
    ensures LoopEnd(s, rounds) == LoopEnd(s, rounds[..k])
    decreases |rounds|
  {
    if k == |rounds| {
      assert rounds[..k] == rounds;
    } else {
      hide RoundEnd;
      assert rounds[..|rounds| - 1][..k] == rounds[..k];
      LoopStops(s, rounds[..|rounds| - 1], k);
    }
  }

  class Daemon {
    var sendPriorityCh: seq<Message>
    var agentEventCh: seq<Message>
    var sendCh: seq<Message>
    var connDone: bool
    var ctxDone: bool
    ghost var trace: seq<Event>
    ghost var st: State

    ghost predicate Valid() reads this {
      && st == Run(trace)
      && st.control.pending == sendPriorityCh
      && st.agentEvents.pending == agentEventCh
      && st.bulk.pending == sendCh
      && st.connDone == connDone && st.daemonDone == ctxDone
    }

    constructor ()
      ensures Valid() && trace == [] && st == Init
    {
      sendPriorityCh, agentEventCh, sendCh := [], [], [];
      connDone, ctxDone := false, false;
      trace, st := [], Init;
    }

    ghost method Record(e: Event)
      requires st == Run(trace)
      modifies this`trace, this`st
      ensures trace == old(trace) + [e] && st == Step(old(st), e) && st == Run(trace)
    {
      RunSnoc(Init, trace, e);
      trace, st := trace + [e], Step(st, e);
    }

    /** The non-blocking enqueue: it reports exactly whether the message was taken, and a
        refusal leaves every queue as it was. */
    method Offer(l: Lane, m: Message, pickDone: bool) returns (ok: bool)
      requires Valid()
      modifies this
      ensures Valid() && trace == old(trace) + [Enqueue(l, m, pickDone)]
      ensures ok == Accepts(old(st), l, pickDone) && st == Step(old(st), Enqueue(l, m, pickDone))
      ensures ok <==> |match l case Control => old(sendPriorityCh) case AgentEvents => old(agentEventCh) case Bulk => old(sendCh)|
                      < (match l case Control => 64 case AgentEvents => 512 case Bulk => 256) && !(pickDone && ctxDone)
      ensures !ok ==> st == old(st)
      ensures st.phase == old(st).phase && st.wire == old(st).wire && st.conn == old(st).conn
    {
      var q := match l case Control => sendPriorityCh case AgentEvents => agentEventCh case Bulk => sendCh;
      ok := !(ctxDone && pickDone) && |q| < Capacity(l);
      if ok {
        match l
        case Control => sendPriorityCh := sendPriorityCh + [m];
        case AgentEvents => agentEventCh := agentEventCh + [m];
        case Bulk => sendCh := sendCh + [m];
      }
      Record(Enqueue(l, m, pickDone));
    }

    method Interfere(evs: seq<Event>)
      requires Valid() && forall e :: e in evs ==> External(e)
      modifies this
      ensures Valid() && old(trace) <= trace && st == RunFrom(old(st), evs)
      ensures st.phase == old(st).phase && st.wire == old(st).wire && st.conn == old(st).conn
      ensures old(sendPriorityCh) <= sendPriorityCh
    {
      for i := 0 to |evs|
        invariant Valid() && old(trace) <= trace && st == RunFrom(old(st), evs[..i])
        invariant st.phase == old(st).phase && st.wire == old(st).wire && st.conn == old(st).conn
        invariant old(sendPriorityCh) <= sendPriorityCh
      {
        var e := evs[i];
        assert e in evs && External(e);
        assert evs[..i + 1][..i] == evs[..i];
        if e.Enqueue? {
          var _ := Offer(e.lane, e.msg, e.pickDone);
        } else if e.DropConnection? {
          connDone := true;
          Record(e);
        } else {
          ctxDone := true;
          Record(e);
        }
      }
      assert evs[..|evs|] == evs;
    }

    predicate Ready(pick: Event) reads this {
      match pick
      case SelectDone => connDone || ctxDone
      case SelectLane(l) =>
        (match l case Control => sendPriorityCh case AgentEvents => agentEventCh case Bulk => sendCh) != []
      case _ => false
    }

    /** Receive from lane `l`; `e` is the poll or select case that does it. */
    method Receive(l: Lane, e: Event) returns (m: Message)
      requires Valid() && st.Chan(l).pending != [] && Step(st, e) == Take(st, l)
      modifies this
      ensures Valid() && trace == old(trace) + [e]
      ensures st == Step(old(st), e) && st.phase == Sending(l, m)
    {
      match l {
        case Control => m := sendPriorityCh[0]; sendPriorityCh := sendPriorityCh[1..];
        case AgentEvents => m := agentEventCh[0]; agentEventCh := agentEventCh[1..];
        case Bulk => m := sendCh[0]; sendCh := sendCh[1..];
      }
      Record(e);
    }

    /** Send the message in hand while producers go on. */
    method Send(m: Message, during: seq<Event>, ok: bool)
      requires Valid() && st.phase.Sending? && st.phase.msg == m
      requires forall e :: e in during ==> External(e)
      modifies this
      ensures Valid() && old(trace) <= trace
      ensures st.phase == if ok then Polling else Returned
      ensures st.wire == if ok then old(st).wire + [m] else old(st).wire
      ensures var s := RunFrom(old(st), during); s.phase.Sending? && st == Depart(s, ok)
    {
      Interfere(during);
      Record(if ok then SendOk else SendFail);
    }

    /** The two selects at the top of the loop: the oldest control message if one waits at the poll; else
        the case picked by the blocking select if it is ready, and blocked if it is not. */
    method NextMessage(r: Round) returns (m: Message, outcome: Outcome)
      requires Valid() && st.phase == Polling && r.Valid()
      modifies this
      ensures Valid() && old(trace) <= trace && st.wire == old(st).wire
      ensures match outcome
              case StillRunning => st.phase.Sending? && st.phase.msg == m
              case Blocked => st.phase == Selecting
              case WriterReturned => st.phase == Returned
      ensures (st, outcome) == Selected(old(st), r)
      ensures var p := RunFrom(old(st), r.beforePoll);
        var q := RunFrom(p.(phase := Selecting), r.beforeSelect);
        if p.control.pending != [] then outcome == StillRunning && st == Take(p, Control) && m == p.control.pending[0]
        else match r.pick
          case SelectDone =>
            if q.connDone || q.daemonDone then outcome == WriterReturned && st == q.(phase := Returned)
            else outcome == Blocked && st == q
          case SelectLane(l) =>
            if q.Chan(l).pending != [] then outcome == StillRunning && st == Take(q, l) && m == q.Chan(l).pending[0]
            else outcome == Blocked && st == q
          case _ => outcome == Blocked && st == q
    {
      m, outcome := Message(0), StillRunning;
      Interfere(r.beforePoll);
      if sendPriorityCh != [] {
        m := Receive(Control, Poll);
        return;
      }
      Record(Poll);
      Interfere(r.beforeSelect);
      if !Ready(r.pick) {
        outcome := Blocked;
      } else if r.pick.SelectDone? {
        Record(SelectDone);
        outcome := WriterReturned;
      } else {
        m := Receive(r.pick.lane, r.pick);
      }
    }

    /** The writer goroutine over any number of rounds.  Every trace it produces is a run of the
        machine above, so the conservation, loss and priority results hold of it; it stops at the first
        round that blocks or ends it and nowhere else; `sent` is what went on the wire. */
    method StreamWriter(rounds: seq<Round>) returns (sent: seq<Message>, outcome: Outcome)
      requires Valid() && st.phase == Polling
      requires forall r :: r in rounds ==> r.Valid()
      modifies this
      ensures Valid() && old(trace) <= trace
      ensures st.wire == old(st).wire + sent
      ensures (st, outcome) == LoopEnd(old(st), rounds)
      ensures st.phase == match outcome
                          case StillRunning => Polling
                          case Blocked => Selecting
                          case WriterReturned => Returned
    {
      hide Selected, Take, Depart, Run, RunFrom;
      sent, outcome := [], StillRunning;
      var k := 0;
      while k < |rounds|
        invariant 0 <= k <= |rounds|
        invariant Valid() && old(trace) <= trace
        invariant st.wire == old(st).wire + sent
        invariant st.phase == Polling && outcome == StillRunning
        invariant (st, StillRunning) == LoopEnd(old(st), rounds[..k])
      {
        var r := rounds[k];
        k := k + 1;
        assert rounds[..k][..k - 1] == rounds[..k - 1];
        var m;
        m, outcome := NextMessage(r);
        if outcome != StillRunning {
          LoopStops(old(st), rounds, k);
          return;
        }
        Send(m, r.duringSend, r.sendOk);
        if !r.sendOk {
          outcome := WriterReturned;
          LoopStops(old(st), rounds, k);
          return;
        }
        sent := sent + [m];
      }
      assert rounds[..k] == rounds;
    }
  }
}
