/** Session creation, kill and reconciliation between the Nexus API, the gateway's
    per-connection goroutines and one satellite.  Every database statement, channel
    operation and locked region is one step; a run is any interleaving of them.
 */
module Reconciliation {

  type SessionId = nat

  datatype SessionState = Provisioning | Running | Detached | ReAttaching | Suspended | Terminated

  predicate ValidTransition(a: SessionState, b: SessionState) {
    match a
    case Provisioning => b in {Running, Terminated}
    case Running => b in {Detached, Suspended, Terminated}
    case Detached => b in {Running, ReAttaching, Terminated}
    case ReAttaching => b in {Running, Detached, Terminated}
    case Suspended => b in {Running, Terminated}
    case Terminated => false
  }

  datatype Command =
    | Start(id: SessionId)
    | Kill(id: SessionId)
    | Reconcile(active: set<SessionId>, query: nat)

  datatype Gateway = Offline | Registered | Queried | Announced

  /** The satellite's receive goroutine: waiting, or working through the orphans it collected
      for reconciliation `query`; `exited` are those it skipped as already terminated. */
  datatype Handler = Idle | Pruning(query: nat, orphans: set<SessionId>, exited: set<SessionId>)

  /** One active-session query: its result, every row that existed, and the sessions whose row
      appeared afterwards but whose Start entered the channel before the reconciliation did. */
  datatype Query = Query(active: set<SessionId>, rows: set<SessionId>, window: set<SessionId>)

  /** `pipe` is everything between dispatch and the satellite, oldest first: the first `sent`
      commands are on the stream, the rest in the gateway's outbound channel.  Four sets record the
      past: `revived` rows were terminated and then overwritten, `early` kills were dispatched before
      the session's start, `lost` kills were refused or dropped with the connection, and `silent` rows
      were terminated by a reported state, without a kill. */
  datatype State = State(
    db: map<SessionId, SessionState>,
    starting: set<SessionId>,
    killing: set<SessionId>,
    updating: set<(SessionId, SessionState)>,
    revived: set<SessionId>,
    early: set<SessionId>,
    lost: set<SessionId>,
    silent: set<SessionId>,
    gateway: Gateway,
    queries: seq<Query>,
    pipe: seq<Command>,
    sent: nat,
    local: map<SessionId, SessionState>,
    handler: Handler)

  const OUTBOUND_CAPACITY := 100

  const Init := State(map[], {}, {}, {}, {}, {}, {}, {}, Offline, [], [], 0, map[], Idle)

  datatype Event =
    | InsertRow(id: SessionId)                          // create handler stores the session
    | DispatchStart(id: SessionId, routed: bool)        // ... then sends Start if a stream is found
    | MarkTerminated(id: SessionId)                     // kill handler's transaction
    | DispatchKill(id: SessionId, routed: bool)
    | ReadState(id: SessionId, to: SessionState)        // gateway checks a reported transition
    | WriteState(id: SessionId, to: SessionState)       // ... then stores it, in another statement
    | Register
    | QueryActive
    | Announce
    | Transmit
    | Deliver(created: bool)
    | Prune(id: SessionId)
    | FinishPruning
    | LocalChange(id: SessionId, to: SessionState)      // process exit, suspend, resume
    | Disconnect

  function ActiveRows(db: map<SessionId, SessionState>): set<SessionId> {
    set id | id in db && db[id] != Terminated
  }

  predicate HasRoom(s: State) { |s.pipe| < s.sent + OUTBOUND_CAPACITY }

  predicate Accepts(s: State, routed: bool) { routed && s.gateway != Offline && HasRoom(s) }

  function Enqueue(s: State, c: Command, routed: bool): State {
    if Accepts(s, routed) then s.(pipe := s.pipe + [c]) else s
  }

  function NoteKill(s: State, id: SessionId, routed: bool): State {
    s.(killing := s.killing - {id},
       early := if id in s.starting then s.early + {id} else s.early,
       lost := if Accepts(s, routed) then s.lost else s.lost + {id})
  }

  function Kills(cs: seq<Command>): set<SessionId> { set c | c in cs && c.Kill? :: c.id }

  /** Start accepted between the query and the reconciliation, for a row the query cannot have seen. */
  function NoteWindow(s: State, id: SessionId, routed: bool): State {
    if routed && s.gateway.Queried? && HasRoom(s) && s.queries != [] && id !in s.queries[|s.queries| - 1].rows
    then
      var q := s.queries[|s.queries| - 1];
      s.(queries := s.queries[|s.queries| - 1 := q.(window := q.window + {id})])
    else s
  }

  function ApplyWrite(s: State, id: SessionId, to: SessionState): State
    requires id in s.db
  {
    s.(db := s.db[id := to],
       updating := s.updating - {(id, to)},
       revived := if s.db[id] == Terminated && to != Terminated then s.revived + {id} else s.revived,
       silent := if to == Terminated then s.silent + {id} else s.silent)
  }

  function RunQuery(s: State): State {
    s.(gateway := Queried, queries := s.queries + [Query(ActiveRows(s.db), s.db.Keys, {})])
  }

  /** Sessions the satellite still runs but Nexus does not list. */
  function Orphans(local: map<SessionId, SessionState>, active: set<SessionId>): set<SessionId> {
    set id | id in local && local[id] != Terminated && id !in active
  }

  function Receive(s: State, created: bool): State
    requires s.sent > 0 && s.pipe != []
  {
    var c := s.pipe[0];
    var t := s.(pipe := s.pipe[1..], sent := s.sent - 1);
    match c
    case Start(id) => if created then t.(local := t.local[id := Running]) else t
    case Kill(id) => t.(local := t.local - {id})
    case Reconcile(active, q) =>
      t.(handler := Pruning(q, Orphans(t.local, active),
                            set id | id in t.local && t.local[id] == Terminated))
  }

  /** One step; an event that is not enabled changes nothing. */
  function Step(s: State, e: Event): State {
    match e
    case InsertRow(id) =>
      if id in s.db then s else s.(db := s.db[id := Provisioning], starting := s.starting + {id})
    case DispatchStart(id, routed) =>
      if id in s.starting then Enqueue(NoteWindow(s.(starting := s.starting - {id}), id, routed), Start(id), routed)
      else s
    case MarkTerminated(id) =>
      if id in s.db && ValidTransition(s.db[id], Terminated)
      then s.(db := s.db[id := Terminated], killing := s.killing + {id}) else s
    case DispatchKill(id, routed) =>
      if id in s.killing then Enqueue(NoteKill(s, id, routed), Kill(id), routed) else s
    case ReadState(id, to) =>
      if id in s.db && ValidTransition(s.db[id], to) then s.(updating := s.updating + {(id, to)}) else s
    case WriteState(id, to) =>
      if (id, to) in s.updating && id in s.db then ApplyWrite(s, id, to) else s
    case Register => if s.gateway.Offline? then s.(gateway := Registered) else s
    case QueryActive => if s.gateway.Registered? then RunQuery(s) else s
    case Announce =>
      if s.gateway.Queried? && s.queries != [] then
        var q := |s.queries| - 1;
        Enqueue(s.(gateway := Announced), Reconcile(s.queries[q].active, q), true)
      else s
    case Transmit => if s.sent < |s.pipe| then s.(sent := s.sent + 1) else s
    case Deliver(created) =>
      if s.handler.Idle? && s.sent > 0 && s.pipe != [] then Receive(s, created) else s
    case Prune(id) =>
      if s.handler.Pruning? && id in s.handler.orphans
      then s.(local := s.local - {id}, handler := s.handler.(orphans := s.handler.orphans - {id})) else s
    case FinishPruning =>
      if s.handler.Pruning? && s.handler.orphans == {} then s.(handler := Idle) else s
    case LocalChange(id, to) => if id in s.local then s.(local := s.local[id := to]) else s
    case Disconnect => s.(gateway := Offline, pipe := [], sent := 0, lost := s.lost + Kills(s.pipe))
  }

  function Run(evs: seq<Event>): State {
    if evs == [] then Init else Step(Run(evs[..|evs| - 1]), evs[|evs| - 1])
  }

  // ---------------------------------------------------------------- invariants

  /** Everything the satellite runs or will be told to start has a row. */
  ghost predicate RowsKnown(s: State) {
    && s.local.Keys <= s.db.Keys
    && s.starting <= s.db.Keys
    && (forall c :: c in s.pipe && c.Start? ==> c.id in s.db)
  }

  /** A row the query saw as terminated stays so unless a gateway write revived it. */
  ghost predicate QueryTrue(s: State, q: Query) {
    && q.active <= q.rows <= s.db.Keys
    && q.window !! q.rows
    && (forall id :: id in q.rows - q.active ==> s.db[id] == Terminated || id in s.revived)
  }

  ghost predicate QueriesTrue(s: State) { forall q :: q in s.queries ==> QueryTrue(s, q) }

  function Seen(q: Query): set<SessionId> { q.rows + q.window }

  /** Commands in `cs` start only sessions in `ids`. */
  ghost predicate StartsWithin(cs: seq<Command>, ids: set<SessionId>) {
    forall c :: c in cs && c.Start? ==> c.id in ids
  }

  /** Whatever is local or ahead of a pending reconciliation was seen by its query or came through
      the window. */
  ghost predicate Covered(s: State) {
    && (s.gateway.Queried? ==> s.queries != [])
    && (s.gateway.Queried? ==>
          var ids := Seen(s.queries[|s.queries| - 1]);
          s.local.Keys <= ids && StartsWithin(s.pipe, ids))
    && (forall k :: 0 <= k < |s.pipe| && s.pipe[k].Reconcile? ==> CoveredAt(s, k))
  }

  ghost predicate CoveredAt(s: State, k: nat)
    requires k < |s.pipe| && s.pipe[k].Reconcile?
  {
    && s.gateway.Announced?
    && s.pipe[k].query == |s.queries| - 1
    && s.queries[|s.queries| - 1].active == s.pipe[k].active
    && s.local.Keys <= Seen(s.queries[|s.queries| - 1])
    && StartsWithin(s.pipe[..k], Seen(s.queries[|s.queries| - 1]))
  }

  /** While pruning, the orphans are sessions of the query's past or of its window, and every
      session the query saw terminated is an orphan, gone, or had exited. */
  ghost predicate PruningTrue(s: State) {
    s.handler.Pruning? ==>
      && s.handler.query < |s.queries|
      && var q := s.queries[s.handler.query];
      && s.handler.orphans <= s.local.Keys
      && s.handler.orphans !! q.active
      && s.handler.orphans <= Seen(q)
      && (forall id :: id in s.local && id in q.rows - q.active ==>
            id in s.handler.orphans || id in s.handler.exited)
  }

  ghost predicate Inv(s: State) {
    RowsKnown(s) && QueriesTrue(s) && Covered(s) && PruningTrue(s) && s.sent <= |s.pipe|
  }

  lemma InvDatabase(s: State, e: Event)
    requires Inv(s) && (e.InsertRow? || e.MarkTerminated? || e.ReadState? || e.WriteState?)
    ensures Inv(Step(s, e))
  {
    var t := Step(s, e);
    assert t.queries == s.queries && t.pipe == s.pipe && t.local == s.local;
    forall q | q in t.queries ensures QueryTrue(t, q) { assert QueryTrue(s, q); }
    forall k | 0 <= k < |t.pipe| && t.pipe[k].Reconcile? ensures CoveredAt(t, k) { assert CoveredAt(s, k); }
  }

  /** Appending a Start or Kill behind whatever is pending. */
  lemma InvAppend(s: State, c: Command, routed: bool)
    requires Inv(s) && !c.Reconcile?
    requires c.Start? ==> c.id in s.db
    requires c.Start? && routed && s.gateway.Queried? && HasRoom(s) ==> c.id in Seen(s.queries[|s.queries| - 1])
    ensures Inv(Enqueue(s, c, routed))
  {
    var t := Enqueue(s, c, routed);
    forall q | q in t.queries ensures QueryTrue(t, q) { assert QueryTrue(s, q); }
    forall k | 0 <= k < |t.pipe| && t.pipe[k].Reconcile? ensures CoveredAt(t, k) {
      assert CoveredAt(s, k);
      assert t.pipe[..k] == s.pipe[..k];
    }
  }

  lemma InvWindow(s: State, id: SessionId, routed: bool)
    requires Inv(s) && id in s.db
    ensures Inv(NoteWindow(s, id, routed))
  {
    var t := NoteWindow(s, id, routed);
    forall q | q in t.queries ensures QueryTrue(t, q) {
      var i :| 0 <= i < |t.queries| && t.queries[i] == q;
      assert QueryTrue(s, s.queries[i]);
    }
    forall k | 0 <= k < |t.pipe| && t.pipe[k].Reconcile? ensures CoveredAt(t, k) { assert CoveredAt(s, k); }
  }

  lemma InvDispatch(s: State, e: Event)
    requires Inv(s) && (e.DispatchStart? || e.DispatchKill?)
    ensures Inv(Step(s, e))
  {
    if e.DispatchStart? && e.id in s.starting {
      var a := s.(starting := s.starting - {e.id});
      InvSameFlow(s, a);
      InvWindow(a, e.id, e.routed);
      InvAppend(NoteWindow(a, e.id, e.routed), Start(e.id), e.routed);
    } else if e.DispatchKill? && e.id in s.killing {
      var a := NoteKill(s, e.id, e.routed);
      InvSameFlow(s, a);
      InvAppend(a, Kill(e.id), e.routed);
    }
  }

  /** Bookkeeping of the API handlers does not enter the invariant. */
  lemma InvSameFlow(s: State, t: State)
    requires Inv(s)
    requires t == s.(starting := t.starting, killing := t.killing, early := t.early, lost := t.lost)
    requires t.starting <= s.starting
    ensures Inv(t)
  {
    forall q | q in t.queries ensures QueryTrue(t, q) { assert QueryTrue(s, q); }
    forall k | 0 <= k < |t.pipe| && t.pipe[k].Reconcile? ensures CoveredAt(t, k) { assert CoveredAt(s, k); }
  }

  lemma InvAnnounce(s: State)
    requires Inv(s) && s.gateway.Queried?
    ensures Inv(Step(s, Announce))
  {
    var t := Step(s, Announce);
    forall q | q in t.queries ensures QueryTrue(t, q) { assert QueryTrue(s, q); }
    assert forall k :: 0 <= k < |s.pipe| && s.pipe[k].Reconcile? ==> CoveredAt(s, k);
    forall k | 0 <= k < |t.pipe| && t.pipe[k].Reconcile? ensures CoveredAt(t, k) {
      assert k == |s.pipe|;
      assert t.pipe[..k] == s.pipe;
    }
  }

  lemma InvQuery(s: State)
    requires Inv(s) && s.gateway.Registered?
    ensures Inv(RunQuery(s))
  {
    var t := RunQuery(s);
    forall q | q in t.queries ensures QueryTrue(t, q) {
      if q in s.queries { assert QueryTrue(s, q); }
    }
    assert forall k :: 0 <= k < |s.pipe| && s.pipe[k].Reconcile? ==> CoveredAt(s, k);
  }

  lemma InvLink(s: State, e: Event)
    requires Inv(s) && (e.Register? || e.Transmit? || e.Disconnect?)
    ensures Inv(Step(s, e))
  {
    var t := Step(s, e);
    forall q | q in t.queries ensures QueryTrue(t, q) { assert QueryTrue(s, q); }
    assert forall k :: 0 <= k < |s.pipe| && s.pipe[k].Reconcile? ==> CoveredAt(s, k);
    forall k | 0 <= k < |t.pipe| && t.pipe[k].Reconcile? ensures CoveredAt(t, k) { assert CoveredAt(s, k); }
  }

  /** Popping the oldest command keeps what is ahead of a reconciliation covered. */
  lemma InvPop(s: State, t: State)
    requires Inv(s) && s.sent > 0 && s.pipe != [] && s.handler.Idle?
    requires t == s.(pipe := s.pipe[1..], sent := s.sent - 1, local := t.local)
    requires forall id :: id in t.local ==> id in s.local || (s.pipe[0].Start? && id == s.pipe[0].id)
    ensures Inv(t)
  {
    var c := s.pipe[0];
    assert c in s.pipe;
    forall q | q in t.queries ensures QueryTrue(t, q) { assert QueryTrue(s, q); }
    forall k | 0 <= k < |t.pipe| && t.pipe[k].Reconcile? ensures CoveredAt(t, k) {
      assert t.pipe[k] == s.pipe[k + 1] && CoveredAt(s, k + 1);
      var ahead := s.pipe[..k + 1];
      assert ahead[0] == c;
      assert forall d :: d in t.pipe[..k] ==> d in ahead;
    }
  }

  lemma InvReceive(s: State, created: bool)
    requires Inv(s) && s.handler.Idle? && s.sent > 0 && s.pipe != []
    ensures Inv(Receive(s, created))
  {
    if s.pipe[0].Reconcile? {
      var t := s.(pipe := s.pipe[1..], sent := s.sent - 1);
      InvPop(s, t);
      assert CoveredAt(s, 0);
      InvSnapshot(t, Receive(s, created), s.pipe[0].query, s.pipe[0].active);
    } else {
      InvPop(s, Receive(s, created));
    }
  }

  lemma InvSnapshot(s: State, t: State, q: nat, active: set<SessionId>)
    requires Inv(s) && q < |s.queries| && s.queries[q].active == active
    requires s.local.Keys <= Seen(s.queries[q])
    requires t == s.(handler := Pruning(q, Orphans(s.local, active),
                                           set id | id in s.local && s.local[id] == Terminated))
    ensures Inv(t)
  {
    forall q | q in t.queries ensures QueryTrue(t, q) { assert QueryTrue(s, q); }
    forall k | 0 <= k < |t.pipe| && t.pipe[k].Reconcile? ensures CoveredAt(t, k) { assert CoveredAt(s, k); }
  }

  lemma InvSatellite(s: State, e: Event)
    requires Inv(s) && (e.Prune? || e.FinishPruning? || e.LocalChange?)
    ensures Inv(Step(s, e))
  {
    var t := Step(s, e);
    forall q | q in t.queries ensures QueryTrue(t, q) { assert QueryTrue(s, q); }
    forall k | 0 <= k < |t.pipe| && t.pipe[k].Reconcile? ensures CoveredAt(t, k) { assert CoveredAt(s, k); }
  }

  lemma InvStep(s: State, e: Event)
    requires Inv(s)
    ensures Inv(Step(s, e))
  {
    match e
    case DispatchStart(_, _) => InvDispatch(s, e);
    case DispatchKill(_, _) => InvDispatch(s, e);
    case Register => InvLink(s, e);
    case Transmit => InvLink(s, e);
    case Disconnect => InvLink(s, e);
    case QueryActive => if s.gateway.Registered? { InvQuery(s); }
    case Announce => if s.gateway.Queried? { InvAnnounce(s); }
    case Deliver(created) => if s.handler.Idle? && s.sent > 0 && s.pipe != [] { InvReceive(s, created); }
    case Prune(_) => InvSatellite(s, e);
    case FinishPruning => InvSatellite(s, e);
    case LocalChange(_, _) => InvSatellite(s, e);
    case _ => InvDatabase(s, e);
  }

  lemma {:induction false} InvRun(evs: seq<Event>)
    ensures Inv(Run(evs))
  {
    if evs != [] {
      InvRun(evs[..|evs| - 1]);
      InvStep(Run(evs[..|evs| - 1]), evs[|evs| - 1]);
    }
  }

  // ---------------------------------------------------------------- results

  /** In every run, a session about to be pruned while its row is active either was started inside
      the window between query and reconciliation, or its terminated row was revived by a gateway
      write.  With neither, no active session is ever pruned. */
  lemma NoActiveSessionPruned(evs: seq<Event>, id: SessionId)
    requires var s := Run(evs); s.handler.Pruning? && id in s.handler.orphans
    ensures var s := Run(evs);
      && id in s.db && s.handler.query < |s.queries|
      && (s.db[id] != Terminated ==> id in s.queries[s.handler.query].window || id in s.revived)
  {
    InvRun(evs);
    var s := Run(evs);
    assert QueryTrue(s, s.queries[s.handler.query]);
  }

  /** The converse: a session that came through the window and runs when the reconciliation is
      received becomes an orphan, so the window is exactly what has to be excluded. */
  lemma WindowSessionIsPruned(evs: seq<Event>, id: SessionId)
    requires var s := Run(evs);
      && s.handler.Idle? && s.sent > 0 && s.pipe != [] && s.pipe[0].Reconcile?
      && s.pipe[0].query < |s.queries| && id in s.queries[s.pipe[0].query].window
      && id in s.local && s.local[id] != Terminated
    ensures var t := Receive(Run(evs), true);
      t == Step(Run(evs), Deliver(true)) && t.handler.Pruning? && id in t.handler.orphans
  {
    InvRun(evs);
    WindowIsInactive(Run(evs), id);
  }

  lemma WindowIsInactive(s: State, id: SessionId)
    requires Inv(s) && s.pipe != [] && s.pipe[0].Reconcile?
    requires s.pipe[0].query < |s.queries| && id in s.queries[s.pipe[0].query].window
    ensures id !in s.pipe[0].active
  {
    assert CoveredAt(s, 0);
    assert QueryTrue(s, s.queries[s.pipe[0].query]);
  }

  /** Lost kills converge: once the handler has no orphans left, every session whose row was
      terminated at the query is gone, unless it had already exited on the satellite. */
  lemma KilledSessionsRemoved(evs: seq<Event>, id: SessionId)
    requires var s := Run(evs);
      && s.handler.Pruning? && s.handler.orphans == {}
      && s.handler.query < |s.queries|
      && id in s.queries[s.handler.query].rows && id !in s.queries[s.handler.query].active
    ensures var s := Run(evs); id !in s.local || id in s.handler.exited
  {
    InvRun(evs);
  }

  // ---------------------------------------------------------------- what can go wrong

  /** `ss` are the states an execution of `evs` goes through. */
  ghost predicate IsTrace(ss: seq<State>, evs: seq<Event>) {
    && |ss| == |evs| + 1 && ss[0] == Init
    && forall i :: 0 <= i < |evs| ==> ss[i + 1] == Step(ss[i], evs[i])
  }

  lemma {:induction false} TraceEnds(ss: seq<State>, evs: seq<Event>)
    requires IsTrace(ss, evs)
    ensures Run(evs) == ss[|evs|]
  {
    if evs != [] {
      TraceEnds(ss[..|evs|], evs[..|evs| - 1]);
    }
  }

  lemma TraceSnoc(ss: seq<State>, evs: seq<Event>, e: Event, t: State)
    requires IsTrace(ss, evs) && t == Step(ss[|evs|], e)
    ensures IsTrace(ss + [t], evs + [e]) && (ss + [t])[|evs + [e]|] == t
  {
  }

  const Connected := Init.(gateway := Queried, queries := [Query({}, {}, {})])

  lemma ConnectedTrace() returns (ss: seq<State>, evs: seq<Event>)
    ensures IsTrace(ss, evs) && ss[|evs|] == Connected
  {
    ss, evs := [Init], [];
    var s1 := Init.(gateway := Registered);
    TraceSnoc(ss, evs, Register, s1);
    ss, evs := ss + [s1], evs + [Register];
    assert ActiveRows(s1.db) == {} && s1.db.Keys == {};
    TraceSnoc(ss, evs, QueryActive, Connected);
    ss, evs := ss + [Connected], evs + [QueryActive];
  }

  const InWindow := Connected.(db := map[1 := Provisioning], queries := [Query({}, {}, {1})],
                               pipe := [Start(1), Reconcile({}, 0)], sent := 2, gateway := Announced)

  lemma WindowTrace() returns (ss: seq<State>, evs: seq<Event>)
    ensures IsTrace(ss, evs) && ss[|evs|] == InWindow
  {
    ss, evs := ConnectedTrace();
    var s1 := Connected.(db := map[1 := Provisioning], starting := {1});
    TraceSnoc(ss, evs, InsertRow(1), s1);
    ss, evs := ss + [s1], evs + [InsertRow(1)];
    var s2 := s1.(starting := {}, queries := [Query({}, {}, {1})], pipe := [Start(1)]);
    TraceSnoc(ss, evs, DispatchStart(1, true), s2);
    ss, evs := ss + [s2], evs + [DispatchStart(1, true)];
    var s3 := InWindow.(sent := 0);
    TraceSnoc(ss, evs, Announce, s3);
    ss, evs := ss + [s3], evs + [Announce];
    var s4 := InWindow.(sent := 1);
    TraceSnoc(ss, evs, Transmit, s4);
    ss, evs := ss + [s4], evs + [Transmit];
    TraceSnoc(ss, evs, Transmit, InWindow);
    ss, evs := ss + [InWindow], evs + [Transmit];
  }

  /** The stream is registered before the query, so a session created in between is told to start
      and then pruned although its row is active. */
  lemma CreateInWindowIsPruned() returns (evs: seq<Event>)
    ensures var s := Run(evs);
      && 1 in s.db && s.db[1] != Terminated && s.revived == {}
      && s.handler == Pruning(0, {1}, {}) && 1 !in Step(s, Prune(1)).local
  {
    var ss;
    ss, evs := WindowTrace();
    var s1 := InWindow.(pipe := [Reconcile({}, 0)], sent := 1, local := map[1 := Running]);
    assert s1.pipe == InWindow.pipe[1..];
    TraceSnoc(ss, evs, Deliver(true), s1);
    ss, evs := ss + [s1], evs + [Deliver(true)];
    var s2 := s1.(pipe := [], sent := 0, handler := Pruning(0, {1}, {}));
    SnapshotStep(s1);
    TraceSnoc(ss, evs, Deliver(true), s2);
    TraceEnds(ss + [s2], evs + [Deliver(true)]);
    evs := evs + [Deliver(true)];
  }

  lemma SnapshotStep(s: State)
    requires s.pipe == [Reconcile({}, 0)] && s.sent == 1 && s.local == map[1 := Running] && s.handler == Idle
    ensures Step(s, Deliver(true)) == s.(pipe := [], sent := 0, handler := Pruning(0, {1}, {}))
  {
    var t := Step(s, Deliver(true));
    assert t.handler.orphans == {1} && t.handler.exited == {} && t.pipe == [];
  }

  /** The gateway read the row at step k, found the transition to `to` allowed, and has not stored it since. */
  ghost predicate CheckedAt(evs: seq<Event>, id: SessionId, to: SessionState, k: nat)
    requires k < |evs|
  {
    && evs[k] == ReadState(id, to)
    && id in Run(evs[..k]).db && ValidTransition(Run(evs[..k]).db[id], to)
    && forall j :: k < j < |evs| ==> evs[j] != WriteState(id, to)
  }

  ghost predicate Checked(evs: seq<Event>, id: SessionId, to: SessionState) {
    exists k :: 0 <= k < |evs| && CheckedAt(evs, id, to, k)
  }

  lemma CheckedAtSnoc(evs: seq<Event>, id: SessionId, to: SessionState, k: nat)
    requires k + 1 < |evs|
    ensures CheckedAt(evs, id, to, k) <==> CheckedAt(evs[..|evs| - 1], id, to, k) && evs[|evs| - 1] != WriteState(id, to)
  {
    hide Run;
    var pre := evs[..|evs| - 1];
    assert pre[..k] == evs[..k];
    assert forall j :: k < j < |pre| ==> pre[j] == evs[j];
  }

  lemma UpdatingStep(s: State, e: Event, id: SessionId, to: SessionState)
    requires forall p :: p in s.updating ==> p.0 in s.db
    ensures forall p :: p in Step(s, e).updating ==> p.0 in Step(s, e).db
    ensures (id, to) in Step(s, e).updating <==>
      if e == ReadState(id, to) && id in s.db && ValidTransition(s.db[id], to) then true
      else (id, to) in s.updating && e != WriteState(id, to)
  {
  }

  lemma CheckedSnoc(evs: seq<Event>, id: SessionId, to: SessionState)
    requires evs != []
    ensures Checked(evs, id, to) <==>
      CheckedAt(evs, id, to, |evs| - 1) || (Checked(evs[..|evs| - 1], id, to) && evs[|evs| - 1] != WriteState(id, to))
  {
    hide CheckedAt;
    var n := |evs| - 1;
    var pre := evs[..n];
    forall k | 0 <= k < n
      ensures CheckedAt(evs, id, to, k) <==> CheckedAt(pre, id, to, k) && evs[n] != WriteState(id, to)
    {
      CheckedAtSnoc(evs, id, to, k);
    }
  }

  /** A transition waits to be stored exactly when it was checked and has not been stored since. */
  lemma {:induction false} UpdatingIffChecked(evs: seq<Event>, id: SessionId, to: SessionState)
    ensures forall p :: p in Run(evs).updating ==> p.0 in Run(evs).db
    ensures (id, to) in Run(evs).updating <==> Checked(evs, id, to)
  {
    if evs != [] {
      hide Step, CheckedAt, Checked;
      var n := |evs| - 1;
      UpdatingIffChecked(evs[..n], id, to);
      UpdatingStep(Run(evs[..n]), evs[n], id, to);
      LastChecked(evs, id, to);
      CheckedSnoc(evs, id, to);
    }
  }

  lemma LastChecked(evs: seq<Event>, id: SessionId, to: SessionState)
    requires evs != []
    ensures var s, n := Run(evs[..|evs| - 1]), |evs| - 1;
      CheckedAt(evs, id, to, n) <==> evs[n] == ReadState(id, to) && id in s.db && ValidTransition(s.db[id], to)
  {
    hide Run;
  }

  lemma RevivingStep(s: State, e: Event, id: SessionId)
    requires id in s.db && s.db[id] == Terminated
    ensures id in Step(s, e).db
    ensures Step(s, e).db[id] != Terminated
      <==> e.WriteState? && e.id == id && e.to != Terminated && (id, e.to) in s.updating
  {
  }

  /** A terminated row becomes active again exactly when the gateway stores a transition that it checked
      while the row was not terminated and has not stored since. */
  lemma TerminatedRowRevives(evs: seq<Event>, e: Event, id: SessionId)
    requires id in Run(evs).db && Run(evs).db[id] == Terminated
    ensures id in Step(Run(evs), e).db
    ensures Step(Run(evs), e).db[id] != Terminated
      <==> e.WriteState? && e.id == id && e.to != Terminated && Checked(evs, id, e.to)
    ensures forall to, k :: 0 <= k < |evs| && CheckedAt(evs, id, to, k) ==> Run(evs[..k]).db[id] != Terminated
  {
    hide Step, Checked, Run;
    RevivingStep(Run(evs), e, id);
    if e.WriteState? {
      UpdatingIffChecked(evs, id, e.to);
    }
  }

  /** Such a run: the kill commits between the gateway's read and its write. */
  lemma KillIsOverwritten() returns (evs: seq<Event>)
    ensures var s := Run(evs); 1 in s.db && s.db[1] == Terminated
    ensures var s := Run(evs + [WriteState(1, Running)]); 1 in s.db && s.db[1] == Running && s.revived == {1}
  {
    var s1 := Init.(db := map[1 := Provisioning], starting := {1});
    var s2 := s1.(updating := {(1, Running)});
    var s3 := s2.(db := map[1 := Terminated], killing := {1});
    var s4 := s3.(db := map[1 := Running], updating := {}, revived := {1});
    TraceSnoc([Init], [], InsertRow(1), s1);
    TraceSnoc([Init] + [s1], [] + [InsertRow(1)], ReadState(1, Running), s2);
    var ss := [Init] + [s1] + [s2];
    evs := [] + [InsertRow(1)] + [ReadState(1, Running)];
    TraceSnoc(ss, evs, MarkTerminated(1), s3);
    ss, evs := ss + [s3], evs + [MarkTerminated(1)];
    TraceEnds(ss, evs);
    TraceSnoc(ss, evs, WriteState(1, Running), s4);
    TraceEnds(ss + [s4], evs + [WriteState(1, Running)]);
  }

  // ---------------------------------------------------------------- when a kill stops its session

  predicate NoStart(cs: seq<Command>, id: SessionId) { Start(id) !in cs }

  /** A Kill with no Start of the same session behind it. */
  ghost predicate KillComing(cs: seq<Command>, id: SessionId) {
    exists k :: 0 <= k < |cs| && cs[k] == Kill(id) && NoStart(cs[k..], id)
  }

  predicate Excused(s: State, id: SessionId) {
    id in s.revived || id in s.early || id in s.lost || id in s.silent
  }

  /** The kill is still to be dispatched, or on its way with no start behind it, or has done its work. */
  ghost predicate KillTrue(s: State, id: SessionId) {
    id in s.db && s.db[id] == Terminated && !Excused(s, id) ==>
      || id in s.killing
      || (id !in s.starting && KillComing(s.pipe, id))
      || (id !in s.starting && id !in s.local && NoStart(s.pipe, id))
  }

  lemma KillComingAppend(cs: seq<Command>, c: Command, id: SessionId)
    requires c != Start(id)
    ensures KillComing(cs, id) || c == Kill(id) ==> KillComing(cs + [c], id)
    ensures NoStart(cs, id) ==> NoStart(cs + [c], id)
  {
    var ds := cs + [c];
    if c == Kill(id) {
      assert ds[|cs|] == Kill(id) && ds[|cs|..] == [c];
    } else if KillComing(cs, id) {
      var k :| 0 <= k < |cs| && cs[k] == Kill(id) && NoStart(cs[k..], id);
      assert ds[k] == Kill(id) && ds[k..] == cs[k..] + [c];
    }
  }

  lemma KillComingPop(cs: seq<Command>, id: SessionId)
    requires cs != [] && KillComing(cs, id)
    ensures KillComing(cs[1..], id) || (cs[0] == Kill(id) && NoStart(cs[1..], id))
  {
    var k :| 0 <= k < |cs| && cs[k] == Kill(id) && NoStart(cs[k..], id);
    if k > 0 {
      assert cs[1..][k - 1] == Kill(id) && cs[1..][k - 1..] == cs[k..];
    } else {
      assert forall c :: c in cs[1..] ==> c in cs[0..];
    }
  }

  lemma KillTrueReceive(s: State, created: bool, id: SessionId)
    requires KillTrue(s, id) && s.sent > 0 && s.pipe != []
    ensures KillTrue(Receive(s, created), id)
  {
    if KillComing(s.pipe, id) {
      KillComingPop(s.pipe, id);
    }
    assert forall c :: c in s.pipe[1..] ==> c in s.pipe;
    assert s.pipe[0] in s.pipe;
  }

  /** A command other than the session's Start appended, nothing else about the session changed. */
  lemma KillTrueAppend(s: State, t: State, c: Command, id: SessionId)
    requires KillTrue(s, id) && c != Start(id) && (t.pipe == s.pipe || t.pipe == s.pipe + [c])
    requires t.db == s.db && t.local == s.local && (Excused(s, id) ==> Excused(t, id))
    requires (id in t.starting <==> id in s.starting) && (id in t.killing <==> id in s.killing)
    ensures KillTrue(t, id)
  {
    hide Excused;
    KillComingAppend(s.pipe, c, id);
  }

  lemma KillTrueKill(s: State, id: SessionId, routed: bool)
    requires KillTrue(s, id)
    ensures KillTrue(Step(s, DispatchKill(id, routed)), id)
  {
    KillComingAppend(s.pipe, Kill(id), id);
  }

  lemma KillTrueStart(s: State, id: SessionId, routed: bool)
    requires KillTrue(s, id)
    ensures KillTrue(Step(s, DispatchStart(id, routed)), id)
  {
    hide KillComing, NoStart;
  }

  lemma KillTrueAnnounce(s: State, id: SessionId)
    requires KillTrue(s, id)
    ensures KillTrue(Step(s, Announce), id)
  {
    hide KillTrue;
    if s.queries != [] {
      KillTrueAppend(s, Step(s, Announce), Reconcile(s.queries[|s.queries| - 1].active, |s.queries| - 1), id);
    }
  }

  lemma KillTrueOther(s: State, e: Event, id: SessionId)
    requires KillTrue(s, id) && (e.DispatchStart? || e.DispatchKill?) && e.id != id
    ensures KillTrue(Step(s, e), id)
  {
    hide KillTrue;
    KillTrueAppend(s, Step(s, e), if e.DispatchStart? then Start(e.id) else Kill(e.id), id);
  }

  lemma KillTrueDispatch(s: State, e: Event, id: SessionId)
    requires KillTrue(s, id) && (e.DispatchStart? || e.DispatchKill? || e.Announce?)
    ensures KillTrue(Step(s, e), id)
  {
    hide KillTrue, Step;
    if e.Announce? {
      KillTrueAnnounce(s, id);
    } else if e.id != id {
      KillTrueOther(s, e, id);
    } else if e.DispatchKill? {
      KillTrueKill(s, id, e.routed);
    } else {
      KillTrueStart(s, id, e.routed);
    }
  }

  lemma KillTrueDisconnect(s: State, id: SessionId)
    requires KillTrue(s, id)
    ensures KillTrue(Step(s, Disconnect), id)
  {
    if KillComing(s.pipe, id) {
      assert Kill(id) in s.pipe && id in Kills(s.pipe);
    }
  }

  lemma KillTrueStep(s: State, e: Event, id: SessionId)
    requires KillTrue(s, id)
    ensures KillTrue(Step(s, e), id)
  {
    if e.DispatchStart? || e.DispatchKill? || e.Announce? {
      KillTrueDispatch(s, e, id);
    } else if e.Disconnect? {
      KillTrueDisconnect(s, id);
    } else if e.Deliver? {
      if s.handler.Idle? && s.sent > 0 && s.pipe != [] {
        KillTrueReceive(s, e.created, id);
      }
    } else {
      assert Step(s, e).pipe == s.pipe;
    }
  }

  lemma {:induction false} KillTrueRun(evs: seq<Event>, id: SessionId)
    ensures KillTrue(Run(evs), id)
  {
    if evs != [] {
      KillTrueRun(evs[..|evs| - 1], id);
      hide KillTrue, Step;
      KillTrueStep(Run(evs[..|evs| - 1]), evs[|evs| - 1], id);
    }
  }

  /** Nothing about the session is under way between the API handlers and the satellite. */
  predicate Settled(s: State, id: SessionId) {
    id !in s.starting && id !in s.killing && Start(id) !in s.pipe && Kill(id) !in s.pipe
  }

  /** A kill stops its session: in every run, if a row is terminated, nothing is under way for it and the
      satellite still has the session, then the kill was dispatched before the start, or was refused or
      dropped with the connection, or there was none because the row was terminated by a reported state,
      or the row had been revived. */
  lemma KillStopsItsSession(evs: seq<Event>, id: SessionId)
    requires var s := Run(evs); id in s.db && s.db[id] == Terminated && Settled(s, id) && id in s.local
    ensures Excused(Run(evs), id)
  {
    KillTrueRun(evs, id);
  }

  /** The states `evs` leads through from any state. */
  function RunFrom(s: State, evs: seq<Event>): State
    decreases evs
  {
    if evs == [] then s else RunFrom(Step(s, evs[0]), evs[1..])
  }

  lemma {:induction false} RunConcat(evs: seq<Event>, more: seq<Event>)
    ensures Run(evs + more) == RunFrom(Run(evs), more)
    decreases more
  {
    hide Step;
    if more == [] {
      assert evs + more == evs;
    } else {
      assert (evs + [more[0]])[..|evs|] == evs;
      RunConcat(evs + [more[0]], more[1..]);
      assert evs + more == (evs + [more[0]]) + more[1..];
    }
  }

  lemma OneMore(s: State, e: Event, rest: seq<Event>)
    ensures RunFrom(s, [e] + rest) == RunFrom(Step(s, e), rest)
  {
    assert ([e] + rest)[1..] == rest;
  }

  lemma {:induction false} RunFromConcat(s: State, a: seq<Event>, b: seq<Event>)
    ensures RunFrom(s, a + b) == RunFrom(RunFrom(s, a), b)
    decreases a
  {
    hide Step;
    if a == [] {
      assert a + b == b;
    } else {
      RunFromConcat(Step(s, a[0]), a[1..], b);
      assert (a + b)[1..] == a[1..] + b;
    }
  }

  /** The reconciliation under way is finished: its orphans are gone, and nothing else has changed. */
  ghost predicate Drained(s: State, t: State) {
    t == s.(handler := Idle, local := if s.handler.Pruning? then s.local - s.handler.orphans else s.local)
  }

  lemma {:induction false} DrainOrphans(s: State) returns (evs: seq<Event>)
    ensures Drained(s, RunFrom(s, evs))
    decreases if s.handler.Pruning? then |s.handler.orphans| + 1 else 0
  {
    evs := [];
    if s.handler.Pruning? {
      if s.handler.orphans == {} {
        OneMore(s, FinishPruning, []);
        evs := [FinishPruning] + [];
      } else {
        var id :| id in s.handler.orphans;
        var rest := DrainOrphans(Step(s, Prune(id)));
        OneMore(s, Prune(id), rest);
        evs := [Prune(id)] + rest;
      }
    }
  }

  /** The satellite runs a session whose row is terminated, and nothing on its way will stop it. */
  predicate LeftRunning(s: State, id: SessionId) {
    id in s.db && s.db[id] == Terminated && Settled(s, id) && id in s.local && s.local[id] == Running
  }

  lemma OvertakenDispatch(s: State, id: SessionId)
    requires s.gateway == Registered && s.pipe == [] && s.sent == 0 && id in s.starting && id in s.killing
    ensures var t := Step(Step(s, DispatchKill(id, true)), DispatchStart(id, true));
      t == s.(starting := s.starting - {id}, killing := s.killing - {id}, early := s.early + {id}, pipe := [Kill(id), Start(id)])
  {
    var a := Step(s, DispatchKill(id, true));
    assert a.pipe == [Kill(id)] && a.gateway == Registered;
    assert NoteWindow(a.(starting := a.starting - {id}), id, true) == a.(starting := a.starting - {id});
  }

  lemma OvertakenDelivery(s: State, id: SessionId)
    requires s.pipe == [Kill(id), Start(id)] && s.sent == 0 && s.handler.Idle?
    ensures var t := Step(Step(Step(Step(s, Transmit), Transmit), Deliver(true)), Deliver(true));
      t == s.(pipe := [], local := (s.local - {id})[id := Running])
  {
    var a := Step(Step(s, Transmit), Transmit);
    assert a == s.(sent := 2);
    var b := Step(a, Deliver(true));
    assert s.pipe[1..] == [Start(id)];
    assert b == s.(sent := 1, pipe := [Start(id)], local := s.local - {id});
    assert [Start(id)][1..] == [];
  }

  lemma Overtake(s: State, id: SessionId) returns (evs: seq<Event>)
    requires s.gateway == Offline && s.pipe == [] && s.sent == 0 && s.handler.Idle?
    requires id in s.starting && id in s.killing && id in s.db && s.db[id] == Terminated
    ensures LeftRunning(RunFrom(s, evs), id) && RunFrom(s, evs).early == s.early + {id}
    ensures RunFrom(s, evs).lost == s.lost && RunFrom(s, evs).silent == s.silent && RunFrom(s, evs).revived == s.revived
  {
    var a := Step(s, Register);
    assert a == s.(gateway := Registered);
    OvertakenDispatch(a, id);
    var b := Step(a, DispatchKill(id, true));
    var c := Step(b, DispatchStart(id, true));
    OvertakenDelivery(c, id);
    hide Step;
    var d := Step(c, Transmit);
    var e := Step(d, Transmit);
    var f := Step(e, Deliver(true));
    evs := [Register] + ([DispatchKill(id, true)] + ([DispatchStart(id, true)]
           + ([Transmit] + ([Transmit] + ([Deliver(true)] + ([Deliver(true)] + []))))));
    OneMore(f, Deliver(true), []);
    OneMore(e, Deliver(true), [Deliver(true)] + []);
    OneMore(d, Transmit, [Deliver(true)] + ([Deliver(true)] + []));
    OneMore(c, Transmit, [Transmit] + ([Deliver(true)] + ([Deliver(true)] + [])));
    OneMore(b, DispatchStart(id, true), [Transmit] + ([Transmit] + ([Deliver(true)] + ([Deliver(true)] + []))));
    OneMore(a, DispatchKill(id, true), [DispatchStart(id, true)]
            + ([Transmit] + ([Transmit] + ([Deliver(true)] + ([Deliver(true)] + [])))));
    OneMore(s, Register, [DispatchKill(id, true)] + ([DispatchStart(id, true)]
            + ([Transmit] + ([Transmit] + ([Deliver(true)] + ([Deliver(true)] + []))))));
  }

  /** The converse: from any point of any run at which a session's kill and start both wait to be
      dispatched, the kill can go first, and then the satellite is left running the session.  The run
      begins with a disconnect, which drops the kills then in the channel; no other kill is lost. */
  lemma KillOvertakesStart(evs: seq<Event>, id: SessionId) returns (more: seq<Event>)
    requires var s := Run(evs); id in s.starting && id in s.killing && id in s.db && s.db[id] == Terminated
    ensures var s, t := Run(evs), Run(evs + more);
      && LeftRunning(t, id) && id in t.early
      && t.lost == s.lost + Kills(s.pipe) && t.silent == s.silent && t.revived == s.revived
  {
    var s := Run(evs);
    var a := Step(s, Disconnect);
    var drain := DrainOrphans(a);
    var b := RunFrom(a, drain);
    var rest := Overtake(b, id);
    hide Run, RunFrom, Step;
    more := [Disconnect] + (drain + rest);
    RunFromConcat(a, drain, rest);
    OneMore(s, Disconnect, drain + rest);
    RunConcat(evs, more);
  }

  /** Such a point is reached from any run with any session that does not exist yet. */
  lemma KillBeforeStart(evs: seq<Event>, id: SessionId)
    requires id !in Run(evs).db
    ensures var s := Run(evs + [InsertRow(id)] + [MarkTerminated(id)]);
      id in s.starting && id in s.killing && id in s.db && s.db[id] == Terminated
  {
    var a := evs + [InsertRow(id)];
    assert a[..|a| - 1] == evs;
    assert (a + [MarkTerminated(id)])[..|a|] == a;
  }

  // ---------------------------------------------------------------- what the commands achieve

  lemma Snoc(evs: seq<Event>, e: Event)
    ensures Run(evs + [e]) == Step(Run(evs), e)
  {
    assert (evs + [e])[..|evs|] == evs;
  }

  /** A stream is registered, in whatever phase its connection is. */
  predicate Online(s: State) { s.gateway.Registered? || s.gateway.Queried? || s.gateway.Announced? }

  /** Dispatching a start, from any point of any run: the command is sent exactly when the satellite's stream
      is found, in any phase of its connection, and fewer than 100 commands wait in its channel. */
  lemma StartIsSentIff(evs: seq<Event>, id: SessionId, routed: bool)
    requires id in Run(evs).starting
    ensures var s, t := Run(evs), Run(evs + [DispatchStart(id, routed)]);
      && id !in t.starting && t.local == s.local && t.db == s.db
      && t.pipe == if routed && Online(s) && |s.pipe| - s.sent < 100 then s.pipe + [Start(id)] else s.pipe
  {
    Snoc(evs, DispatchStart(id, routed));
    hide Run;
  }

  /** The same for a kill; a kill that is not sent is lost. */
  lemma KillIsSentIff(evs: seq<Event>, id: SessionId, routed: bool)
    requires id in Run(evs).killing
    ensures var s, t := Run(evs), Run(evs + [DispatchKill(id, routed)]);
      && id !in t.killing && t.local == s.local && t.db == s.db
      && (if routed && Online(s) && |s.pipe| - s.sent < 100 then t.pipe == s.pipe + [Kill(id)] && t.lost == s.lost
          else t.pipe == s.pipe && t.lost == s.lost + {id})
  {
    Snoc(evs, DispatchKill(id, routed));
    hide Run;
  }

  /** A kill request terminates any row that is not terminated yet and leaves a kill to dispatch. */
  lemma KillMarks(evs: seq<Event>, id: SessionId)
    ensures var s, t := Run(evs), Run(evs + [MarkTerminated(id)]);
      if id in s.db && s.db[id] != Terminated
      then t == s.(db := s.db[id := Terminated], killing := s.killing + {id}) else t == s
  {
    Snoc(evs, MarkTerminated(id));
    hide Run;
  }

  /** A checked transition is stored as it was reported, over whatever state the row has by then. */
  lemma CheckedStateIsStored(evs: seq<Event>, id: SessionId, to: SessionState)
    ensures var s, t := Run(evs), Run(evs + [WriteState(id, to)]);
      if Checked(evs, id, to) then id in s.db && t.db == s.db[id := to] else t == s
  {
    UpdatingIffChecked(evs, id, to);
    Snoc(evs, WriteState(id, to));
    hide Run, Checked;
  }

  /** The satellite handles its oldest command and whatever that makes it prune. */
  lemma HandleOne(s: State) returns (evs: seq<Event>)
    requires s.handler.Idle? && s.sent <= |s.pipe| && s.pipe != []
    ensures var t := RunFrom(s, evs);
      && t.handler.Idle? && t.pipe == s.pipe[1..] && t.sent <= |t.pipe|
      && (s.pipe[0].Start? ==> t.local == s.local[s.pipe[0].id := Running])
      && (s.pipe[0].Kill? ==> t.local == s.local - {s.pipe[0].id})
      && (s.pipe[0].Reconcile? ==> t.local == s.local - Orphans(s.local, s.pipe[0].active))
      && t == s.(handler := Idle, pipe := t.pipe, sent := t.sent, local := t.local)
  {
    var a := if s.sent == 0 then Step(s, Transmit) else s;
    assert a == s.(sent := if s.sent == 0 then 1 else s.sent);
    var b := Step(a, Deliver(true));
    assert b == Receive(a, true);
    var drain := DrainOrphans(b);
    hide Step, RunFrom;
    OneMore(a, Deliver(true), drain);
    evs := [Deliver(true)] + drain;
    if s.sent == 0 {
      OneMore(s, Transmit, evs);
      evs := [Transmit] + evs;
    }
  }

  /** The commands of the pipe are handled in order, the last one last. */
  lemma {:induction false} HandleAll(s: State) returns (evs: seq<Event>)
    requires s.handler.Idle? && s.sent <= |s.pipe|
    ensures var t := RunFrom(s, evs);
      && t.handler.Idle? && t.pipe == [] && t.sent == 0
      && t == s.(handler := Idle, pipe := [], sent := 0, local := t.local) && (s.pipe == [] ==> t.local == s.local)
      && (s.pipe != [] ==>
            var c := s.pipe[|s.pipe| - 1];
            && (c.Start? ==> c.id in t.local && t.local[c.id] == Running)
            && (c.Kill? ==> c.id !in t.local))
    decreases |s.pipe|
  {
    if s.pipe == [] {
      evs := [];
    } else {
      var first := HandleOne(s);
      var m := RunFrom(s, first);
      var rest := HandleAll(m);
      hide Step, RunFrom;
      RunFromConcat(s, first, rest);
      evs := first + rest;
      if |s.pipe| > 1 {
        assert m.pipe[|m.pipe| - 1] == s.pipe[|s.pipe| - 1];
      }
    }
  }

  /** What the last command of the pipe leaves behind once it is handled. */
  ghost predicate Decided(s: State, t: State) {
    && t.handler.Idle? && t.pipe == [] && t.db == s.db && t.gateway == s.gateway
    && (s.pipe != [] ==>
          var c := s.pipe[|s.pipe| - 1];
          && (c.Start? ==> c.id in t.local && t.local[c.id] == Running)
          && (c.Kill? ==> c.id !in t.local))
  }

  lemma DrainAndHandle(s: State) returns (evs: seq<Event>)
    requires s.sent <= |s.pipe|
    ensures Decided(s, RunFrom(s, evs))
  {
    hide Step, RunFrom;
    var drain := DrainOrphans(s);
    var rest := HandleAll(RunFrom(s, drain));
    RunFromConcat(s, drain, rest);
    evs := drain + rest;
  }

  /** From any point of any run everything on its way can reach the satellite, and the last command decides. */
  lemma PipeCanBeHandled(evs: seq<Event>) returns (more: seq<Event>)
    ensures Decided(Run(evs), Run(evs + more))
  {
    assert Run(evs).sent <= |Run(evs).pipe| by { InvRun(evs); }
    hide Run, Step, RunFrom;
    more := DrainAndHandle(Run(evs));
    RunConcat(evs, more);
  }

  /** Creating a session works: from any point of any run at which its start is sent, the satellite can come
      to run it. */
  lemma SentStartRuns(evs: seq<Event>, id: SessionId) returns (more: seq<Event>)
    requires var s := Run(evs); id in s.starting && Online(s) && |s.pipe| - s.sent < 100
    ensures var t := Run(evs + [DispatchStart(id, true)] + more); id in t.local && t.local[id] == Running
  {
    hide Run;
    StartIsSentIff(evs, id, true);
    more := PipeCanBeHandled(evs + [DispatchStart(id, true)]);
  }

  /** And so does killing it. */
  lemma SentKillStops(evs: seq<Event>, id: SessionId) returns (more: seq<Event>)
    requires var s := Run(evs); id in s.killing && Online(s) && |s.pipe| - s.sent < 100
    ensures id !in Run(evs + [DispatchKill(id, true)] + more).local
  {
    hide Run;
    KillIsSentIff(evs, id, true);
    more := PipeCanBeHandled(evs + [DispatchKill(id, true)]);
  }

  /** What reconciliation takes for an orphan and what for exited, when the message is handled. */
  lemma OrphansAtReceipt(evs: seq<Event>, id: SessionId)
    requires var s := Run(evs); s.handler.Idle? && s.sent > 0 && s.pipe != [] && s.pipe[0].Reconcile?
    ensures var s, t := Run(evs), Run(evs + [Deliver(true)]);
      && t.handler.Pruning? && t.handler.query == s.pipe[0].query && t.local == s.local
      && (id in t.handler.orphans <==> id in s.local && s.local[id] != Terminated && id !in s.pipe[0].active)
      && (id in t.handler.exited <==> id in s.local && s.local[id] == Terminated)
  {
    Snoc(evs, Deliver(true));
    hide Run;
  }

  predicate QueriedAt(evs: seq<Event>, q: nat, k: nat)
    requires k < |evs|
  {
    evs[k] == QueryActive && Run(evs[..k]).gateway.Registered? && |Run(evs[..k]).queries| == q
  }

  /** Query q was made at some step, and its answer is the rows that existed then and, of these, those that
      were not terminated. */
  ghost predicate QueryReads(evs: seq<Event>, q: nat, rows: set<SessionId>, active: set<SessionId>) {
    exists k :: 0 <= k < |evs| && QueriedAt(evs, q, k) && rows == Run(evs[..k]).db.Keys
      && forall id :: id in active <==> id in Run(evs[..k]).db && Run(evs[..k]).db[id] != Terminated
  }

  lemma QueryReadsLater(evs: seq<Event>, q: nat, rows: set<SessionId>, active: set<SessionId>)
    requires evs != [] && QueryReads(evs[..|evs| - 1], q, rows, active)
    ensures QueryReads(evs, q, rows, active)
  {
    hide Run;
    var pre := evs[..|evs| - 1];
    var k :| 0 <= k < |pre| && QueriedAt(pre, q, k) && rows == Run(pre[..k]).db.Keys
      && forall id :: id in active <==> id in Run(pre[..k]).db && Run(pre[..k]).db[id] != Terminated;
    assert pre[..k] == evs[..k];
    assert QueriedAt(evs, q, k);
  }

  lemma QueriesStep(s: State, e: Event)
    ensures var t := Step(s, e);
      if e.QueryActive? && s.gateway.Registered? then |t.queries| == |s.queries| + 1
        && t.queries[..|s.queries|] == s.queries && t.queries[|s.queries|].rows == s.db.Keys
        && (forall id :: id in t.queries[|s.queries|].active <==> id in s.db && s.db[id] != Terminated)
      else |t.queries| == |s.queries| && forall q :: 0 <= q < |s.queries| ==>
        t.queries[q].rows == s.queries[q].rows && t.queries[q].active == s.queries[q].active
  {
  }

  /** The list a satellite is sent is what the table held at one moment of its connection. */
  lemma {:induction false} QueriesReadTheTable(evs: seq<Event>, q: nat)
    requires q < |Run(evs).queries|
    ensures QueryReads(evs, q, Run(evs).queries[q].rows, Run(evs).queries[q].active)
  {
    if evs != [] {
      var n := |evs| - 1;
      var s := Run(evs[..n]);
      QueriesStep(s, evs[n]);
      hide Step;
      if q < |s.queries| {
        QueriesReadTheTable(evs[..n], q);
        hide Run;
        QueryReadsLater(evs, q, s.queries[q].rows, s.queries[q].active);
        assert Run(evs).queries[q].rows == s.queries[q].rows;
      } else {
        assert QueriedAt(evs, q, n);
      }
    }
  }

  lemma ConnectSteps(s: State)
    ensures var t := Step(Step(Step(Step(s, Disconnect), Register), QueryActive), Announce);
      && t.gateway.Announced? && t.db == s.db && t.local == s.local && t.handler == s.handler && t.sent == 0
      && |t.pipe| == 1 && t.pipe[0].Reconcile?
      && (forall id :: id in t.pipe[0].active <==> id in s.db && s.db[id] != Terminated)
  {
    var b := Step(Step(s, Disconnect), Register);
    assert b == s.(gateway := Registered, pipe := [], sent := 0, lost := b.lost);
    var c := Step(b, QueryActive);
    assert c == b.(gateway := Queried, queries := s.queries + [Query(ActiveRows(s.db), s.db.Keys, {})]);
  }

  /** Reconnecting converges: from any point of any run, a new connection that is left alone leaves the
      satellite with exactly the sessions it had whose rows are not terminated or that had exited. */
  lemma ReconnectConverges(evs: seq<Event>) returns (more: seq<Event>)
    requires Run(evs).handler.Idle?
    ensures var s, t := Run(evs), Run(evs + more);
      && t.gateway.Announced? && t.handler.Idle? && t.pipe == [] && t.db == s.db
      && (forall id :: id in t.local <==> id in s.local && (s.local[id] == Terminated || (id in s.db && s.db[id] != Terminated)))
      && (forall id :: id in t.local ==> t.local[id] == s.local[id])
  {
    var s := Run(evs);
    assert s.local.Keys <= s.db.Keys by { InvRun(evs); }
    hide Run, Step, RunFrom;
    var a := Step(s, Disconnect);
    var b := Step(a, Register);
    var c := Step(b, QueryActive);
    var e := Step(c, Announce);
    ConnectSteps(s);
    var rest := HandleOne(e);
    OneMore(c, Announce, rest);
    OneMore(b, QueryActive, [Announce] + rest);
    OneMore(a, Register, [QueryActive] + ([Announce] + rest));
    OneMore(s, Disconnect, [Register] + ([QueryActive] + ([Announce] + rest)));
    more := [Disconnect] + ([Register] + ([QueryActive] + ([Announce] + rest)));
    RunConcat(evs, more);
  }

  /** A session whose process has exited keeps its entry over a reconnect, even if its row is terminated. */
  lemma ExitedSurvivesReconnect(evs: seq<Event>, id: SessionId) returns (more: seq<Event>)
    requires Run(evs).handler.Idle? && id in Run(evs).local
    ensures var t := Run(evs + [LocalChange(id, Terminated)] + more);
      t.gateway.Announced? && t.handler.Idle? && id in t.local && t.local[id] == Terminated
  {
    Snoc(evs, LocalChange(id, Terminated));
    var s := Run(evs + [LocalChange(id, Terminated)]);
    assert s.handler.Idle? && id in s.local && s.local[id] == Terminated;
    hide Run, Step;
    more := ReconnectConverges(evs + [LocalChange(id, Terminated)]);
  }

  // ---------------------------------------------------------------- what the recorded sets mean

  /** Some step of the run was such an event in such a state. */
  ghost predicate Happened(evs: seq<Event>, p: (State, Event) -> bool) {
    exists k :: 0 <= k < |evs| && p(Run(evs[..k]), evs[k])
  }

  lemma HappenedSnoc(evs: seq<Event>, p: (State, Event) -> bool)
    requires evs != []
    ensures Happened(evs, p) <==> Happened(evs[..|evs| - 1], p) || p(Run(evs[..|evs| - 1]), evs[|evs| - 1])
  {
    hide Run;
    var pre := evs[..|evs| - 1];
    assert forall k :: 0 <= k < |pre| ==> pre[..k] == evs[..k] && pre[k] == evs[k];
  }

  /** A kill of the session is refused, because no stream is found, the satellite is offline or its channel is
      full; or is dropped with the connection. */
  predicate LosesKill(s: State, e: Event, id: SessionId) {
    || (e.DispatchKill? && e.id == id && id in s.killing && (!e.routed || s.gateway.Offline? || |s.pipe| - s.sent >= 100))
    || (e.Disconnect? && Kill(id) in s.pipe)
  }

  /** A kill of the session is dispatched while its start still waits. */
  predicate KillsFirst(s: State, e: Event, id: SessionId) {
    e.DispatchKill? && e.id == id && id in s.killing && id in s.starting
  }

  /** The gateway stores a reported state that it has checked: a terminated one, or any other over it. */
  predicate EndsSilently(s: State, e: Event, id: SessionId) {
    e == WriteState(id, Terminated) && (id, Terminated) in s.updating && id in s.db
  }

  predicate Revives(s: State, e: Event, id: SessionId) {
    e.WriteState? && e.id == id && e.to != Terminated && (id, e.to) in s.updating && id in s.db && s.db[id] == Terminated
  }

  lemma LostStep(s: State, e: Event, id: SessionId)
    ensures id in Step(s, e).lost <==> id in s.lost || LosesKill(s, e, id)
  {
  }

  lemma OtherSetsStep(s: State, e: Event, id: SessionId)
    ensures id in Step(s, e).early <==> id in s.early || KillsFirst(s, e, id)
    ensures id in Step(s, e).silent <==> id in s.silent || EndsSilently(s, e, id)
    ensures id in Step(s, e).revived <==> id in s.revived || Revives(s, e, id)
  {
  }

  /** The four excuses of a kill, told by what happened. */
  lemma {:induction false} ExcusesAre(evs: seq<Event>, id: SessionId)
    ensures id in Run(evs).lost <==> Happened(evs, (s, e) => LosesKill(s, e, id))
    ensures id in Run(evs).early <==> Happened(evs, (s, e) => KillsFirst(s, e, id))
    ensures id in Run(evs).silent <==> Happened(evs, (s, e) => EndsSilently(s, e, id))
    ensures id in Run(evs).revived <==> Happened(evs, (s, e) => Revives(s, e, id))
  {
    if evs != [] {
      hide Step, Happened, LosesKill, KillsFirst, EndsSilently, Revives;
      var n := |evs| - 1;
      ExcusesAre(evs[..n], id);
      LostStep(Run(evs[..n]), evs[n], id);
      OtherSetsStep(Run(evs[..n]), evs[n], id);
      HappenedSnoc(evs, (s, e) => LosesKill(s, e, id));
      HappenedSnoc(evs, (s, e) => KillsFirst(s, e, id));
      HappenedSnoc(evs, (s, e) => EndsSilently(s, e, id));
      HappenedSnoc(evs, (s, e) => Revives(s, e, id));
    }
  }

  /** Between query q and its reconciliation the start of a row that the query had not seen is sent. */
  predicate SlipsThrough(s: State, e: Event, id: SessionId, q: nat) {
    && e == DispatchStart(id, true) && id in s.starting && s.gateway.Queried? && |s.pipe| - s.sent < 100
    && |s.queries| == q + 1 && id !in s.queries[q].rows
  }

  lemma WindowStep(s: State, e: Event, id: SessionId, q: nat)
    ensures var t := Step(s, e);
      && (q < |s.queries| ==> q < |t.queries| && (id in t.queries[q].window <==> id in s.queries[q].window || SlipsThrough(s, e, id, q)))
      && (|s.queries| <= q ==> !SlipsThrough(s, e, id, q) && (q < |t.queries| ==> id !in t.queries[q].window))
  {
  }

  /** The window of a query is exactly the sessions whose start slipped through it. */
  lemma {:induction false} WindowIs(evs: seq<Event>, id: SessionId, q: nat)
    ensures q < |Run(evs).queries| ==>
      (id in Run(evs).queries[q].window <==> Happened(evs, (s, e) => SlipsThrough(s, e, id, q)))
    ensures |Run(evs).queries| <= q ==> !Happened(evs, (s, e) => SlipsThrough(s, e, id, q))
  {
    if evs != [] {
      hide Step, Happened, SlipsThrough;
      var n := |evs| - 1;
      WindowIs(evs[..n], id, q);
      WindowStep(Run(evs[..n]), evs[n], id, q);
      HappenedSnoc(evs, (s, e) => SlipsThrough(s, e, id, q));
    }
  }

  // ---------------------------------------------------------------- the satellite's handlers

  function ToSet(ids: seq<SessionId>): set<SessionId> { set id | id in ids }

  class Satellite {
    var sessions: map<SessionId, SessionState>

    method CollectOrphans(activeSet: set<SessionId>) returns (orphans: seq<SessionId>)
      ensures ToSet(orphans) == Orphans(sessions, activeSet)
    {
      orphans := [];
      var todo := sessions.Keys;
      while todo != {}
        invariant todo <= sessions.Keys
        invariant forall id :: id in orphans <==> id in Orphans(sessions, activeSet) && id !in todo
        decreases |todo|
      {
        var sid :| sid in todo;
        todo := todo - {sid};
        if sessions[sid] != Terminated && sid !in activeSet {
          orphans := orphans + [sid];
        }
      }
    }

    /** Undisturbed, the handler removes exactly the orphans: every listed session and every
        locally terminated one keeps its entry. */
    method HandleSessionReconciliation(activeSessionIds: seq<SessionId>)
      modifies this
      ensures sessions == old(sessions) - Orphans(old(sessions), ToSet(activeSessionIds))
    {
      var activeSet: set<SessionId> := {};
      for i := 0 to |activeSessionIds|
        invariant activeSet == ToSet(activeSessionIds[..i])
      {
        activeSet := activeSet + {activeSessionIds[i]};
      }
      assert activeSessionIds[..|activeSessionIds|] == activeSessionIds;
      var orphans := CollectOrphans(activeSet);
      for i := 0 to |orphans|
        invariant sessions == old(sessions) - ToSet(orphans[..i])
      {
        sessions := sessions - {orphans[i]};
      }
      assert orphans[..|orphans|] == orphans;
    }
  }
}
