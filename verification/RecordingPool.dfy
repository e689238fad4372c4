/** The pool of active recordings (internal/recording/recorder.go): who may write to which file while
    recordings start, stop and shut down concurrently.

    A state machine whose steps are the pool's critical sections.  A goroutine that
    fetched a writer keeps it after the pool lock is released, so a stop can come between the fetch and
    the write.  The pool itself, with its map of writers, is in module ActiveRecordings.
 */
module RecordingPool {

  datatype Piece = Piece(session: string, data: string)
  datatype Writer = Writer(session: string, pieces: seq<Piece>, closed: bool)
  datatype Fetched = Fetched(session: string, writer: nat)
  datatype Report = Report(writer: nat, size: nat)

  /** `writing` and `closing` hold the writers that goroutines took out of the pool and have not yet
      written to or closed; `stopping` is the pool lock held by StopAll. */
  datatype State = State(active: map<string, nat>, writers: seq<Writer>, writing: map<nat, Fetched>,
                         closing: map<nat, nat>, stopping: bool, reports: seq<Report>)

  datatype Action =
    | Start(session: string, created: bool)
    | Fetch(thread: nat, session: string)
    | Append(thread: nat, data: string)
    | Take(thread: nat, session: string)
    | Close(thread: nat)
    | StopAllBegin
    | StopAllClose(session: string)
    | StopAllEnd

  const EMPTY := State(map[], [], map[], map[], false, [])

  function Size(ps: seq<Piece>): nat { if ps == [] then 0 else Size(ps[..|ps| - 1]) + |ps[|ps| - 1].data| }

  function Without<K, V>(m: map<K, V>, k: K): map<K, V> { m - {k} }

  /** Whether the code can take this step now; a step that is not enabled changes nothing. */
  predicate Enabled(s: State, a: Action) {
    match a
    case Start(_, _) => !s.stopping
    case Fetch(t, k) => !s.stopping && k in s.active && t !in s.writing
    case Append(t, _) => t in s.writing && s.writing[t].writer < |s.writers|
    case Take(t, k) => !s.stopping && k in s.active && t !in s.closing
    case Close(t) => t in s.closing && s.closing[t] < |s.writers|
    case StopAllBegin => !s.stopping
    case StopAllClose(k) => s.stopping && k in s.active && s.active[k] < |s.writers|
    case StopAllEnd =>
      s.stopping && forall k :: k in s.active && s.active[k] < |s.writers| ==> s.writers[s.active[k]].closed
  }

  function AppendTo(w: Writer, p: Piece): Writer {
    if p.data == [] || w.closed then w else w.(pieces := w.pieces + [p])
  }

  function Step(s: State, a: Action): State {
    if !Enabled(s, a) then s
    else
      match a
      case Start(k, created) =>
        if k in s.active || !created then s
        else s.(active := s.active[k := |s.writers|], writers := s.writers + [Writer(k, [], false)])
      case Fetch(t, k) => s.(writing := s.writing[t := Fetched(k, s.active[k])])
      case Append(t, data) =>
        var f := s.writing[t];
        s.(writing := Without(s.writing, t),
           writers := s.writers[f.writer := AppendTo(s.writers[f.writer], Piece(f.session, data))])
      case Take(t, k) => s.(closing := s.closing[t := s.active[k]], active := Without(s.active, k))
      case Close(t) =>
        var w := s.closing[t];
        var size := if s.writers[w].closed then 0 else Size(s.writers[w].pieces);
        s.(closing := Without(s.closing, t), writers := s.writers[w := s.writers[w].(closed := true)],
           reports := s.reports + [Report(w, size)])
      case StopAllBegin => s.(stopping := true)
      case StopAllClose(k) =>
        s.(writers := s.writers[s.active[k] := s.writers[s.active[k]].(closed := true)])
      case StopAllEnd => s.(stopping := false, active := map[])
  }

  function Run(s: State, acts: seq<Action>): State {
    if acts == [] then s else Step(Run(s, acts[..|acts| - 1]), acts[|acts| - 1])
  }

  // ---------------------------------------------------------------- invariant

  ghost predicate Owned(s: State) {
    forall k :: k in s.active ==> s.active[k] < |s.writers| && s.writers[s.active[k]].session == k
  }

  ghost predicate FetchedRight(s: State) {
    forall t :: t in s.writing ==> s.writing[t].writer < |s.writers|
                                   && s.writers[s.writing[t].writer].session == s.writing[t].session
  }

  predicate Active(s: State, w: nat)
    requires w < |s.writers|
  {
    s.writers[w].session in s.active && s.active[s.writers[w].session] == w
  }

  /** A writer taken for closing is open, out of the pool, and taken by one goroutine only. */
  ghost predicate TakenOnce(s: State) {
    && (forall t :: t in s.closing ==> s.closing[t] < |s.writers|
                                       && !s.writers[s.closing[t]].closed && !Active(s, s.closing[t]))
    && (forall t, u :: t in s.closing && u in s.closing && s.closing[t] == s.closing[u] ==> t == u)
  }

  ghost predicate BeingClosed(s: State, w: nat) { exists t :: t in s.closing && s.closing[t] == w }

  /** Every open file is in the pool or about to be closed; nothing in the pool is closed. */
  ghost predicate OpenIsHeld(s: State) {
    && (forall w :: 0 <= w < |s.writers| && !s.writers[w].closed ==> Active(s, w) || BeingClosed(s, w))
    && (!s.stopping ==> forall w :: 0 <= w < |s.writers| && Active(s, w) ==> !s.writers[w].closed)
  }

  ghost predicate OwnPieces(s: State) {
    forall w, i :: 0 <= w < |s.writers| && 0 <= i < |s.writers[w].pieces|
      ==> s.writers[w].pieces[i].session == s.writers[w].session && s.writers[w].pieces[i].data != []
  }

  /** Every report names a closed writer, once, with the size of what it holds. */
  ghost predicate TrueReports(s: State) {
    && (forall i :: 0 <= i < |s.reports| ==> s.reports[i].writer < |s.writers|
                                             && s.writers[s.reports[i].writer].closed
                                             && s.reports[i].size == Size(s.writers[s.reports[i].writer].pieces))
    && (forall i, j :: 0 <= i < j < |s.reports| ==> s.reports[i].writer != s.reports[j].writer)
  }

  ghost predicate Inv(s: State) {
    Owned(s) && FetchedRight(s) && TakenOnce(s) && OpenIsHeld(s) && OwnPieces(s) && TrueReports(s)
  }

  lemma StartKeeps(s: State, k: string, created: bool)
    requires Inv(s)
    ensures Inv(Step(s, Start(k, created)))
  {
    StartHolders(s, k, created);
    StartContents(s, k, created);
  }

  lemma StartContents(s: State, k: string, created: bool)
    requires Inv(s)
    ensures var t := Step(s, Start(k, created)); OwnPieces(t) && TrueReports(t) && FetchedRight(t)
  {
    hide Size, Owned, TakenOnce, OpenIsHeld;
    var t := Step(s, Start(k, created));
    assert forall w :: 0 <= w < |s.writers| ==> t.writers[w] == s.writers[w];
  }

  lemma StartHolders(s: State, k: string, created: bool)
    requires Inv(s)
    ensures var t := Step(s, Start(k, created)); Owned(t) && TakenOnce(t) && OpenIsHeld(t)
  {
    hide Size, OwnPieces, TrueReports, FetchedRight;
    var t := Step(s, Start(k, created));
    assert forall w :: 0 <= w < |s.writers| ==> t.writers[w] == s.writers[w];
    forall w | 0 <= w < |t.writers| && !t.writers[w].closed
      ensures Active(t, w) || BeingClosed(t, w)
    {
      if w < |s.writers| && BeingClosed(s, w) {
        var u :| u in s.closing && s.closing[u] == w;
        assert u in t.closing && t.closing[u] == w;
      }
    }
  }

  lemma FetchKeeps(s: State, th: nat, k: string)
    requires Inv(s)
    ensures Inv(Step(s, Fetch(th, k)))
  {
    hide Size;
    var t := Step(s, Fetch(th, k));
    SamePool(s, t);
  }

  /** The parts of the invariant that do not look at `writing`. */
  lemma SamePool(s: State, t: State)
    requires Inv(s) && t.active == s.active && t.writers == s.writers && t.closing == s.closing
    requires t.reports == s.reports && (s.stopping ==> t.stopping)
    ensures Owned(t) && TakenOnce(t) && OpenIsHeld(t) && OwnPieces(t) && TrueReports(t)
  {
    hide Size;
    forall w | 0 <= w < |t.writers| && !t.writers[w].closed
      ensures Active(t, w) || BeingClosed(t, w)
    {
      if BeingClosed(s, w) {
        var u :| u in s.closing && s.closing[u] == w;
        assert u in t.closing && t.closing[u] == w;
      }
    }
    assert forall w :: 0 <= w < |s.writers| && Active(t, w) ==> Active(s, w);
  }

  lemma StopAllBeginKeeps(s: State)
    requires Inv(s)
    ensures Inv(Step(s, StopAllBegin))
  {
    hide Size;
    SamePool(s, Step(s, StopAllBegin));
  }

  /** The pool relies on which writers are open and whose they are, not on what they hold. */
  lemma SameHolders(s: State, t: State)
    requires Owned(s) && TakenOnce(s) && OpenIsHeld(s)
    requires t.active == s.active && t.closing == s.closing && t.stopping == s.stopping && |t.writers| == |s.writers|
    requires forall w :: 0 <= w < |s.writers| ==> t.writers[w].session == s.writers[w].session
                                                  && t.writers[w].closed == s.writers[w].closed
    ensures Owned(t) && TakenOnce(t) && OpenIsHeld(t)
  {
    assert forall w :: 0 <= w < |s.writers| ==> Active(t, w) == Active(s, w);
    assert forall w :: BeingClosed(s, w) ==> BeingClosed(t, w) by {
      forall w | BeingClosed(s, w) ensures BeingClosed(t, w) {
        var u :| u in s.closing && s.closing[u] == w;
        assert u in t.closing && t.closing[u] == w;
      }
    }
  }

  lemma ReportsStayTrue(s: State, t: State)
    requires TrueReports(s) && t.reports == s.reports && |t.writers| >= |s.writers|
    requires forall w :: 0 <= w < |s.writers| && s.writers[w].closed ==> t.writers[w] == s.writers[w]
    ensures TrueReports(t)
  {
    hide Size;
  }

  lemma AppendKeeps(s: State, th: nat, data: string)
    requires Inv(s)
    ensures Inv(Step(s, Append(th, data)))
  {
    if Enabled(s, Append(th, data)) {
      AppendOne(s, th, data);
    }
  }

  lemma AppendOne(s: State, th: nat, data: string)
    requires Inv(s) && Enabled(s, Append(th, data))
    ensures Inv(Step(s, Append(th, data)))
  {
    hide Size, TrueReports, TakenOnce, OpenIsHeld, Owned;
    var t := Step(s, Append(th, data));
    SameHolders(s, t);
    ReportsStayTrue(s, t);
    assert FetchedRight(t);
    var x := s.writing[th].writer;
    assert forall w :: 0 <= w < |s.writers| && w != x ==> t.writers[w] == s.writers[w];
    assert t.writers[x].pieces == s.writers[x].pieces
      || (data != [] && t.writers[x].pieces == s.writers[x].pieces + [Piece(s.writing[th].session, data)]);
  }

  lemma TakeKeeps(s: State, th: nat, k: string)
    requires Inv(s)
    ensures Inv(Step(s, Take(th, k)))
  {
    if Enabled(s, Take(th, k)) {
      TakeHolders(s, th, k);
      TakeContents(s, th, k);
    }
  }

  lemma TakeContents(s: State, th: nat, k: string)
    requires Inv(s) && Enabled(s, Take(th, k))
    ensures OwnPieces(Step(s, Take(th, k))) && TrueReports(Step(s, Take(th, k))) && FetchedRight(Step(s, Take(th, k)))
  {
    hide Size, Owned, TakenOnce, OpenIsHeld;
  }

  lemma TakeHolders(s: State, th: nat, k: string)
    requires Inv(s) && Enabled(s, Take(th, k))
    ensures Owned(Step(s, Take(th, k))) && TakenOnce(Step(s, Take(th, k))) && OpenIsHeld(Step(s, Take(th, k)))
  {
    hide Size, OwnPieces, TrueReports, FetchedRight;
    var t, x := Step(s, Take(th, k)), s.active[k];
    assert Active(s, x);
    assert forall w :: 0 <= w < |s.writers| ==> Active(t, w) == (Active(s, w) && w != x);
    TakeOpen(s, t, th, x);
    hide OpenIsHeld;
    assert forall u :: u in s.closing ==> s.closing[u] != x;
  }

  lemma TakeOpen(s: State, t: State, th: nat, x: nat)
    requires OpenIsHeld(s) && t.writers == s.writers && x < |s.writers| && t.closing == s.closing[th := x] && th !in s.closing
    requires !s.stopping && !t.stopping
    requires forall w :: 0 <= w < |s.writers| ==> Active(t, w) == (Active(s, w) && w != x)
    ensures OpenIsHeld(t)
  {
    hide Active;
    assert t.closing[th] == x;
    forall w | 0 <= w < |t.writers| && !t.writers[w].closed
      ensures Active(t, w) || BeingClosed(t, w)
    {
      if w != x && BeingClosed(s, w) {
        var u :| u in s.closing && s.closing[u] == w;
        assert u in t.closing && t.closing[u] == w;
      }
    }
  }

  lemma CloseKeeps(s: State, th: nat)
    requires Inv(s)
    ensures Inv(Step(s, Close(th)))
  {
    if Enabled(s, Close(th)) {
      CloseHolders(s, th);
      CloseReports(s, th);
      CloseContents(s, th);
    }
  }

  lemma CloseHolders(s: State, th: nat)
    requires Inv(s) && Enabled(s, Close(th))
    ensures Owned(Step(s, Close(th))) && TakenOnce(Step(s, Close(th))) && OpenIsHeld(Step(s, Close(th)))
  {
    hide Size, TrueReports, OwnPieces, FetchedRight, OpenIsHeld;
    var t := Step(s, Close(th));
    var x := s.closing[th];
    assert forall w :: 0 <= w < |s.writers| ==> t.writers[w].session == s.writers[w].session;
    assert forall w :: 0 <= w < |s.writers| ==> Active(t, w) == Active(s, w);
    assert forall w :: 0 <= w < |s.writers| && w != x ==> t.writers[w] == s.writers[w];
    CloseOpen(s, t, th);
  }

  lemma CloseOpen(s: State, t: State, th: nat)
    requires OpenIsHeld(s) && th in s.closing && s.closing[th] < |s.writers| == |t.writers|
    requires t.closing == Without(s.closing, th) && (t.stopping <==> s.stopping) && t.writers[s.closing[th]].closed
    requires forall w :: 0 <= w < |s.writers| ==> Active(t, w) == Active(s, w)
    requires forall w :: 0 <= w < |s.writers| && w != s.closing[th] ==> t.writers[w] == s.writers[w]
    requires !Active(s, s.closing[th])
    ensures OpenIsHeld(t)
  {
    hide Active;
    forall w | 0 <= w < |t.writers| && !t.writers[w].closed
      ensures Active(t, w) || BeingClosed(t, w)
    {
      if BeingClosed(s, w) {
        var u :| u in s.closing && s.closing[u] == w;
        assert u in t.closing && t.closing[u] == w;
      }
    }
  }

  lemma CloseReports(s: State, th: nat)
    requires Inv(s) && Enabled(s, Close(th))
    ensures TrueReports(Step(s, Close(th)))
  {
    hide Size, OwnPieces, FetchedRight, OpenIsHeld, Owned;
    var t := Step(s, Close(th));
    var x := s.closing[th];
    assert forall i :: 0 <= i < |s.reports| ==> t.reports[i] == s.reports[i] && s.reports[i].writer != x;
  }

  lemma CloseContents(s: State, th: nat)
    requires Inv(s) && Enabled(s, Close(th))
    ensures OwnPieces(Step(s, Close(th))) && FetchedRight(Step(s, Close(th)))
  {
    hide Size, TrueReports, OpenIsHeld, Owned, TakenOnce;
  }

  lemma StopAllCloseKeeps(s: State, k: string)
    requires Inv(s)
    ensures Inv(Step(s, StopAllClose(k)))
  {
    if Enabled(s, StopAllClose(k)) {
      StopAllCloseHolders(s, k);
      StopAllCloseContents(s, k);
    }
  }

  lemma StopAllCloseContents(s: State, k: string)
    requires Inv(s) && Enabled(s, StopAllClose(k))
    ensures var t := Step(s, StopAllClose(k)); OwnPieces(t) && TrueReports(t) && FetchedRight(t)
  {
    hide Size, Owned, TakenOnce, OpenIsHeld;
  }

  lemma StopAllCloseHolders(s: State, k: string)
    requires Inv(s) && Enabled(s, StopAllClose(k))
    ensures var t := Step(s, StopAllClose(k)); Owned(t) && TakenOnce(t) && OpenIsHeld(t)
  {
    hide Size, OwnPieces, TrueReports, FetchedRight;
    var t := Step(s, StopAllClose(k));
    var x := s.active[k];
    assert Active(s, x);
    assert forall w :: 0 <= w < |s.writers| && w != x ==> t.writers[w] == s.writers[w];
    assert forall w :: 0 <= w < |s.writers| ==> Active(t, w) == Active(s, w) && BeingClosed(t, w) == BeingClosed(s, w);
  }

  lemma StopAllEndKeeps(s: State)
    requires Inv(s)
    ensures Inv(Step(s, StopAllEnd))
  {
    hide Size;
    var t := Step(s, StopAllEnd);
    if Enabled(s, StopAllEnd) {
      forall w | 0 <= w < |t.writers| && !t.writers[w].closed
        ensures BeingClosed(t, w)
      {
        assert !Active(s, w) && BeingClosed(s, w);
        var u :| u in s.closing && s.closing[u] == w;
        assert u in t.closing && t.closing[u] == w;
      }
    }
  }

  lemma StepKeeps(s: State, a: Action)
    requires Inv(s)
    ensures Inv(Step(s, a))
  {
    hide *;
    match a {
      case Start(k, created) => StartKeeps(s, k, created);
      case Fetch(t, k) => FetchKeeps(s, t, k);
      case Append(t, data) => AppendKeeps(s, t, data);
      case Take(t, k) => TakeKeeps(s, t, k);
      case Close(t) => CloseKeeps(s, t);
      case StopAllBegin => StopAllBeginKeeps(s);
      case StopAllClose(k) => StopAllCloseKeeps(s, k);
      case StopAllEnd => StopAllEndKeeps(s);
    }
  }

  /** The invariant holds after every interleaving. */
  lemma {:induction false} RunKeeps(s: State, acts: seq<Action>)
    requires Inv(s)
    ensures Inv(Run(s, acts))
  {
    hide Inv, Step;
    if acts != [] {
      RunKeeps(s, acts[..|acts| - 1]);
      StepKeeps(Run(s, acts[..|acts| - 1]), acts[|acts| - 1]);
    }
  }

  // ---------------------------------------------------------------- what the pool guarantees

  lemma EmptyInv()
    ensures Inv(EMPTY)
  {
  }

  lemma StepFreezes(s: State, a: Action)
    ensures |s.writers| <= |Step(s, a).writers| && s.reports <= Step(s, a).reports
    ensures forall w :: 0 <= w < |s.writers| && s.writers[w].closed ==> Step(s, a).writers[w] == s.writers[w]
  {
    hide Size;
  }

  /** Once a recording is closed nothing is ever added to it, and what was reported stays reported. */
  lemma {:induction false} ClosedIsFrozen(s: State, acts: seq<Action>)
    ensures |s.writers| <= |Run(s, acts).writers| && s.reports <= Run(s, acts).reports
    ensures forall w :: 0 <= w < |s.writers| && s.writers[w].closed ==> Run(s, acts).writers[w] == s.writers[w]
  {
    hide Step;
    if acts != [] {
      ClosedIsFrozen(s, acts[..|acts| - 1]);
      StepFreezes(Run(s, acts[..|acts| - 1]), acts[|acts| - 1]);
    }
  }

  /** The size a stop reported is the size of the file for good, whatever happens afterwards, and no
      recording is reported twice. */
  lemma ReportsAreFinal(acts: seq<Action>, more: seq<Action>, i: nat)
    requires i < |Run(EMPTY, acts).reports|
    ensures |Run(EMPTY, acts).reports| <= |Run(Run(EMPTY, acts), more).reports|
    ensures var t := Run(Run(EMPTY, acts), more);
            var r := Run(EMPTY, acts).reports[i];
            && t.reports[i] == r && r.writer < |t.writers| && t.writers[r.writer].closed
            && r.size == Size(t.writers[r.writer].pieces)
            && forall j :: 0 <= j < |t.reports| && t.reports[j].writer == r.writer ==> j == i
  {
    hide Step, Run, Size;
    var s := Run(EMPTY, acts);
    EmptyInv();
    RunKeeps(EMPTY, acts);
    RunKeeps(s, more);
    ClosedIsFrozen(s, more);
  }

  /** A stop that found its recording closes an open file, so the size it returns is the real one. */
  lemma StopReportsRealSize(acts: seq<Action>, th: nat)
    requires th in Run(EMPTY, acts).closing
    ensures var s := Run(EMPTY, acts);
            var t := Step(s, Close(th));
            var w := s.closing[th];
            && w < |s.writers| && !s.writers[w].closed
            && t.reports == s.reports + [Report(w, Size(s.writers[w].pieces))]
  {
    hide Run, Size;
    EmptyInv();
    RunKeeps(EMPTY, acts);
  }

  /** One active recording per session: two open files of one session only while one is being closed. */
  lemma OneOpenPerSession(acts: seq<Action>, v: nat, w: nat)
    requires v < |Run(EMPTY, acts).writers| && w < |Run(EMPTY, acts).writers|
    requires var s := Run(EMPTY, acts); !s.writers[v].closed && !s.writers[w].closed
    requires var s := Run(EMPTY, acts); !BeingClosed(s, v) && !BeingClosed(s, w)
    requires Run(EMPTY, acts).writers[v].session == Run(EMPTY, acts).writers[w].session
    ensures v == w
  {
    hide Run, Size, BeingClosed;
    EmptyInv();
    RunKeeps(EMPTY, acts);
  }

  /** No output crosses sessions: every piece in a file was written for the file's own session. */
  lemma NoOutputCrossesSessions(acts: seq<Action>, w: nat, i: nat)
    requires w < |Run(EMPTY, acts).writers| && i < |Run(EMPTY, acts).writers[w].pieces|
    ensures Run(EMPTY, acts).writers[w].pieces[i].session == Run(EMPTY, acts).writers[w].session
  {
    hide Run, Size;
    EmptyInv();
    RunKeeps(EMPTY, acts);
  }

  /** No file is left open: with nothing active and no stop under way, every recording is closed. */
  lemma NothingLeaksOpen(acts: seq<Action>, w: nat)
    requires w < |Run(EMPTY, acts).writers|
    requires Run(EMPTY, acts).active == map[] && Run(EMPTY, acts).closing == map[]
    ensures Run(EMPTY, acts).writers[w].closed
  {
    hide Run, Size;
    EmptyInv();
    RunKeeps(EMPTY, acts);
  }

  /** A write that fetched its writer is recorded exactly when that writer is still open.  Then the recording
      is in the pool, or a stop has taken it and not yet closed it; and except while a shutdown closes the
      pool's recordings one by one, either of these means that it is open. */
  lemma WriteLandsIff(acts: seq<Action>, th: nat, data: string)
    requires th in Run(EMPTY, acts).writing && data != []
    ensures var s := Run(EMPTY, acts);
            var f := s.writing[th];
            var t := Step(s, Append(th, data));
            && f.writer < |s.writers| == |t.writers|
            && (t.writers[f.writer].pieces == s.writers[f.writer].pieces + [Piece(f.session, data)]
                <==> !s.writers[f.writer].closed)
            && (!s.writers[f.writer].closed ==> Active(s, f.writer) || BeingClosed(s, f.writer))
            && (!s.stopping && (Active(s, f.writer) || BeingClosed(s, f.writer)) ==> !s.writers[f.writer].closed)
            && (BeingClosed(s, f.writer) ==> !s.writers[f.writer].closed)
  {
    hide Run, Size;
    EmptyInv();
    RunKeeps(EMPTY, acts);
    var s := Run(EMPTY, acts);
    var w := s.writing[th].writer;
    assert |s.writers[w].pieces + [Piece(s.writing[th].session, data)]| == |s.writers[w].pieces| + 1;
  }

  // ---------------------------------------------------------------- what the steps achieve

  lemma Snoc(s: State, acts: seq<Action>, a: Action)
    ensures Run(s, acts + [a]) == Step(Run(s, acts), a)
  {
    assert (acts + [a])[..|acts|] == acts;
  }

  /** Output written through the pool, chunk after chunk, by one goroutine. */
  function Writing(th: nat, k: string, ds: seq<string>): seq<Action> {
    if ds == [] then [] else Writing(th, k, ds[..|ds| - 1]) + [Fetch(th, k)] + [Append(th, ds[|ds| - 1])]
  }

  /** The pieces of the chunks that are not empty. */
  function Pieces(k: string, ds: seq<string>): seq<Piece> {
    if ds == [] then []
    else Pieces(k, ds[..|ds| - 1]) + if ds[|ds| - 1] == "" then [] else [Piece(k, ds[|ds| - 1])]
  }

  /** The session's recording is open in the pool as writer w, with these pieces; all else is as in s. */
  ghost predicate Holding(s: State, t: State, k: string, w: nat, ps: seq<Piece>) {
    && w == |s.writers| && t == s.(active := s.active[k := w], writers := s.writers + [Writer(k, ps, false)])
  }

  lemma WriteSteps(s: State, t: State, th: nat, k: string, w: nat, ps: seq<Piece>, data: string)
    requires Holding(s, t, k, w, ps) && !s.stopping && th !in s.writing
    ensures Holding(s, Step(Step(t, Fetch(th, k)), Append(th, data)), k, w, if data == "" then ps else ps + [Piece(k, data)])
  {
    var a := Step(t, Fetch(th, k));
    assert a == t.(writing := s.writing[th := Fetched(k, w)]);
    assert Without(a.writing, th) == s.writing;
    var b := Step(a, Append(th, data));
    assert b.writers == s.writers + [Writer(k, if data == "" then ps else ps + [Piece(k, data)], false)];
  }

  lemma {:induction false} WritingHolds(s: State, t: State, th: nat, k: string, ds: seq<string>)
    requires Holding(s, t, k, |s.writers|, []) && !s.stopping && th !in s.writing
    ensures Holding(s, Run(t, Writing(th, k, ds)), k, |s.writers|, Pieces(k, ds))
  {
    if ds == [] {
      NothingRun(t);
    } else {
      hide Step, Holding, Run;
      var n := |ds| - 1;
      var pre := Writing(th, k, ds[..n]);
      WritingHolds(s, t, th, k, ds[..n]);
      WriteSteps(s, Run(t, pre), th, k, |s.writers|, Pieces(k, ds[..n]), ds[n]);
      Snoc(t, pre, Fetch(th, k));
      Snoc(t, pre + [Fetch(th, k)], Append(th, ds[n]));
      MorePieces(k, ds);
    }
  }

  lemma NothingRun(s: State)
    ensures Run(s, []) == s
  {
  }

  lemma MorePieces(k: string, ds: seq<string>)
    requires ds != []
    ensures var pre, data := Pieces(k, ds[..|ds| - 1]), ds[|ds| - 1];
      Pieces(k, ds) == if data == "" then pre else pre + [Piece(k, data)]
  {
  }

  lemma {:induction false} PieceSizes(k: string, ds: seq<string>)
    ensures Size(Pieces(k, ds)) == TotalLength(ds)
  {
    if ds != [] {
      PieceSizes(k, ds[..|ds| - 1]);
      MorePieces(k, ds);
      var ps := Pieces(k, ds[..|ds| - 1]);
      assert (ps + [Piece(k, ds[|ds| - 1])])[..|ps|] == ps;
    }
  }

  function TotalLength(ds: seq<string>): nat { if ds == [] then 0 else TotalLength(ds[..|ds| - 1]) + |ds[|ds| - 1]| }

  lemma StartHolds(s: State, k: string)
    requires !s.stopping && k !in s.active
    ensures Holding(s, Step(s, Start(k, true)), k, |s.writers|, [])
  {
  }

  lemma StopSteps(s: State, t: State, th: nat, k: string, ps: seq<Piece>)
    requires Holding(s, t, k, |s.writers|, ps) && !s.stopping && th !in s.closing && k !in s.active
    ensures Step(Step(t, Take(th, k)), Close(th))
         == s.(writers := s.writers + [Writer(k, ps, true)], reports := s.reports + [Report(|s.writers|, Size(ps))])
  {
    hide Size;
    var a := Step(t, Take(th, k));
    assert Without(t.active, k) == s.active;
    assert a == t.(closing := s.closing[th := |s.writers|], active := s.active);
    assert Without(a.closing, th) == s.closing;
  }

  /** A whole recording, from any point of any run outside shutdown and for any session that is not recorded:
      started, written to and stopped, it is one more closed file that holds exactly the chunks that are not
      empty, in order, reported with their total length; everything else is as before. */
  lemma RecordingLifecycle(acts: seq<Action>, th: nat, k: string, ds: seq<string>)
    requires var s := Run(EMPTY, acts); !s.stopping && k !in s.active && th !in s.writing && th !in s.closing
    ensures var s := Run(EMPTY, acts);
      Run(s, [Start(k, true)] + Writing(th, k, ds) + [Take(th, k)] + [Close(th)])
      == s.(writers := s.writers + [Writer(k, Pieces(k, ds), true)],
            reports := s.reports + [Report(|s.writers|, TotalLength(ds))])
  {
    hide Run, Step, Size, Holding;
    var s := Run(EMPTY, acts);
    var t := Step(s, Start(k, true));
    var w := Writing(th, k, ds);
    StartHolds(s, k);
    WritingHolds(s, t, th, k, ds);
    RunFirst(s, Start(k, true), w);
    var a := [Start(k, true)] + w;
    Snoc(s, a, Take(th, k));
    Snoc(s, a + [Take(th, k)], Close(th));
    StopSteps(s, Run(s, a), th, k, Pieces(k, ds));
    PieceSizes(k, ds);
  }

  lemma {:induction false} RunFirst(s: State, a: Action, rest: seq<Action>)
    ensures Run(s, [a] + rest) == Run(Step(s, a), rest)
  {
    hide Step;
    if rest == [] {
      assert [a] + rest == [a] && [a][..0] == [];
      assert Run(s, [a]) == Step(Run(s, []), a);
    } else {
      RunFirst(s, a, rest[..|rest| - 1]);
      assert ([a] + rest)[..|rest|] == [a] + rest[..|rest| - 1];
    }
  }

  /** During shutdown: the pool's recordings outside `left` are closed, the others and all files outside the
      pool are as they were, and no file's contents changed. */
  ghost predicate Shutting(s: State, t: State, left: set<string>) {
    && t == s.(stopping := true, writers := t.writers) && |t.writers| == |s.writers|
    && (forall w :: 0 <= w < |s.writers| ==>
          t.writers[w] == if Active(s, w) && s.writers[w].session !in left then s.writers[w].(closed := true) else s.writers[w])
  }

  lemma ShutOne(s: State, t: State, left: set<string>, k: string)
    requires Owned(s) && Shutting(s, t, left) && k in left && k in s.active
    ensures Shutting(s, Step(t, StopAllClose(k)), left - {k})
  {
    var u := Step(t, StopAllClose(k));
    forall w | 0 <= w < |s.writers|
      ensures u.writers[w] == if Active(s, w) && s.writers[w].session !in left - {k}
                              then s.writers[w].(closed := true) else s.writers[w]
    {
      if Active(s, w) && s.writers[w].session == k { assert w == s.active[k]; }
    }
  }

  lemma {:induction false} ShutRest(s: State, t: State, left: set<string>) returns (acts: seq<Action>)
    requires Owned(s) && Shutting(s, t, left) && left <= s.active.Keys
    ensures Shutting(s, Run(t, acts), {})
    decreases |left|
  {
    if left == {} {
      acts := [];
    } else {
      var k :| k in left;
      ShutOne(s, t, left, k);
      var rest := ShutRest(s, Step(t, StopAllClose(k)), left - {k});
      hide Step, Shutting;
      RunFirst(t, StopAllClose(k), rest);
      acts := [StopAllClose(k)] + rest;
    }
  }

  lemma ShutEnd(s: State, t: State)
    requires Owned(s) && Shutting(s, t, {})
    ensures Step(t, StopAllEnd) == t.(stopping := false, active := map[])
  {
    forall k | k in s.active ensures t.writers[s.active[k]].closed {
      assert Active(s, s.active[k]);
    }
  }

  /** Shutdown ends: from any point of any run, unless it is under way, it can close every recording in the pool
      with its contents intact, touches no other file, and leaves the pool empty and open for business. */
  lemma ShutdownCompletes(acts: seq<Action>) returns (more: seq<Action>)
    requires !Run(EMPTY, acts).stopping
    ensures var s, t := Run(EMPTY, acts), Run(Run(EMPTY, acts), more);
      && t == s.(active := map[], writers := t.writers) && |t.writers| == |s.writers|
      && (forall w :: 0 <= w < |s.writers| ==>
            t.writers[w] == if Active(s, w) then s.writers[w].(closed := true) else s.writers[w])
  {
    var s := Run(EMPTY, acts);
    EmptyInv();
    RunKeeps(EMPTY, acts);
    assert Owned(s);
    var t := Step(s, StopAllBegin);
    assert Shutting(s, t, s.active.Keys) by { BeginShuts(s); }
    var close := ShutRest(s, t, s.active.Keys);
    ShutEnd(s, Run(t, close));
    hide Step, Run;
    var a := [StopAllBegin] + close;
    RunFirst(s, StopAllBegin, close);
    Snoc(s, a, StopAllEnd);
    more := a + [StopAllEnd];
  }

  lemma BeginShuts(s: State)
    requires Owned(s) && !s.stopping
    ensures Shutting(s, Step(s, StopAllBegin), s.active.Keys)
  {
  }
}
