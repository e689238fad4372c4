/** Batched persistence of agent run events.  Appends, timer flushes, explicit flushes and closes
    interleave; the loop that queues a taken slice for the database runs outside the mutex and reads
    the slice's backing array one element at a time.
 */
module BatchWriter {

  type RunId = nat
  type ArrayId = nat

  /** `serial` tells two appends apart even when everything else is equal. */
  datatype PendingEvent = PendingEvent(runID: RunId, eventType: string, sequence: int, serial: nat)

  /** A Go slice: the first `len` cells of a backing array. */
  datatype Slice = Slice(arr: ArrayId, len: nat)

  /** A slice on its way to the database: what it held when it was taken, what the loop has queued so
      far, whether Close took it, and whether an append has overwritten a cell the loop had yet to read. */
  datatype Batch = Batch(run: RunId, arr: ArrayId, taken: seq<PendingEvent>, queued: seq<PendingEvent>,
                         byClose: bool, clobbered: bool)

  /** Arrays are numbered by allocation order, so `store` is indexed by ArrayId. */
  datatype State = State(store: seq<seq<PendingEvent>>, buffers: map<RunId, Slice>, batches: seq<Batch>,
                         appended: seq<PendingEvent>)

  const Init := State([], map[], [], [])

  datatype Action =
    | Append(run: RunId, eventType: string, sequence: int, spare: nat)
    | Flush(run: RunId)
    | Close(run: RunId)
    | QueueNext(batch: nat)

  predicate Bound(s: State, run: RunId) {
    run in s.buffers && s.buffers[run].arr < |s.store| && s.buffers[run].len <= |s.store[s.buffers[run].arr]|
  }

  /** The events currently buffered for a run. */
  function Live(s: State, run: RunId): seq<PendingEvent> {
    if Bound(s, run) then s.store[s.buffers[run].arr][..s.buffers[run].len] else []
  }

  function Overwrite(bs: seq<Batch>, arr: ArrayId, at: nat): seq<Batch> {
    seq(|bs|, i requires 0 <= i < |bs| =>
      if bs[i].arr == arr && |bs[i].queued| <= at < |bs[i].taken| then bs[i].(clobbered := true) else bs[i])
  }

  function Filler(n: nat, e: PendingEvent): seq<PendingEvent> { seq(n, _ => e) }

  /** Go's append: in place while the capacity lasts, else into a new array with some spare cells. */
  function DoAppend(s: State, e: PendingEvent, spare: nat): State {
    var run := e.runID;
    if Bound(s, run) && s.buffers[run].len < |s.store[s.buffers[run].arr]| then
      var b := s.buffers[run];
      State(s.store[b.arr := s.store[b.arr][b.len := e]],
            s.buffers[run := b.(len := b.len + 1)],
            Overwrite(s.batches, b.arr, b.len),
            s.appended + [e])
    else
      var held := Live(s, run);
      State(s.store + [held + [e] + Filler(spare, e)],
            s.buffers[run := Slice(|s.store|, |held| + 1)],
            s.batches,
            s.appended + [e])
  }

  function TakeBatch(s: State, run: RunId, byClose: bool): Batch
    requires Bound(s, run)
  {
    Batch(run, s.buffers[run].arr, Live(s, run), [], byClose, false)
  }

  function Step(s: State, a: Action): State {
    match a
    case Append(run, ty, n, spare) => DoAppend(s, PendingEvent(run, ty, n, |s.appended|), spare)
    case Flush(run) =>
      if Live(s, run) == [] then s
      else s.(batches := s.batches + [TakeBatch(s, run, false)],
              buffers := s.buffers[run := s.buffers[run].(len := 0)])
    case Close(run) =>
      if run !in s.buffers then s
      else s.(batches := if Live(s, run) == [] then s.batches else s.batches + [TakeBatch(s, run, true)],
              buffers := s.buffers - {run})
    case QueueNext(k) =>
      if k < |s.batches| && Unread(s, s.batches[k]) then
        var b := s.batches[k];
        s.(batches := s.batches[k := b.(queued := b.queued + [s.store[b.arr][|b.queued|]])])
      else s
  }

  /** The loop over `b` has another element to read. */
  predicate Unread(s: State, b: Batch) {
    |b.queued| < |b.taken| && b.arr < |s.store| && |b.queued| < |s.store[b.arr]|
  }

  function Run(acts: seq<Action>): State {
    if acts == [] then Init else Step(Run(acts[..|acts| - 1]), acts[|acts| - 1])
  }

  // ---------------------------------------------------------------- shape

  /** Every buffer is a valid slice of an array no other run uses and no closed batch holds. */
  ghost predicate Shaped(s: State) {
    && (forall r :: r in s.buffers ==> Bound(s, r))
    && (forall r, r' :: r in s.buffers && r' in s.buffers && r != r' ==> s.buffers[r].arr != s.buffers[r'].arr)
    && (forall k :: 0 <= k < |s.batches| ==> BatchShaped(s, s.batches[k]))
  }

  ghost predicate BatchShaped(s: State, b: Batch) {
    && b.arr < |s.store| && |b.queued| <= |b.taken| <= |s.store[b.arr]|
    && (b.byClose ==> !b.clobbered && forall r :: r in s.buffers ==> s.buffers[r].arr != b.arr)
  }

  lemma ShapedAppend(s: State, e: PendingEvent, spare: nat)
    requires Shaped(s)
    ensures Shaped(DoAppend(s, e, spare))
  {
    var t := DoAppend(s, e, spare);
    assert forall r :: r in t.buffers ==> Bound(t, r);
    forall k | 0 <= k < |t.batches| ensures BatchShaped(t, t.batches[k]) {
      var b := s.batches[k];
      assert BatchShaped(s, b);
      assert t.batches[k] == b || t.batches[k] == b.(clobbered := true);
      assert |t.store[b.arr]| == |s.store[b.arr]|;
    }
  }

  lemma ShapedTake(s: State, a: Action)
    requires Shaped(s) && (a.Flush? || a.Close?)
    ensures Shaped(Step(s, a))
  {
    var t := Step(s, a);
    forall k | 0 <= k < |t.batches| ensures BatchShaped(t, t.batches[k]) {
      if k < |s.batches| { assert BatchShaped(s, s.batches[k]); }
    }
  }

  lemma ShapedQueue(s: State, k: nat)
    requires Shaped(s)
    ensures Shaped(Step(s, QueueNext(k)))
  {
    var t := Step(s, QueueNext(k));
    forall i | 0 <= i < |t.batches| ensures BatchShaped(t, t.batches[i]) {
      assert BatchShaped(s, s.batches[i]);
    }
  }

  lemma {:induction false} RunShaped(acts: seq<Action>)
    ensures Shaped(Run(acts))
  {
    if acts != [] {
      var s, a := Run(acts[..|acts| - 1]), acts[|acts| - 1];
      RunShaped(acts[..|acts| - 1]);
      match a
      case Append(r, ty, n, spare) => ShapedAppend(s, PendingEvent(r, ty, n, |s.appended|), spare);
      case Flush(_) => ShapedTake(s, a);
      case Close(_) => ShapedTake(s, a);
      case QueueNext(k) => ShapedQueue(s, k);
    }
  }

  // ---------------------------------------------------------------- partition

  function Of(es: seq<PendingEvent>, run: RunId): seq<PendingEvent> {
    if es == [] then []
    else Of(es[..|es| - 1], run) + (if es[|es| - 1].runID == run then [es[|es| - 1]] else [])
  }

  /** What was taken for a run, batch after batch. */
  function Taken(bs: seq<Batch>, run: RunId): seq<PendingEvent> {
    if bs == [] then []
    else Taken(bs[..|bs| - 1], run) + (if bs[|bs| - 1].run == run then bs[|bs| - 1].taken else [])
  }

  lemma {:induction false} TakenSame(bs: seq<Batch>, cs: seq<Batch>, run: RunId)
    requires |bs| == |cs| && forall i :: 0 <= i < |bs| ==> bs[i].run == cs[i].run && bs[i].taken == cs[i].taken
    ensures Taken(bs, run) == Taken(cs, run)
  {
    if bs != [] {
      TakenSame(bs[..|bs| - 1], cs[..|cs| - 1], run);
    }
  }

  lemma TakenAppend(bs: seq<Batch>, b: Batch, run: RunId)
    ensures Taken(bs + [b], run) == Taken(bs, run) + (if b.run == run then b.taken else [])
  {
    assert (bs + [b])[..|bs + [b]| - 1] == bs;
  }

  lemma OfAppend(es: seq<PendingEvent>, e: PendingEvent, run: RunId)
    ensures Of(es + [e], run) == Of(es, run) + (if e.runID == run then [e] else [])
  {
    assert (es + [e])[..|es + [e]| - 1] == es;
  }

  ghost predicate Partitioned(s: State, run: RunId) {
    Of(s.appended, run) == Taken(s.batches, run) + Live(s, run)
  }

  lemma LiveAfterAppend(s: State, e: PendingEvent, spare: nat, run: RunId)
    requires Shaped(s)
    ensures Live(DoAppend(s, e, spare), run) == Live(s, run) + (if e.runID == run then [e] else [])
  {
    var t := DoAppend(s, e, spare);
    if run != e.runID && run in s.buffers {
      assert t.buffers[run] == s.buffers[run];
    }
  }

  lemma LiveAfterTake(s: State, a: Action, run: RunId)
    requires Shaped(s) && (a.Flush? || a.Close?)
    ensures Live(Step(s, a), run) == if a.run == run then [] else Live(s, run)
  {
  }

  lemma BatchesAfterTake(s: State, a: Action)
    requires Shaped(s) && (a.Flush? || a.Close?)
    ensures Step(s, a).appended == s.appended
    ensures Step(s, a).batches == if Live(s, a.run) == [] then s.batches else s.batches + [TakeBatch(s, a.run, a.Close?)]
  {
  }

  lemma PartitionedAppend(s: State, e: PendingEvent, spare: nat, run: RunId)
    requires Shaped(s) && Partitioned(s, run)
    ensures Partitioned(DoAppend(s, e, spare), run)
  {
    hide DoAppend, Live, Of, Taken;
    OfAppend(s.appended, e, run);
    AppendKeepsTaken(s, e, spare);
    TakenSame(s.batches, DoAppend(s, e, spare).batches, run);
    LiveAfterAppend(s, e, spare, run);
  }

  lemma AppendKeepsTaken(s: State, e: PendingEvent, spare: nat)
    ensures var t := DoAppend(s, e, spare);
      && t.appended == s.appended + [e] && |t.batches| == |s.batches|
      && forall i :: 0 <= i < |s.batches| ==> t.batches[i].run == s.batches[i].run && t.batches[i].taken == s.batches[i].taken
  {
  }

  lemma PartitionedMove(s: State, t: State, b: Batch, run: RunId)
    requires Partitioned(s, run) && t.appended == s.appended
    requires b.taken == Live(s, b.run)
    requires t.batches == (if b.taken == [] then s.batches else s.batches + [b])
    requires Live(t, run) == if b.run == run then [] else Live(s, run)
    ensures Partitioned(t, run)
  {
    TakenAppend(s.batches, b, run);
  }

  lemma PartitionedTake(s: State, a: Action, run: RunId)
    requires Shaped(s) && Partitioned(s, run) && (a.Flush? || a.Close?)
    ensures Partitioned(Step(s, a), run)
  {
    LiveAfterTake(s, a, run);
    BatchesAfterTake(s, a);
    var b := if Bound(s, a.run) then TakeBatch(s, a.run, a.Close?) else Batch(a.run, 0, [], [], false, false);
    PartitionedMove(s, Step(s, a), b, run);
  }

  /** In every interleaving the takes cut each run's appended events into consecutive pieces, in
      order, with nothing left out or taken twice; the rest is still buffered. */
  lemma {:induction false} TakesPartitionAppends(acts: seq<Action>, run: RunId)
    ensures Partitioned(Run(acts), run)
  {
    if acts != [] {
      var s, a := Run(acts[..|acts| - 1]), acts[|acts| - 1];
      TakesPartitionAppends(acts[..|acts| - 1], run);
      RunShaped(acts[..|acts| - 1]);
      match a
      case Append(r, ty, n, spare) => PartitionedAppend(s, PendingEvent(r, ty, n, |s.appended|), spare, run);
      case Flush(_) => PartitionedTake(s, a, run);
      case Close(_) => PartitionedTake(s, a, run);
      case QueueNext(k) => TakenSame(s.batches, Step(s, a).batches, run);
    }
  }

  // ---------------------------------------------------------------- every cell holds an appended event

  predicate Appended(s: State, e: PendingEvent) { e.serial < |s.appended| && s.appended[e.serial] == e }

  predicate AllAppended(s: State, es: seq<PendingEvent>) { forall j :: 0 <= j < |es| ==> Appended(s, es[j]) }

  ghost predicate Genuine(s: State) {
    && (forall j :: 0 <= j < |s.appended| ==> s.appended[j].serial == j)
    && (forall a :: 0 <= a < |s.store| ==> AllAppended(s, s.store[a]))
    && (forall k :: 0 <= k < |s.batches| ==> AllAppended(s, s.batches[k].taken) && AllAppended(s, s.batches[k].queued))
  }

  lemma AllAppendedGrows(s: State, t: State, es: seq<PendingEvent>)
    requires AllAppended(s, es) && s.appended <= t.appended
    ensures AllAppended(t, es)
  {
  }

  lemma GenuineAppend(s: State, e: PendingEvent, spare: nat)
    requires Shaped(s) && Genuine(s) && e.serial == |s.appended|
    ensures Genuine(DoAppend(s, e, spare))
  {
    var t := DoAppend(s, e, spare);
    assert s.appended <= t.appended && Appended(t, e);
    forall a | 0 <= a < |t.store| ensures AllAppended(t, t.store[a]) {
      if a < |s.store| {
        AllAppendedGrows(s, t, s.store[a]);
      } else {
        AllAppendedGrows(s, t, Live(s, e.runID));
      }
    }
    forall k | 0 <= k < |t.batches|
      ensures AllAppended(t, t.batches[k].taken) && AllAppended(t, t.batches[k].queued)
    {
      AllAppendedGrows(s, t, s.batches[k].taken);
      AllAppendedGrows(s, t, s.batches[k].queued);
    }
  }

  lemma GenuineTake(s: State, a: Action)
    requires Shaped(s) && Genuine(s) && (a.Flush? || a.Close?)
    ensures Genuine(Step(s, a))
  {
    BatchesAfterTake(s, a);
    var t := Step(s, a);
    assert t.store == s.store;
    assert AllAppended(s, Live(s, a.run));
    forall k | 0 <= k < |t.batches|
      ensures AllAppended(t, t.batches[k].taken) && AllAppended(t, t.batches[k].queued)
    {
      if k < |s.batches| {
        AllAppendedGrows(s, t, s.batches[k].taken);
        AllAppendedGrows(s, t, s.batches[k].queued);
      } else {
        AllAppendedGrows(s, t, Live(s, a.run));
      }
    }
    forall x | 0 <= x < |t.store| ensures AllAppended(t, t.store[x]) {
      AllAppendedGrows(s, t, s.store[x]);
    }
  }

  lemma GenuineQueue(s: State, k: nat)
    requires Shaped(s) && Genuine(s)
    ensures Genuine(Step(s, QueueNext(k)))
  {
    var t := Step(s, QueueNext(k));
    forall i | 0 <= i < |t.batches|
      ensures AllAppended(t, t.batches[i].taken) && AllAppended(t, t.batches[i].queued)
    {
      assert AllAppended(s, s.batches[i].taken) && AllAppended(s, s.batches[i].queued);
    }
    forall x | 0 <= x < |t.store| ensures AllAppended(t, t.store[x]) {
      AllAppendedGrows(s, t, s.store[x]);
    }
  }

  /** Whatever is buffered, taken or queued is an event that was appended, overtaken or not. */
  lemma {:induction false} RunGenuine(acts: seq<Action>)
    ensures Genuine(Run(acts))
  {
    if acts != [] {
      var s, a := Run(acts[..|acts| - 1]), acts[|acts| - 1];
      RunGenuine(acts[..|acts| - 1]);
      RunShaped(acts[..|acts| - 1]);
      match a
      case Append(r, ty, n, spare) => GenuineAppend(s, PendingEvent(r, ty, n, |s.appended|), spare);
      case Flush(_) => GenuineTake(s, a);
      case Close(_) => GenuineTake(s, a);
      case QueueNext(k) => GenuineQueue(s, k);
    }
  }

  // ---------------------------------------------------------------- what reaches the database

  /** What the loop over `b` hands over in the end if nobody appends meanwhile. */
  function Outcome(s: State, b: Batch): seq<PendingEvent>
    requires BatchShaped(s, b)
  {
    b.queued + s.store[b.arr][|b.queued|..|b.taken|]
  }

  /** Every event that is buffered or was taken came from an earlier append. */
  ghost predicate SerialsPast(s: State) {
    && (forall r, e :: e in Live(s, r) ==> e.serial < |s.appended|)
    && (forall k, e :: 0 <= k < |s.batches| && e in s.batches[k].taken ==> e.serial < |s.appended|)
  }

  ghost predicate FlagTrue(s: State, b: Batch)
    requires BatchShaped(s, b)
  {
    b.clobbered <==> Outcome(s, b) != b.taken
  }

  ghost predicate FlagsTrue(s: State)
    requires Shaped(s)
  {
    forall k :: 0 <= k < |s.batches| ==> FlagTrue(s, s.batches[k])
  }

  lemma SerialsAppend(s: State, e: PendingEvent, spare: nat)
    requires Shaped(s) && SerialsPast(s) && e.serial == |s.appended|
    ensures SerialsPast(DoAppend(s, e, spare))
  {
    var t := DoAppend(s, e, spare);
    forall r, x | x in Live(t, r) ensures x.serial < |t.appended| { LiveAfterAppend(s, e, spare, r); }
    forall k, x | 0 <= k < |t.batches| && x in t.batches[k].taken ensures x.serial < |t.appended| {
      assert x in s.batches[k].taken;
    }
  }

  lemma SerialsTake(s: State, a: Action)
    requires Shaped(s) && SerialsPast(s) && (a.Flush? || a.Close?)
    ensures SerialsPast(Step(s, a))
  {
    var t := Step(s, a);
    BatchesAfterTake(s, a);
    forall r, x | x in Live(t, r) ensures x.serial < |t.appended| { LiveAfterTake(s, a, r); }
  }

  lemma SerialsQueue(s: State, k: nat)
    requires Shaped(s) && SerialsPast(s)
    ensures SerialsPast(Step(s, QueueNext(k)))
  {
    var t := Step(s, QueueNext(k));
    assert forall r :: Live(t, r) == Live(s, r);
    assert forall i :: 0 <= i < |t.batches| ==> t.batches[i].taken == s.batches[i].taken;
  }

  /** One append seen from one batch: it is hit in place at `at`, or not at all. */
  lemma FlagAfterWrite(s: State, t: State, b: Batch, c: Batch, e: PendingEvent, at: nat)
    requires c == b.(clobbered := b.clobbered || |b.queued| <= at < |b.taken|)
    requires BatchShaped(s, b) && BatchShaped(t, c) && FlagTrue(s, b)
    requires at < |s.store[b.arr]| && t.store[b.arr] == s.store[b.arr][at := e]
    requires forall x :: x in b.taken ==> x != e
    ensures FlagTrue(t, c)
  {
    if |b.queued| <= at < |b.taken| {
      assert Outcome(t, c)[at] == e;
      assert b.taken[at] in b.taken;
    } else {
      assert Outcome(t, c) == Outcome(s, b);
    }
  }

  lemma FlagsAppend(s: State, e: PendingEvent, spare: nat)
    requires Shaped(s) && SerialsPast(s) && FlagsTrue(s) && e.serial == |s.appended|
    ensures Shaped(DoAppend(s, e, spare)) && FlagsTrue(DoAppend(s, e, spare))
  {
    var t := DoAppend(s, e, spare);
    ShapedAppend(s, e, spare);
    forall k | 0 <= k < |t.batches| ensures FlagTrue(t, t.batches[k]) {
      var b, c := s.batches[k], t.batches[k];
      assert BatchShaped(s, b) && BatchShaped(t, c) && FlagTrue(s, b);
      if t.store[b.arr] == s.store[b.arr] && b == c {
        assert Outcome(t, c) == Outcome(s, b);
      } else {
        FlagAfterWrite(s, t, b, c, e, s.buffers[e.runID].len);
      }
    }
  }

  lemma FlagsTake(s: State, a: Action)
    requires Shaped(s) && FlagsTrue(s) && (a.Flush? || a.Close?)
    ensures Shaped(Step(s, a)) && FlagsTrue(Step(s, a))
  {
    var t := Step(s, a);
    ShapedTake(s, a);
    BatchesAfterTake(s, a);
    forall k | 0 <= k < |t.batches| ensures FlagTrue(t, t.batches[k]) {
      assert BatchShaped(t, t.batches[k]);
      if k < |s.batches| {
        assert FlagTrue(s, s.batches[k]);
        assert Outcome(t, t.batches[k]) == Outcome(s, s.batches[k]);
      }
    }
  }

  lemma FlagsQueue(s: State, k: nat)
    requires Shaped(s) && FlagsTrue(s)
    ensures Shaped(Step(s, QueueNext(k))) && FlagsTrue(Step(s, QueueNext(k)))
  {
    var t := Step(s, QueueNext(k));
    ShapedQueue(s, k);
    forall i | 0 <= i < |t.batches| ensures FlagTrue(t, t.batches[i]) {
      assert BatchShaped(s, s.batches[i]) && BatchShaped(t, t.batches[i]) && FlagTrue(s, s.batches[i]);
      assert Outcome(t, t.batches[i]) == Outcome(s, s.batches[i]);
    }
  }

  lemma {:induction false} RunFlags(acts: seq<Action>)
    ensures Shaped(Run(acts)) && SerialsPast(Run(acts)) && FlagsTrue(Run(acts))
  {
    if acts != [] {
      var s, a := Run(acts[..|acts| - 1]), acts[|acts| - 1];
      RunFlags(acts[..|acts| - 1]);
      match a
      case Append(r, ty, n, spare) =>
        SerialsAppend(s, PendingEvent(r, ty, n, |s.appended|), spare);
        FlagsAppend(s, PendingEvent(r, ty, n, |s.appended|), spare);
      case Flush(_) => SerialsTake(s, a); FlagsTake(s, a);
      case Close(_) => SerialsTake(s, a); FlagsTake(s, a);
      case QueueNext(k) => SerialsQueue(s, k); FlagsQueue(s, k);
    }
  }

  /** A batch whose loop has finished handed over exactly the events it took, in order, if and only
      if no append hit one of its cells before the loop read it.  A batch taken by Close always does. */
  lemma BatchFaithfulIffNotClobbered(acts: seq<Action>, k: nat)
    requires k < |Run(acts).batches| && |Run(acts).batches[k].queued| == |Run(acts).batches[k].taken|
    ensures var b := Run(acts).batches[k];
      && (b.queued == b.taken <==> !b.clobbered)
      && (b.byClose ==> b.queued == b.taken)
  {
    RunFlags(acts);
    var s := Run(acts);
    assert BatchShaped(s, s.batches[k]) && FlagTrue(s, s.batches[k]);
  }

  // ---------------------------------------------------------------- what an overtaken batch hands over

  predicate Increasing(es: seq<PendingEvent>) { forall i, j :: 0 <= i < j < |es| ==> es[i].serial < es[j].serial }

  /** Cell by cell the loop hands over what was taken, or an event appended after all of that. */
  ghost predicate LaterOnly(out: seq<PendingEvent>, taken: seq<PendingEvent>) {
    && |out| == |taken|
    && forall j, i :: 0 <= j < |out| && 0 <= i < |taken| && out[j] != taken[j] ==> taken[i].serial < out[j].serial
  }

  ghost predicate Overtaking(s: State)
    requires Shaped(s)
  {
    && (forall r :: Increasing(Live(s, r)))
    && (forall k :: 0 <= k < |s.batches| ==> Increasing(s.batches[k].taken) && OutcomeLater(s, s.batches[k]))
  }

  ghost predicate OutcomeLater(s: State, b: Batch) { BatchShaped(s, b) && LaterOnly(Outcome(s, b), b.taken) }

  lemma OvertakingAppend(s: State, e: PendingEvent, spare: nat)
    requires Shaped(s) && SerialsPast(s) && Overtaking(s) && e.serial == |s.appended|
    ensures Shaped(DoAppend(s, e, spare)) && Overtaking(DoAppend(s, e, spare))
  {
    var t := DoAppend(s, e, spare);
    ShapedAppend(s, e, spare);
    forall r ensures Increasing(Live(t, r)) {
      LiveAfterAppend(s, e, spare, r);
      assert Increasing(Live(s, r));
      assert forall x :: x in Live(s, r) ==> x.serial < e.serial;
    }
    forall k | 0 <= k < |t.batches| ensures Increasing(t.batches[k].taken) && OutcomeLater(t, t.batches[k]) {
      OutcomeAfterAppend(s, e, spare, k);
    }
  }

  lemma OutcomeAfterAppend(s: State, e: PendingEvent, spare: nat, k: nat)
    requires Shaped(s) && SerialsPast(s) && Overtaking(s) && e.serial == |s.appended| && k < |s.batches|
    ensures var t := DoAppend(s, e, spare);
      k < |t.batches| && Increasing(t.batches[k].taken) && OutcomeLater(t, t.batches[k])
  {
    var t := DoAppend(s, e, spare);
    ShapedAppend(s, e, spare);
    var b, c := s.batches[k], t.batches[k];
    assert OutcomeLater(s, b) && BatchShaped(t, c) && c.taken == b.taken && c.queued == b.queued;
    var x, y := Outcome(s, b), Outcome(t, c);
    forall j | 0 <= j < |y|
      ensures y[j] == x[j] || y[j] == e
    {
    }
    assert forall i :: 0 <= i < |b.taken| ==> b.taken[i] in b.taken && b.taken[i].serial < e.serial;
  }

  lemma OvertakingTake(s: State, a: Action)
    requires Shaped(s) && Overtaking(s) && (a.Flush? || a.Close?)
    ensures Shaped(Step(s, a)) && Overtaking(Step(s, a))
  {
    var t := Step(s, a);
    ShapedTake(s, a);
    BatchesAfterTake(s, a);
    forall r ensures Increasing(Live(t, r)) {
      LiveAfterTake(s, a, r);
      assert Increasing(Live(s, r));
    }
    assert Increasing(Live(s, a.run));
    forall k | 0 <= k < |t.batches| ensures Increasing(t.batches[k].taken) && OutcomeLater(t, t.batches[k]) {
      assert BatchShaped(t, t.batches[k]);
      if k < |s.batches| {
        assert OutcomeLater(s, s.batches[k]);
        assert Outcome(t, t.batches[k]) == Outcome(s, s.batches[k]);
      } else {
        assert Outcome(t, t.batches[k]) == t.batches[k].taken;
      }
    }
  }

  lemma OvertakingQueue(s: State, k: nat)
    requires Shaped(s) && Overtaking(s)
    ensures Shaped(Step(s, QueueNext(k))) && Overtaking(Step(s, QueueNext(k)))
  {
    var t := Step(s, QueueNext(k));
    ShapedQueue(s, k);
    forall r ensures Increasing(Live(t, r)) {
      assert Live(t, r) == Live(s, r) && Increasing(Live(s, r));
    }
    forall i | 0 <= i < |t.batches| ensures Increasing(t.batches[i].taken) && OutcomeLater(t, t.batches[i]) {
      assert BatchShaped(t, t.batches[i]) && OutcomeLater(s, s.batches[i]);
      assert Outcome(t, t.batches[i]) == Outcome(s, s.batches[i]);
    }
  }

  lemma {:induction false} RunOvertaking(acts: seq<Action>)
    ensures Shaped(Run(acts)) && Overtaking(Run(acts))
  {
    if acts != [] {
      hide Overtaking, SerialsPast, Shaped, Step;
      var s, a := Run(acts[..|acts| - 1]), acts[|acts| - 1];
      RunOvertaking(acts[..|acts| - 1]);
      RunFlags(acts[..|acts| - 1]);
      match a {
        case Append(r, ty, n, spare) =>
          AppendIs(s, r, ty, n, spare);
          OvertakingAppend(s, PendingEvent(r, ty, n, |s.appended|), spare);
        case Flush(_) => OvertakingTake(s, a);
        case Close(_) => OvertakingTake(s, a);
        case QueueNext(k) => OvertakingQueue(s, k);
      }
    } else {
      assert Live(Init, 0) == [];
      assert forall r :: Live(Init, r) == [];
    }
  }

  lemma AppendIs(s: State, run: RunId, ty: string, n: int, spare: nat)
    ensures Step(s, Append(run, ty, n, spare)) == DoAppend(s, PendingEvent(run, ty, n, |s.appended|), spare)
  {
  }

  /** A cell that was overwritten before it was read: the event taken from it is handed over nowhere in its
      batch, and the one read from it was appended later and is none that the batch took. */
  lemma OverwrittenCell(acts: seq<Action>, k: nat, j: nat)
    requires k < |Run(acts).batches| && |Run(acts).batches[k].queued| == |Run(acts).batches[k].taken|
    requires var b := Run(acts).batches[k]; j < |b.taken| && b.queued[j] != b.taken[j]
    ensures var b := Run(acts).batches[k];
      && b.taken[j] !in b.queued && b.queued[j] !in b.taken && b.taken[j].serial < b.queued[j].serial
  {
    hide Run;
    RunOvertaking(acts);
    var s := Run(acts);
    var b := s.batches[k];
    assert OutcomeLater(s, b);
    assert Outcome(s, b) == b.queued;
    forall i | 0 <= i < |b.queued| ensures b.queued[i] != b.taken[j] {
    }
    forall i | 0 <= i < |b.taken| ensures b.taken[i] != b.queued[j] {
    }
  }

  /** A batch that was overwritten loses an event it took and hands over one it did not take. */
  lemma ClobberedLosesAndRepeats(acts: seq<Action>, k: nat) returns (j: nat)
    requires k < |Run(acts).batches| && |Run(acts).batches[k].queued| == |Run(acts).batches[k].taken|
    requires Run(acts).batches[k].clobbered
    ensures var b := Run(acts).batches[k];
      && j < |b.taken| && j < |b.queued| && b.taken[j] !in b.queued && b.queued[j] !in b.taken
      && b.queued[j] != b.taken[j]
  {
    hide Run;
    BatchFaithfulIffNotClobbered(acts, k);
    var b := Run(acts).batches[k];
    j :| 0 <= j < |b.taken| && b.queued[j] != b.taken[j];
    OverwrittenCell(acts, k, j);
  }

  /** What was handed to the database for a run, batch after batch. */
  function Handed(bs: seq<Batch>, run: RunId): seq<PendingEvent> {
    if bs == [] then []
    else Handed(bs[..|bs| - 1], run) + (if bs[|bs| - 1].run == run then bs[|bs| - 1].queued else [])
  }

  predicate Finished(bs: seq<Batch>) { forall k :: 0 <= k < |bs| ==> |bs[k].queued| == |bs[k].taken| }

  ghost predicate Faithful(bs: seq<Batch>, run: RunId) {
    forall k :: 0 <= k < |bs| && bs[k].run == run ==> bs[k].queued == bs[k].taken
  }

  lemma FaithfulSnoc(pre: seq<Batch>, b: Batch, run: RunId)
    ensures Faithful(pre + [b], run) <==> Faithful(pre, run) && (b.run == run ==> b.queued == b.taken)
  {
    if Faithful(pre + [b], run) {
      assert (pre + [b])[|pre|] == b;
      forall k | 0 <= k < |pre| && pre[k].run == run ensures pre[k].queued == pre[k].taken {
        assert (pre + [b])[k] == pre[k];
      }
    }
  }

  lemma ConcatEqual(a: seq<PendingEvent>, b: seq<PendingEvent>, x: seq<PendingEvent>, y: seq<PendingEvent>)
    requires |a| == |b| && |x| == |y|
    ensures a + x == b + y <==> a == b && x == y
  {
    if a + x == b + y {
      assert a == (a + x)[..|a|] && b == (b + y)[..|b|];
      assert x == (a + x)[|a|..] && y == (b + y)[|b|..];
    }
  }

  lemma {:induction false} HandedIsTaken(bs: seq<Batch>, run: RunId)
    requires Finished(bs)
    ensures |Handed(bs, run)| == |Taken(bs, run)|
    ensures Handed(bs, run) == Taken(bs, run) <==> Faithful(bs, run)
  {
    if bs != [] {
      var pre, b := bs[..|bs| - 1], bs[|bs| - 1];
      HandedIsTaken(pre, run);
      assert bs == pre + [b];
      FaithfulSnoc(pre, b, run);
      if b.run == run {
        ConcatEqual(Handed(pre, run), Taken(pre, run), b.queued, b.taken);
      } else {
        ConcatEqual(Handed(pre, run), Taken(pre, run), [], []);
      }
    }
  }

  /** Once all queue loops are done, a run's appended events are those handed to the database
      followed by those still buffered, each once and in order, if and only if no append overtook
      a queue loop of that run. */
  lemma ExactlyOnceIff(acts: seq<Action>, run: RunId)
    requires Finished(Run(acts).batches)
    ensures var s := Run(acts);
      Of(s.appended, run) == Handed(s.batches, run) + Live(s, run)
      <==> forall k :: 0 <= k < |s.batches| && s.batches[k].run == run ==> !s.batches[k].clobbered
  {
    var s := Run(acts);
    TakesPartitionAppends(acts, run);
    HandedIsTaken(s.batches, run);
    forall k | 0 <= k < |s.batches|
      ensures s.batches[k].queued == s.batches[k].taken <==> !s.batches[k].clobbered
    {
      BatchFaithfulIffNotClobbered(acts, k);
    }
    ConcatEqual(Taken(s.batches, run), Handed(s.batches, run), Live(s, run), Live(s, run));
  }

  lemma Snoc(acts: seq<Action>, a: Action)
    ensures Run(acts + [a]) == Step(Run(acts), a)
  {
    assert (acts + [a])[..|acts + [a]| - 1] == acts;
  }

  /** The queue loop over batch `k`, `n` elements long, run without interruption. */
  function Drain(k: nat, n: nat): seq<Action> { if n == 0 then [] else Drain(k, n - 1) + [QueueNext(k)] }

  /** From `s` to `t` the loop over batch `k` read `n` more elements and nothing else happened to it. */
  ghost predicate Advanced(s: State, t: State, k: nat, n: nat) {
    && Shaped(t) && k < |s.batches| && k < |t.batches| && t.batches[k].taken == s.batches[k].taken
    && BatchShaped(t, t.batches[k]) && BatchShaped(s, s.batches[k])
    && Outcome(t, t.batches[k]) == Outcome(s, s.batches[k])
    && |t.batches[k].queued| == |s.batches[k].queued| + n
  }

  lemma AdvancedStep(s: State, t: State, k: nat, n: nat)
    requires Advanced(s, t, k, n) && |t.batches[k].queued| < |t.batches[k].taken|
    ensures Advanced(s, Step(t, QueueNext(k)), k, n + 1)
  {
    ShapedQueue(t, k);
    var u := Step(t, QueueNext(k));
    assert BatchShaped(u, u.batches[k]);
    assert Outcome(u, u.batches[k]) == Outcome(t, t.batches[k]);
  }

  function Drained(s: State, k: nat, n: nat): State {
    if n == 0 then s else Step(Drained(s, k, n - 1), QueueNext(k))
  }

  lemma {:induction false} DrainRun(acts: seq<Action>, k: nat, n: nat)
    ensures Run(acts + Drain(k, n)) == Drained(Run(acts), k, n)
  {
    if n == 0 {
      assert acts + Drain(k, 0) == acts;
    } else {
      DrainRun(acts, k, n - 1);
      assert acts + Drain(k, n) == (acts + Drain(k, n - 1)) + [QueueNext(k)];
      Snoc(acts + Drain(k, n - 1), QueueNext(k));
    }
  }

  lemma {:induction false} DrainAdvances(s: State, k: nat, n: nat)
    requires Shaped(s) && k < |s.batches| && |s.batches[k].queued| + n <= |s.batches[k].taken|
    ensures Advanced(s, Drained(s, k, n), k, n)
  {
    if n == 0 {
      assert BatchShaped(s, s.batches[k]);
    } else {
      DrainAdvances(s, k, n - 1);
      AdvancedStep(s, Drained(s, k, n - 1), k, n - 1);
    }
  }

  lemma FlushThenAppend(s: State, run: RunId, e: PendingEvent, spare: nat)
    requires Shaped(s) && Live(s, run) != [] && e.runID == run
    ensures var t := DoAppend(Step(s, Flush(run)), e, spare);
      var k := |s.batches|;
      && Shaped(t) && |t.batches| == k + 1 && BatchShaped(t, t.batches[k])
      && t.batches[k].taken == Live(s, run) && t.batches[k].queued == [] && t.batches[k].clobbered
      && Outcome(t, t.batches[k]) == [e] + Live(s, run)[1..]
  {
    ShapedTake(s, Flush(run));
    var m := Step(s, Flush(run));
    assert m.batches[|s.batches|] == TakeBatch(s, run, false);
    ShapedAppend(m, e, spare);
    var t := DoAppend(m, e, spare);
    assert BatchShaped(t, t.batches[|s.batches|]);
  }

  /** From any reachable state with buffered events: an append between the flush and its queue loop
      replaces the first flushed event, which then never reaches the database. */
  lemma AppendOvertakesFlush(acts: seq<Action>, run: RunId, ty: string, n: int, spare: nat)
    requires Live(Run(acts), run) != []
    ensures var s := Run(acts);
      var taken, k := Live(s, run), |s.batches|;
      var e := PendingEvent(run, ty, n, |s.appended|);
      var t := Run(acts + [Flush(run)] + [Append(run, ty, n, spare)] + Drain(k, |taken|));
      k < |t.batches| && t.batches[k].taken == taken && t.batches[k].queued == [e] + taken[1..] && taken[0] != e
  {
    var s := Run(acts);
    var taken, k := Live(s, run), |s.batches|;
    var e := PendingEvent(run, ty, n, |s.appended|);
    var mid := acts + [Flush(run)] + [Append(run, ty, n, spare)];
    RunFlags(acts);
    assert taken[0] in taken;
    Snoc(acts, Flush(run));
    Snoc(acts + [Flush(run)], Append(run, ty, n, spare));
    FlushThenAppend(s, run, e, spare);
    assert Run(mid) == DoAppend(Step(s, Flush(run)), e, spare);
    DrainRun(mid, k, |taken|);
    DrainAdvances(Run(mid), k, |taken|);
    var t := Run(mid + Drain(k, |taken|));
    assert t.batches[k].queued == Outcome(t, t.batches[k]);
  }

  // ---------------------------------------------------------------- what is appended is handed over

  /** The events of the append calls, in order. */
  function Appends(acts: seq<Action>): seq<PendingEvent> {
    if acts == [] then []
    else
      var pre, a := Appends(acts[..|acts| - 1]), acts[|acts| - 1];
      if a.Append? then pre + [PendingEvent(a.run, a.eventType, a.sequence, |pre|)] else pre
  }

  lemma {:induction false} AppendedAre(acts: seq<Action>)
    ensures Run(acts).appended == Appends(acts)
  {
    if acts != [] {
      AppendedAre(acts[..|acts| - 1]);
    }
  }

  lemma TakenUndisturbed(s: State, a: Action)
    requires Shaped(s) && (a.Flush? || a.Close?) && Live(s, a.run) != []
    ensures var t := Step(s, a);
      var k := |s.batches|;
      && Shaped(t) && |t.batches| == k + 1 && t.batches[k].run == a.run && BatchShaped(t, t.batches[k])
      && t.batches[k].taken == Live(s, a.run) && t.batches[k].queued == [] && Outcome(t, t.batches[k]) == Live(s, a.run)
  {
    ShapedTake(s, a);
    BatchesAfterTake(s, a);
    var t := Step(s, a);
    assert BatchShaped(t, t.batches[|s.batches|]);
  }

  /** A flush or close that nothing disturbs hands over exactly what was buffered for the run, in order, and
      leaves its buffer empty; without buffered events it makes no batch.  A close also forgets the buffer. */
  lemma UndisturbedHandsOver(acts: seq<Action>, a: Action)
    requires a.Flush? || a.Close?
    ensures var s := Run(acts);
      var taken, k := Live(s, a.run), |s.batches|;
      var t := Run(acts + [a] + Drain(k, |taken|));
      && Live(t, a.run) == [] && t.appended == s.appended && (a.Close? ==> a.run !in t.buffers)
      && (if taken == [] then t.batches == s.batches
          else |t.batches| == k + 1 && t.batches[k].run == a.run && t.batches[k].queued == t.batches[k].taken == taken)
  {
    var s := Run(acts);
    var taken, k := Live(s, a.run), |s.batches|;
    RunShaped(acts);
    Snoc(acts, a);
    LiveAfterTake(s, a, a.run);
    BatchesAfterTake(s, a);
    CloseForgets(s, a);
    DrainRun(acts + [a], k, |taken|);
    DrainKeeps(Step(s, a), k, |taken|, a.run);
    if taken != [] {
      TakenUndisturbed(s, a);
      DrainAdvances(Step(s, a), k, |taken|);
      var t := Drained(Step(s, a), k, |taken|);
      assert t.batches[k].queued == Outcome(t, t.batches[k]);
    }
  }

  lemma CloseForgets(s: State, a: Action)
    ensures a.Close? ==> a.run !in Step(s, a).buffers
  {
  }

  lemma {:induction false} DrainKeeps(s: State, k: nat, n: nat, run: RunId)
    ensures var t := Drained(s, k, n);
      && t.buffers == s.buffers && t.store == s.store && t.appended == s.appended && |t.batches| == |s.batches|
      && Live(t, run) == Live(s, run) && (forall i :: 0 <= i < |s.batches| ==> t.batches[i].run == s.batches[i].run)
      && (k < |s.batches| || t.batches == s.batches)
  {
    if n > 0 {
      DrainKeeps(s, k, n - 1, run);
    }
  }

  // ---------------------------------------------------------------- the writer, on real arrays

  datatype HeapSlice = HeapSlice(arr: array<PendingEvent>, len: nat)

  class BatchEventWriter {
    var buffers: map<RunId, HeapSlice>

    ghost predicate Valid()
      reads this, set r | r in buffers :: buffers[r].arr
    {
      && (forall r :: r in buffers ==> buffers[r].len <= buffers[r].arr.Length)
      && (forall r, r' :: r in buffers && r' in buffers && r != r' ==> buffers[r].arr != buffers[r'].arr)
    }

    ghost function Contents(run: RunId): seq<PendingEvent>
      requires Valid()
      reads this, set r | r in buffers :: buffers[r].arr
    {
      if run in buffers then buffers[run].arr[..buffers[run].len] else []
    }

    constructor ()
      ensures Valid() && buffers == map[]
    {
      buffers := map[];
    }

    /** Append extends its own run and no other.  While capacity lasts it writes into the array that
        is already there: only the cell after the last buffered event changes. */
    method AppendEvent(run: RunId, e: PendingEvent, spare: nat)
      requires Valid()
      modifies this, if run in buffers then {buffers[run].arr} else {}
      ensures Valid() && run in buffers
      ensures Contents(run) == old(Contents(run)) + [e]
      ensures forall r :: r != run ==> (r in buffers <==> r in old(buffers))
      ensures forall r :: r in buffers && r != run ==> buffers[r] == old(buffers)[r]
      ensures if run in old(buffers) && old(buffers)[run].len < old(buffers)[run].arr.Length
        then buffers[run].arr == old(buffers)[run].arr
          && buffers[run].arr[..] == old(buffers[run].arr[..])[old(buffers)[run].len := e]
        else fresh(buffers[run].arr)
    {
      if run in buffers && buffers[run].len < buffers[run].arr.Length {
        var b := buffers[run];
        b.arr[b.len] := e;
        buffers := buffers[run := HeapSlice(b.arr, b.len + 1)];
      } else {
        var n := if run in buffers then buffers[run].len else 0;
        var grown := new PendingEvent[n + 1 + spare](_ => e);
        if run in buffers {
          forall i | 0 <= i < n { grown[i] := buffers[run].arr[i]; }
        }
        assert grown[..n + 1] == old(Contents(run)) + [e];
        buffers := buffers[run := HeapSlice(grown, n + 1)];
      }
    }

    /** The slice handed out and the live buffer share one array. */
    method FlushInternal(run: RunId) returns (events: seq<HeapSlice>)
      requires Valid()
      modifies this
      ensures Valid() && Contents(run) == []
      ensures events == [] <==> old(Contents(run)) == []
      ensures events == [] ==> buffers == old(buffers)
      ensures events != [] ==>
                && run in old(buffers) && events == [old(buffers)[run]]
                && events[0].arr[..events[0].len] == old(Contents(run))
                && buffers == old(buffers)[run := HeapSlice(events[0].arr, 0)]
    {
      events := [];
      if run in buffers && buffers[run].len > 0 {
        events := [buffers[run]];
        buffers := buffers[run := HeapSlice(buffers[run].arr, 0)];
      }
    }

    /** Close takes the slice away from the map: nothing the writer does later can reach its array. */
    method TakeEvents(run: RunId) returns (events: seq<HeapSlice>)
      requires Valid()
      modifies this
      ensures Valid() && buffers == old(buffers) - {run}
      ensures events == if run in old(buffers) then [old(buffers)[run]] else []
      ensures events != [] ==>
                && events[0].arr[..events[0].len] == old(Contents(run))
                && forall r :: r in buffers ==> buffers[r].arr != events[0].arr
    {
      events := [];
      if run in buffers {
        events := [buffers[run]];
        buffers := buffers - {run};
      }
    }

    /** The queue loop: it reads the backing array as it is when each element is reached. */
    method ExecuteBatch(events: HeapSlice) returns (queued: seq<PendingEvent>)
      requires events.len <= events.arr.Length
      ensures queued == events.arr[..events.len]
    {
      queued := [];
      for i := 0 to events.len
        invariant queued == events.arr[..i]
      {
        queued := queued + [events.arr[i]];
      }
    }

    /** The race on the heap: with an append between the flush and the loop, the first buffered event
        is replaced by the appended one, whatever was buffered. */
    method FlushRacedByAppend(run: RunId, e: PendingEvent) returns (queued: seq<PendingEvent>)
      requires Valid() && Contents(run) != []
      modifies this, if run in buffers then {buffers[run].arr} else {}
      ensures queued == [e] + old(Contents(run))[1..]
    {
      var events := FlushInternal(run);
      AppendEvent(run, e, 0);
      queued := ExecuteBatch(events[0]);
    }
  }
}
