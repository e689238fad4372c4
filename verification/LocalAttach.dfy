/** Attaching a local terminal to a running session: the attach handler copies the scrollback, then
    registers for live output, while the forwarder goroutine writes each chunk first to the
    scrollback and then to the registered clients.
 */
module LocalAttach {
  import opened RingBuffer

  type ClientId = nat
  type Chunk = seq<Byte>

  datatype Phase = Attaching | Attached(reg: nat) | Detached(reg: nat, until: nat)

  /** `snap` chunks were in the scrollback when it was copied; `reg` chunks had been fanned out when
      the client registered; `out` is everything written to its connection. */
  datatype Client = Client(snap: nat, phase: Phase, out: seq<Byte>)

  /** `chunks` are the chunks written to the ring so far, `fanned` how many of them went to clients. */
  datatype State = State(chunks: seq<Chunk>, ring: Ring, fanned: nat,
                         clients: map<ClientId, Client>, localClients: seq<ClientId>)

  const Init := State([], Empty(DEFAULT_CAPACITY), 0, map[], [])

  datatype Action =
    | RingWrite(data: Chunk)
    | FanOut
    | CopyScrollback(id: ClientId)
    | Register(id: ClientId)
    | Detach(id: ClientId)

  function Remove(cs: seq<ClientId>, id: ClientId): seq<ClientId> {
    if cs == [] then [] else if cs[0] == id then cs[1..] else [cs[0]] + Remove(cs[1..], id)
  }

  function Sent(c: Client, data: Chunk): Client { c.(out := c.out + data) }

  function Deliver(clients: map<ClientId, Client>, to: seq<ClientId>, data: Chunk): map<ClientId, Client> {
    map id | id in clients :: if id in to then Sent(clients[id], data) else clients[id]
  }

  function Step(s: State, a: Action): State
    requires s.ring.Valid()
    ensures Step(s, a).ring.Valid()
  {
    match a
    case RingWrite(data) =>
      if s.fanned == |s.chunks| then s.(chunks := s.chunks + [data], ring := WriteAll(s.ring, data)) else s
    case FanOut =>
      if s.fanned < |s.chunks|
      then s.(fanned := s.fanned + 1, clients := Deliver(s.clients, s.localClients, s.chunks[s.fanned])) else s
    case CopyScrollback(id) =>
      if id in s.clients then s
      else s.(clients := s.clients[id := Client(|s.chunks|, Attaching, Snapshot(s.ring))])
    case Register(id) =>
      if id in s.clients && s.clients[id].phase.Attaching?
      then s.(clients := s.clients[id := s.clients[id].(phase := Attached(s.fanned))],
              localClients := s.localClients + [id]) else s
    case Detach(id) =>
      if id in s.clients && s.clients[id].phase.Attached?
      then s.(clients := s.clients[id := s.clients[id].(phase := Detached(s.clients[id].phase.reg, s.fanned))],
              localClients := Remove(s.localClients, id)) else s
  }

  function Run(acts: seq<Action>): (s: State)
    ensures s.ring.Valid()
  {
    if acts == [] then Init else Step(Run(acts[..|acts| - 1]), acts[|acts| - 1])
  }

  function Bytes(cs: seq<Chunk>): seq<Byte> {
    if cs == [] then [] else Bytes(cs[..|cs| - 1]) + cs[|cs| - 1]
  }

  // ---------------------------------------------------------------- invariants

  ghost predicate Distinct(cs: seq<ClientId>) { forall i, j :: 0 <= i < j < |cs| ==> cs[i] != cs[j] }

  lemma DistinctFirst(c: ClientId, cs: seq<ClientId>)
    requires Distinct(cs) && c !in cs
    ensures Distinct([c] + cs)
  {
  }

  lemma {:induction false} RemoveSpec(cs: seq<ClientId>, id: ClientId)
    requires Distinct(cs)
    ensures Distinct(Remove(cs, id))
    ensures forall x :: x in Remove(cs, id) <==> x in cs && x != id
  {
    if cs != [] {
      RemoveSpec(cs[1..], id);
      assert cs == [cs[0]] + cs[1..];
      assert cs[0] !in cs[1..];
      if cs[0] != id {
        DistinctFirst(cs[0], Remove(cs[1..], id));
      }
    }
  }

  lemma {:induction false} RemoveFirst(cs: seq<ClientId>, id: ClientId, i: nat)
    requires i < |cs| && cs[i] == id && id !in cs[..i]
    ensures Remove(cs, id) == cs[..i] + cs[i + 1..]
  {
    if i > 0 {
      assert cs[0] in cs[..i];
      assert cs[1..][..i - 1] == cs[..i][1..];
      RemoveFirst(cs[1..], id, i - 1);
    }
  }

  lemma {:induction false} RemoveAbsent(cs: seq<ClientId>, id: ClientId)
    requires id !in cs
    ensures Remove(cs, id) == cs
  {
    if cs != [] {
      RemoveAbsent(cs[1..], id);
    }
  }

  lemma {:induction false} RemoveAdded(cs: seq<ClientId>, id: ClientId)
    requires id !in cs
    ensures Remove(cs + [id], id) == cs
  {
    if cs != [] {
      RemoveAdded(cs[1..], id);
      assert (cs + [id])[1..] == cs[1..] + [id];
    } else {
      assert [id][1..] == [];
    }
  }

  lemma BytesAppend(cs: seq<Chunk>, c: Chunk)
    ensures Bytes(cs + [c]) == Bytes(cs) + c
  {
    assert (cs + [c])[..|cs + [c]| - 1] == cs;
  }

  /** The chunks a registered client is owed by now. */
  function LiveUpTo(s: State, c: Client): nat {
    match c.phase
    case Attaching => 0
    case Attached(_) => s.fanned
    case Detached(_, until) => until
  }

  function Scrollback(cs: seq<Chunk>): seq<Byte> { Snapshot(WriteAll(Empty(DEFAULT_CAPACITY), Bytes(cs))) }

  ghost predicate ClientTrue(s: State, c: Client) {
    && s.fanned <= |s.chunks| && c.snap <= |s.chunks| && c.snap <= s.fanned + 1
    && match c.phase
       case Attaching => c.out == Scrollback(s.chunks[..c.snap])
       case Attached(reg) =>
         c.snap <= reg + 1 && reg <= s.fanned
         && c.out == Scrollback(s.chunks[..c.snap]) + Bytes(s.chunks[reg..s.fanned])
       case Detached(reg, until) =>
         c.snap <= reg + 1 && reg <= until <= s.fanned
         && c.out == Scrollback(s.chunks[..c.snap]) + Bytes(s.chunks[reg..until])
  }

  ghost predicate Frame(s: State) {
    && s.fanned <= |s.chunks| <= s.fanned + 1
    && s.ring == WriteAll(Empty(DEFAULT_CAPACITY), Bytes(s.chunks))
    && Distinct(s.localClients)
    && (forall id :: id in s.localClients <==> id in s.clients && s.clients[id].phase.Attached?)
  }

  ghost predicate Inv(s: State) {
    Frame(s) && forall id :: id in s.clients ==> ClientTrue(s, s.clients[id])
  }

  lemma ClientKept(s: State, t: State, c: Client)
    requires Frame(s) && ClientTrue(s, c) && t.fanned == s.fanned && s.chunks <= t.chunks
    ensures ClientTrue(t, c)
  {
    assert t.chunks[..c.snap] == s.chunks[..c.snap];
    if c.phase.Attached? { assert t.chunks[c.phase.reg..t.fanned] == s.chunks[c.phase.reg..s.fanned]; }
    if c.phase.Detached? { assert t.chunks[c.phase.reg..c.phase.until] == s.chunks[c.phase.reg..c.phase.until]; }
  }

  lemma BytesNext(cs: seq<Chunk>, from: nat, n: nat)
    requires from <= n < |cs|
    ensures Bytes(cs[from..n + 1]) == Bytes(cs[from..n]) + cs[n]
  {
    assert cs[from..n + 1] == cs[from..n] + [cs[n]];
    BytesAppend(cs[from..n], cs[n]);
  }

  lemma ClientServed(s: State, t: State, c: Client)
    requires Frame(s) && ClientTrue(s, c)
    requires s.fanned < |s.chunks| && t.chunks == s.chunks && t.fanned == s.fanned + 1
    ensures ClientTrue(t, if c.phase.Attached? then c.(out := c.out + s.chunks[s.fanned]) else c)
  {
    hide Bytes, Scrollback, WriteAll;
    if c.phase.Attached? {
      BytesNext(s.chunks, c.phase.reg, s.fanned);
    }
  }

  lemma InvForwarder(s: State, a: Action)
    requires s.ring.Valid() && Inv(s) && (a.RingWrite? || a.FanOut?)
    ensures Inv(Step(s, a))
  {
    var t := Step(s, a);
    if a.RingWrite? && s.fanned == |s.chunks| {
      BytesAppend(s.chunks, a.data);
      WriteAllCompose(Empty(DEFAULT_CAPACITY), Bytes(s.chunks), a.data);
      forall id | id in t.clients ensures ClientTrue(t, t.clients[id]) { ClientKept(s, t, s.clients[id]); }
    } else if a.FanOut? && s.fanned < |s.chunks| {
      forall id | id in t.clients ensures ClientTrue(t, t.clients[id]) { ClientServed(s, t, s.clients[id]); }
    }
  }

  lemma InvCopy(s: State, id: ClientId)
    requires s.ring.Valid() && Inv(s)
    ensures Inv(Step(s, CopyScrollback(id)))
  {
    var t := Step(s, CopyScrollback(id));
    assert s.chunks[..|s.chunks|] == s.chunks;
    forall i | i in t.clients ensures ClientTrue(t, t.clients[i]) {
      if i in s.clients { ClientKept(s, t, s.clients[i]); }
    }
  }

  lemma InvRegister(s: State, id: ClientId)
    requires s.ring.Valid() && Inv(s)
    ensures Inv(Step(s, Register(id)))
  {
    var t := Step(s, Register(id));
    if id in s.clients && s.clients[id].phase.Attaching? {
      assert id !in s.localClients;
      var c := s.clients[id];
      assert Bytes(s.chunks[s.fanned..s.fanned]) == [];
      assert ClientTrue(s, c);
      assert Scrollback(s.chunks[..c.snap]) + [] == Scrollback(s.chunks[..c.snap]);
    }
    forall i | i in t.clients ensures ClientTrue(t, t.clients[i]) {
      if i != id { ClientKept(s, t, s.clients[i]); }
    }
  }

  lemma ClientDetached(s: State, t: State, c: Client)
    requires ClientTrue(s, c) && c.phase.Attached? && t.fanned == s.fanned && t.chunks == s.chunks
    ensures ClientTrue(t, c.(phase := Detached(c.phase.reg, s.fanned)))
  {
    hide Bytes, Scrollback;
  }

  /** Detaching changes one client's phase and takes it off the list. */
  ghost predicate Leaves(s: State, t: State, id: ClientId) {
    && id in s.clients && s.clients[id].phase.Attached?
    && t.chunks == s.chunks && t.ring == s.ring && t.fanned == s.fanned
    && t.clients == s.clients[id := s.clients[id].(phase := Detached(s.clients[id].phase.reg, s.fanned))]
    && t.localClients == Remove(s.localClients, id)
  }

  lemma FrameDetach(s: State, t: State, id: ClientId)
    requires Frame(s) && Leaves(s, t, id)
    ensures Frame(t)
  {
    hide Bytes, WriteAll, Remove, Distinct;
    RemoveSpec(s.localClients, id);
  }

  lemma InvDetach(s: State, id: ClientId)
    requires s.ring.Valid() && Inv(s)
    ensures Inv(Step(s, Detach(id)))
  {
    var t := Step(s, Detach(id));
    hide Frame, ClientTrue, Remove;
    if t != s {
      assert Leaves(s, t, id);
      FrameDetach(s, t, id);
      forall i | i in t.clients ensures ClientTrue(t, t.clients[i]) {
        if i == id { ClientDetached(s, t, s.clients[i]); } else { ClientKept(s, t, s.clients[i]); }
      }
    }
  }

  lemma {:induction false} RunInv(acts: seq<Action>)
    ensures Inv(Run(acts))
  {
    if acts != [] {
      var s, a := Run(acts[..|acts| - 1]), acts[|acts| - 1];
      RunInv(acts[..|acts| - 1]);
      match a
      case RingWrite(_) => InvForwarder(s, a);
      case FanOut => InvForwarder(s, a);
      case CopyScrollback(id) => InvCopy(s, id);
      case Register(id) => InvRegister(s, id);
      case Detach(id) => InvDetach(s, id);
    }
  }

  // ---------------------------------------------------------------- results

  /** In every interleaving, as long as the scrollback has not overflowed when it is copied, a client
      sees the first `snap` chunks and then chunks reg, reg + 1, ... in order, where `reg` is at least
      snap - 1. */
  lemma AttachedClientSees(acts: seq<Action>, id: ClientId)
    requires var s := Run(acts);
      && id in s.clients && !s.clients[id].phase.Attaching? && s.clients[id].snap <= |s.chunks|
      && |Bytes(s.chunks[..s.clients[id].snap])| <= DEFAULT_CAPACITY
    ensures var s := Run(acts);
      var c := s.clients[id];
      && c.phase.reg <= LiveUpTo(s, c) <= |s.chunks| && c.snap <= c.phase.reg + 1
      && c.out == Bytes(s.chunks[..c.snap]) + Bytes(s.chunks[c.phase.reg..LiveUpTo(s, c)])
  {
    RunInv(acts);
    var s := Run(acts);
    assert ClientTrue(s, s.clients[id]);
    SnapshotIsEverything(DEFAULT_CAPACITY, Bytes(s.chunks[..s.clients[id].snap]));
  }

  /** How often chunk `k` reaches the client: from the scrollback and from the fan-out. */
  function Copies(s: State, c: Client, k: nat): nat
    requires !c.phase.Attaching?
  {
    (if k < c.snap then 1 else 0) + (if c.phase.reg <= k < LiveUpTo(s, c) then 1 else 0)
  }

  /** Of the chunks fanned out so far, one is missing exactly when it entered the scrollback after the
      copy and was fanned out before the registration; at most one chunk comes twice, and a gap and a
      duplicate never occur together. */
  lemma GapOrDuplicate(acts: seq<Action>, id: ClientId, j: nat, k: nat)
    requires var s := Run(acts);
      id in s.clients && !s.clients[id].phase.Attaching? && j < LiveUpTo(s, s.clients[id]) && k < LiveUpTo(s, s.clients[id])
    ensures var s := Run(acts);
      var c := s.clients[id];
      && (Copies(s, c, k) == 0 <==> c.snap <= k < c.phase.reg)
      && (Copies(s, c, k) == 2 <==> k == c.phase.reg == c.snap - 1)
      && (Copies(s, c, j) == 2 && Copies(s, c, k) == 2 ==> j == k)
      && !(Copies(s, c, j) == 2 && Copies(s, c, k) == 0)
  {
    RunInv(acts);
    assert ClientTrue(Run(acts), Run(acts).clients[id]);
  }

  lemma Snoc(acts: seq<Action>, a: Action)
    ensures Run(acts + [a]) == Step(Run(acts), a)
  {
    assert (acts + [a])[..|acts|] == acts;
  }

  /** At step k the client copied the scrollback, with this many chunks written; registered, with this many
      fanned out; left, with this many fanned out. */
  ghost predicate CopiedAt(acts: seq<Action>, id: ClientId, snap: nat, k: nat)
    requires k < |acts|
  {
    acts[k] == CopyScrollback(id) && id !in Run(acts[..k]).clients && |Run(acts[..k]).chunks| == snap
  }

  ghost predicate RegisteredAt(acts: seq<Action>, id: ClientId, reg: nat, k: nat)
    requires k < |acts|
  {
    acts[k] == Register(id) && Run(acts[..k]).fanned == reg
  }

  ghost predicate LeftAt(acts: seq<Action>, id: ClientId, until: nat, k: nat)
    requires k < |acts|
  {
    acts[k] == Detach(id) && Run(acts[..k]).fanned == until
  }

  ghost predicate Dated(acts: seq<Action>, id: ClientId, c: Client) {
    && (exists k :: 0 <= k < |acts| && CopiedAt(acts, id, c.snap, k))
    && (!c.phase.Attaching? ==> exists k :: 0 <= k < |acts| && RegisteredAt(acts, id, c.phase.reg, k))
    && (c.phase.Detached? ==> exists k :: 0 <= k < |acts| && LeftAt(acts, id, c.phase.until, k))
  }

  lemma DatedLater(acts: seq<Action>, id: ClientId, c: Client)
    requires acts != [] && Dated(acts[..|acts| - 1], id, c)
    ensures Dated(acts, id, c)
  {
    hide Run;
    var pre := acts[..|acts| - 1];
    assert forall k :: 0 <= k < |pre| ==> pre[..k] == acts[..k] && pre[k] == acts[k];
    var k :| 0 <= k < |pre| && CopiedAt(pre, id, c.snap, k);
    assert CopiedAt(acts, id, c.snap, k);
    if !c.phase.Attaching? {
      var m :| 0 <= m < |pre| && RegisteredAt(pre, id, c.phase.reg, m);
      assert RegisteredAt(acts, id, c.phase.reg, m);
    }
    if c.phase.Detached? {
      var m :| 0 <= m < |pre| && LeftAt(pre, id, c.phase.until, m);
      assert LeftAt(acts, id, c.phase.until, m);
    }
  }

  /** How a step changes what a client remembers. */
  lemma ClientStep(s: State, a: Action, id: ClientId)
    requires s.ring.Valid() && id in Step(s, a).clients
    ensures var c := Step(s, a).clients[id];
      if id !in s.clients then a == CopyScrollback(id) && c.snap == |s.chunks| && c.phase.Attaching?
      else if a == Register(id) && s.clients[id].phase.Attaching?
      then c.snap == s.clients[id].snap && c.phase == Attached(s.fanned)
      else if a == Detach(id) && s.clients[id].phase.Attached?
      then c.snap == s.clients[id].snap && c.phase == Detached(s.clients[id].phase.reg, s.fanned)
      else c.snap == s.clients[id].snap && c.phase == s.clients[id].phase
  {
    hide WriteAll, Remove, Snapshot;
  }

  /** What a client remembers are the moments of its own calls. */
  lemma {:induction false} ClientsAreDated(acts: seq<Action>, id: ClientId)
    requires id in Run(acts).clients
    ensures Dated(acts, id, Run(acts).clients[id])
  {
    if acts != [] {
      var n := |acts| - 1;
      var s := Run(acts[..n]);
      ClientStep(s, acts[n], id);
      hide Step, Run;
      Snoc(acts[..n], acts[n]);
      assert acts == acts[..n] + [acts[n]];
      var c := Run(acts).clients[id];
      if id in s.clients {
        ClientsAreDated(acts[..n], id);
        DatedLater(acts, id, s.clients[id]);
        if c.phase != s.clients[id].phase {
          if acts[n].Register? { assert RegisteredAt(acts, id, c.phase.reg, n); } else { assert LeftAt(acts, id, c.phase.until, n); }
        }
      } else {
        assert CopiedAt(acts, id, c.snap, n);
      }
    }
  }

  /** The forwarder's two steps for one chunk: it is in the scrollback, and every registered client and no other
      has been sent it. */
  lemma ForwardedOnce(s: State, data: Chunk)
    requires s.ring.Valid() && Inv(s) && s.fanned == |s.chunks|
    ensures var t := Step(Step(s, RingWrite(data)), FanOut);
      && t.chunks == s.chunks + [data] && t.fanned == s.fanned + 1 && t.ring == WriteAll(s.ring, data)
      && t.localClients == s.localClients && t.clients.Keys == s.clients.Keys
      && (forall id :: id in s.clients ==>
            t.clients[id] == if s.clients[id].phase.Attached? then Sent(s.clients[id], data) else s.clients[id])
  {
    hide WriteAll, Bytes, ClientTrue;
  }

  function Forwarding(ds: seq<Chunk>): seq<Action> {
    if ds == [] then [] else Forwarding(ds[..|ds| - 1]) + [RingWrite(ds[|ds| - 1])] + [FanOut]
  }

  /** The client is attached and has been sent `out`; the forwarder is at rest. */
  ghost predicate Served(s: State, id: ClientId, chunks: seq<Chunk>, out: seq<Byte>) {
    && s.fanned == |s.chunks| && s.chunks == chunks
    && id in s.clients && s.clients[id].phase.Attached? && s.clients[id].out == out
  }

  lemma {:induction false} ForwardingServes(acts: seq<Action>, id: ClientId, ds: seq<Chunk>)
    requires var s := Run(acts); s.fanned == |s.chunks| && id in s.clients && s.clients[id].phase.Attached?
    ensures var s := Run(acts); Served(Run(acts + Forwarding(ds)), id, s.chunks + ds, s.clients[id].out + Bytes(ds))
  {
    hide Run, Step, Inv;
    if ds == [] {
      assert acts + Forwarding(ds) == acts && Run(acts).chunks + [] == Run(acts).chunks;
    } else {
      hide Served;
      var pre, data := ds[..|ds| - 1], ds[|ds| - 1];
      var s, a := Run(acts), acts + Forwarding(pre);
      ForwardingServes(acts, id, pre);
      RunInv(a);
      ServedOnce(Run(a), id, s.chunks + pre, s.clients[id].out + Bytes(pre), data);
      Snoc(a, RingWrite(data));
      Snoc(a + [RingWrite(data)], FanOut);
      assert acts + Forwarding(ds) == a + [RingWrite(data)] + [FanOut];
      assert s.chunks + ds == s.chunks + pre + [data];
      assert s.clients[id].out + Bytes(ds) == s.clients[id].out + Bytes(pre) + data;
    }
  }

  lemma ServedOnce(s: State, id: ClientId, chunks: seq<Chunk>, out: seq<Byte>, data: Chunk)
    requires s.ring.Valid() && Inv(s) && Served(s, id, chunks, out)
    ensures Served(Step(Step(s, RingWrite(data)), FanOut), id, chunks + [data], out + data)
  {
    hide Step, Inv;
    ForwardedOnce(s, data);
  }

  lemma AttachSteps(s: State, id: ClientId)
    requires s.ring.Valid() && id !in s.clients
    ensures var t := Step(Step(s, CopyScrollback(id)), Register(id));
      && t.chunks == s.chunks && t.fanned == s.fanned && id in t.clients
      && t.clients[id] == Client(|s.chunks|, Attached(s.fanned), Snapshot(s.ring)) && t.localClients == s.localClients + [id]
  {
    hide Snapshot;
  }

  /** Attaching while the forwarder is between two chunks is seamless: from any such point of any run, a client
      that copies and registers undisturbed is sent the scrollback and then every further chunk once, in order. */
  lemma UndisturbedAttachIsSeamless(acts: seq<Action>, id: ClientId, ds: seq<Chunk>)
    requires var s := Run(acts); s.fanned == |s.chunks| && id !in s.clients
    ensures var s, t := Run(acts), Run(acts + [CopyScrollback(id)] + [Register(id)] + Forwarding(ds));
      && t.chunks == s.chunks + ds && id in t.clients && t.clients[id].out == Scrollback(s.chunks) + Bytes(ds)
      && (|Bytes(s.chunks)| <= 5 * 1024 * 1024 ==> t.clients[id].out == Bytes(s.chunks) + Bytes(ds))
  {
    hide Run, Step, WriteAll, Snapshot, Bytes, Forwarding;
    var a := acts + [CopyScrollback(id)];
    RunInv(acts);
    AttachSteps(Run(acts), id);
    Snoc(acts, CopyScrollback(id));
    Snoc(a, Register(id));
    ForwardingServes(a + [Register(id)], id, ds);
    if |Bytes(Run(acts).chunks)| <= 5 * 1024 * 1024 {
      SnapshotIsEverything(5 * 1024 * 1024, Bytes(Run(acts).chunks));
    }
  }

  lemma DetachedStep(s: State, a: Action, id: ClientId)
    requires s.ring.Valid() && Inv(s) && id in s.clients && s.clients[id].phase.Detached?
    ensures id in Step(s, a).clients && Step(s, a).clients[id] == s.clients[id]
  {
    hide WriteAll, Bytes, Remove, ClientTrue, Snapshot;
  }

  lemma DetachStep(s: State, id: ClientId)
    requires s.ring.Valid() && id in s.clients && s.clients[id].phase.Attached?
    ensures var t := Step(s, Detach(id));
      id in t.clients && t.clients[id].phase.Detached? && t.clients[id].out == s.clients[id].out
  {
  }

  /** A client that has left is sent nothing more, whatever happens. */
  lemma {:induction false} DetachedHearsNothing(acts: seq<Action>, id: ClientId, more: seq<Action>)
    requires id in Run(acts).clients && Run(acts).clients[id].phase.Attached?
    ensures var t := Run(acts + [Detach(id)] + more);
      id in t.clients && t.clients[id].phase.Detached? && t.clients[id].out == Run(acts).clients[id].out
  {
    hide Run, Step;
    if more == [] {
      assert acts + [Detach(id)] + more == acts + [Detach(id)];
      Snoc(acts, Detach(id));
      DetachStep(Run(acts), id);
    } else {
      var pre := acts + [Detach(id)] + more[..|more| - 1];
      DetachedHearsNothing(acts, id, more[..|more| - 1]);
      RunInv(pre);
      assert acts + [Detach(id)] + more == pre + [more[|more| - 1]];
      Snoc(pre, more[|more| - 1]);
      DetachedStep(Run(pre), more[|more| - 1], id);
    }
  }

  // ---------------------------------------------------------------- the client list

  class Session {
    var localClients: seq<ClientId>
    /** The connections, with what was written to each. */
    var clients: map<ClientId, Client>

    /** The forwarder's loop over the registered clients: each gets the chunk once. */
    method FanOut(data: Chunk)
      requires Distinct(localClients) && forall id :: id in localClients ==> id in clients
      modifies this`clients
      ensures clients == Deliver(old(clients), localClients, data)
    {
      for i := 0 to |localClients|
        invariant clients.Keys == old(clients).Keys
        invariant forall id :: id in clients ==>
                    clients[id] == if id in localClients[..i] then Sent(old(clients)[id], data) else old(clients)[id]
      {
        var w := localClients[i];
        assert w in localClients && w !in localClients[..i];
        clients := clients[w := Sent(clients[w], data)];
        assert localClients[..i + 1] == localClients[..i] + [w];
      }
      assert localClients[..|localClients|] == localClients;
    }

    /** A new client is served from now on, each client once, and removing it undoes the registration. */
    method AddLocalClient(w: ClientId)
      modifies this`localClients
      ensures localClients == old(localClients) + [w]
      ensures w !in old(localClients) ==> Remove(localClients, w) == old(localClients)
      ensures w !in old(localClients) && Distinct(old(localClients)) ==> Distinct(localClients)
    {
      localClients := localClients + [w];
      if w !in old(localClients) {
        RemoveAdded(old(localClients), w);
      }
    }

    /** Removes the first entry equal to `w`, keeping the order of the others. */
    method RemoveLocalClient(w: ClientId)
      modifies this`localClients
      ensures localClients == Remove(old(localClients), w)
      ensures w !in old(localClients) ==> localClients == old(localClients)
    {
      for i := 0 to |localClients|
        invariant localClients == old(localClients) && w !in localClients[..i]
      {
        if localClients[i] == w {
          RemoveFirst(localClients, w, i);
          localClients := localClients[..i] + localClients[i + 1..];
          return;
        }
      }
      assert localClients[..|localClients|] == localClients;
      RemoveAbsent(localClients, w);
    }
  }
}
