/** Numbering and attribution of agent events on one satellite connection (internal/grpc/gateway.go).  The
    receive loop keeps a counter and a run mapping per session; both live as long as the connection.
 */
module AgentEvents {
  import opened Wrappers

  /** An agent event as received; `found` is the running run the database would name for its session. */
  datatype Message = Message(session: string, eventType: string, found: Option<nat>)

  datatype Event = Event(session: string, run: nat, eventType: string, sequence: nat)

  // ---------------------------------------------------------------- what the loop means

  function Count(ms: seq<Message>, session: string): nat {
    if ms == [] then 0
    else Count(ms[..|ms| - 1], session) + if ms[|ms| - 1].session == session then 1 else 0
  }

  /** A lookup answers only for a session that has a name. */
  function Lookup(m: Message): Option<nat> { if m.session != "" then m.found else None }

  /** The run the session's events belong to: the first one found for it. */
  function RunOf(ms: seq<Message>, session: string): Option<nat> {
    if ms == [] then None
    else
      var before := RunOf(ms[..|ms| - 1], session);
      var m := ms[|ms| - 1];
      if before.None? && m.session == session then Lookup(m) else before
  }

  function EventOf(ms: seq<Message>): seq<Event>
    requires ms != []
  {
    var m := ms[|ms| - 1];
    var run := RunOf(ms, m.session);
    if run.None? then [] else [Event(m.session, run.value, m.eventType, Count(ms, m.session))]
  }

  function Published(ms: seq<Message>): seq<Event> {
    if ms == [] then [] else Published(ms[..|ms| - 1]) + EventOf(ms)
  }

  // ---------------------------------------------------------------- the connection

  class Connection {
    var agentSeq: map<string, nat>
    var sessionRunMap: map<string, nat>

    constructor ()
      ensures agentSeq == map[] && sessionRunMap == map[]
    {
      agentSeq, sessionRunMap := map[], map[];
    }

    /** The maps are what the messages received so far say. */
    ghost predicate Follows(ms: seq<Message>)
      reads this
    {
      && (forall k :: (if k in agentSeq then agentSeq[k] else 0) == Count(ms, k))
      && (forall k :: (if k in sessionRunMap then Some(sessionRunMap[k]) else None) == RunOf(ms, k))
    }

    method HandleAgentEvent(m: Message, ghost before: seq<Message>) returns (e: seq<Event>)
      requires Follows(before)
      modifies this
      ensures Follows(before + [m]) && e == EventOf(before + [m])
    {
      assert (before + [m])[..|before|] == before;
      agentSeq := agentSeq[m.session := (if m.session in agentSeq then agentSeq[m.session] else 0) + 1];
      var sequence := agentSeq[m.session];
      if m.session !in sessionRunMap {
        if m.session != "" && m.found.Some? {
          sessionRunMap := sessionRunMap[m.session := m.found.value];
        }
      }
      if m.session !in sessionRunMap {
        return [];
      }
      e := [Event(m.session, sessionRunMap[m.session], m.eventType, sequence)];
    }

    /** The receive loop, restricted to agent events. */
    method Receive(ms: seq<Message>) returns (events: seq<Event>)
      requires agentSeq == map[] && sessionRunMap == map[]
      modifies this
      ensures events == Published(ms)
    {
      events := [];
      for i := 0 to |ms|
        invariant Follows(ms[..i]) && events == Published(ms[..i])
      {
        assert ms[..i + 1] == ms[..i] + [ms[i]] && ms[..i + 1][..i] == ms[..i];
        var e := HandleAgentEvent(ms[i], ms[..i]);
        events := events + e;
      }
      assert ms[..|ms|] == ms;
    }
  }

  // ---------------------------------------------------------------- what viewers can rely on

  function Of(es: seq<Event>, session: string): seq<Event> {
    if es == [] then []
    else
      var n := |es| - 1;
      Of(es[..n], session) + if es[n].session == session then [es[n]] else []
  }

  function MessagesOf(ms: seq<Message>, session: string): (r: seq<Message>)
    ensures |r| == Count(ms, session)
  {
    if ms == [] then []
    else
      var n := |ms| - 1;
      MessagesOf(ms[..n], session) + if ms[n].session == session then [ms[n]] else []
  }

  lemma OfConcat(es: seq<Event>, fs: seq<Event>, session: string)
    requires |fs| <= 1
    ensures Of(es + fs, session) == Of(es, session) + Of(fs, session)
  {
    if fs == [] {
      assert es + fs == es;
    } else {
      assert (es + fs)[..|es|] == es && fs[..0] == [];
    }
  }

  lemma OfPublished(ms: seq<Message>, session: string)
    requires ms != []
    ensures var m, run := ms[|ms| - 1], RunOf(ms, session);
            Of(Published(ms), session) == Of(Published(ms[..|ms| - 1]), session)
              + if m.session == session && run.Some?
                then [Event(session, run.value, m.eventType, Count(ms, session))] else []
  {
    OfConcat(Published(ms[..|ms| - 1]), EventOf(ms), session);
    assert |EventOf(ms)| == 1 ==> EventOf(ms)[..0] == [];
  }

  lemma {:induction false} NoRunNoEvents(ms: seq<Message>, session: string)
    requires RunOf(ms, session).None?
    ensures Of(Published(ms), session) == []
  {
    if ms != [] {
      NoRunNoEvents(ms[..|ms| - 1], session);
      OfPublished(ms, session);
    }
  }

  /** The events are the last messages in order, for one run, numbered without gaps up to their number. */
  ghost predicate LastOf(es: seq<Event>, own: seq<Message>, session: string, run: Option<nat>) {
    && |es| <= |own| && (es != [] ==> run.Some?)
    && (forall i :: 0 <= i < |es| ==>
          es[i] == Event(session, run.value, own[|own| - |es| + i].eventType, |own| - |es| + i + 1))
  }

  lemma LastOfExtend(es: seq<Event>, own: seq<Message>, session: string, run: nat, m: Message)
    requires LastOf(es, own, session, Some(run))
    ensures LastOf(es + [Event(session, run, m.eventType, |own| + 1)], own + [m], session, Some(run))
  {
  }

  /** The events published for a session on one connection: all for the run first found for it, numbered
      without gaps up to the number of its messages, and none skipped once that run is known. */
  lemma {:induction false} EventsAreAttributed(ms: seq<Message>, session: string)
    ensures LastOf(Of(Published(ms), session), MessagesOf(ms, session), session, RunOf(ms, session))
  {
    hide *;
    if ms == [] {
      NothingReceived(session);
    } else {
      var pre, m := ms[..|ms| - 1], ms[|ms| - 1];
      EventsAreAttributed(pre, session);
      OfPublished(ms, session);
      OwnStep(ms, session);
      var es, own, run := Of(Published(pre), session), MessagesOf(pre, session), RunOf(ms, session);
      if RunOf(pre, session).None? {
        NoRunNoEvents(pre, session);
        LastOfNone(own, session, run);
        LastOfNone(MessagesOf(ms, session), session, run);
      }
      if m.session == session && run.Some? {
        LastOfExtend(es, own, session, run.value, m);
      } else {
        assert es + [] == es;
      }
    }
  }

  lemma NothingReceived(session: string)
    ensures LastOf(Of(Published([]), session), MessagesOf([], session), session, RunOf([], session))
  {
  }

  /** A message adds to its own session's messages only, and never changes a run that was found. */
  lemma OwnStep(ms: seq<Message>, session: string)
    requires ms != []
    ensures var pre, m := ms[..|ms| - 1], ms[|ms| - 1];
            && MessagesOf(ms, session) == MessagesOf(pre, session) + (if m.session == session then [m] else [])
            && (m.session != session ==> MessagesOf(ms, session) == MessagesOf(pre, session))
            && (m.session != session || RunOf(pre, session).Some? ==> RunOf(ms, session) == RunOf(pre, session))
  {
  }

  lemma LastOfNone(own: seq<Message>, session: string, run: Option<nat>)
    ensures LastOf([], own, session, run)
  {
  }

  /** Exactly the messages received before the session's run was first found are never published. */
  lemma {:induction false} OnlyEarlyMessagesAreSkipped(ms: seq<Message>, more: seq<Message>, session: string)
    requires RunOf(ms, session).Some?
    ensures RunOf(ms + more, session) == RunOf(ms, session)
    ensures |Of(Published(ms + more), session)| == |Of(Published(ms), session)| + Count(more, session)
  {
    hide Published, Of;
    if more == [] {
      assert ms + more == ms;
    } else {
      var n := |more| - 1;
      OnlyEarlyMessagesAreSkipped(ms, more[..n], session);
      assert (ms + more)[..|ms + more| - 1] == ms + more[..n];
      OfPublished(ms + more, session);
    }
  }

  // ---------------------------------------------------------------- told by the messages alone

  /** Message k is the first of its session for which the database named a run, and it named r. */
  predicate FirstFound(ms: seq<Message>, session: string, k: nat, r: nat) {
    && k < |ms| && session != "" && ms[k].session == session && ms[k].found == Some(r)
    && forall j :: 0 <= j < k && ms[j].session == session ==> ms[j].found.None?
  }

  /** No message of the session found a run that the loop could remember. */
  predicate NeverFound(ms: seq<Message>, session: string) {
    session != "" ==> forall j :: 0 <= j < |ms| && ms[j].session == session ==> ms[j].found.None?
  }

  lemma {:induction false} NeverFoundNoRun(ms: seq<Message>, session: string)
    ensures RunOf(ms, session).None? <==> NeverFound(ms, session)
  {
    if ms != [] {
      var n := |ms| - 1;
      NeverFoundNoRun(ms[..n], session);
      assert forall j :: 0 <= j < n ==> ms[..n][j] == ms[j];
      assert NeverFound(ms, session) <==> NeverFound(ms[..n], session) && (session != "" && ms[n].session == session ==> ms[n].found.None?);
    }
  }

  lemma FirstFoundRun(ms: seq<Message>, session: string, k: nat, r: nat)
    requires FirstFound(ms, session, k, r)
    ensures RunOf(ms[..k], session).None? && RunOf(ms[..k + 1], session) == Some(r)
  {
    NeverFoundNoRun(ms[..k], session);
    assert ms[..k + 1][..k] == ms[..k];
  }

  lemma FoundSomewhere(ms: seq<Message>, session: string) returns (k: nat)
    requires !NeverFound(ms, session)
    ensures k < |ms| && ms[k].found.Some? && FirstFound(ms, session, k, ms[k].found.value)
  {
    k := 0;
    while ms[k].session != session || ms[k].found.None?
      invariant k < |ms| && forall j :: 0 <= j < k && ms[j].session == session ==> ms[j].found.None?
      decreases |ms| - k
    {
      if k + 1 == |ms| {
        assert false;
      }
      k := k + 1;
    }
  }

  /** Whose events a session's are, told by the messages alone: from the first message on for which the
      database named a run, each of the session's messages is published for that run, in order, under its
      number among all messages of the session; the messages before it are not. */
  lemma EventsFromFirstFound(ms: seq<Message>, session: string, k: nat, r: nat)
    requires FirstFound(ms, session, k, r)
    ensures var es, own := Of(Published(ms), session), MessagesOf(ms, session);
      && |own| == Count(ms, session) && |es| == Count(ms[k..], session) <= |own|
      && forall i :: 0 <= i < |es| ==>
           es[i] == Event(session, r, own[|own| - |es| + i].eventType, |own| - |es| + i + 1)
  {
    FoundRunStays(ms, session, k, r);
    EventsAreAttributed(ms, session);
    hide Published, Of, RunOf, MessagesOf, Count;
    OwnCount(ms, session);
  }

  lemma OwnCount(ms: seq<Message>, session: string)
    ensures |MessagesOf(ms, session)| == Count(ms, session)
  {
  }

  /** The first message that finds a run is published, and none of the session before it. */
  lemma FirstPublished(ms: seq<Message>, session: string, k: nat, r: nat)
    requires FirstFound(ms, session, k, r)
    ensures |Of(Published(ms[..k + 1]), session)| == 1
  {
    hide Published, Of, RunOf, Count;
    var a := ms[..k + 1];
    assert a[..|a| - 1] == ms[..k] && a[|a| - 1] == ms[k];
    FirstFoundRun(ms, session, k, r);
    NoRunNoEvents(ms[..k], session);
    OfPublished(a, session);
  }

  lemma CountFrom(ms: seq<Message>, session: string, k: nat)
    requires k < |ms| && ms[k].session == session
    ensures Count(ms[k..], session) == 1 + Count(ms[k + 1..], session)
  {
    assert [ms[k]][..0] == [];
    assert Count([ms[k]], session) == 1;
    hide Count;
    CountConcat([ms[k]], ms[k + 1..], session);
    assert ms[k..] == [ms[k]] + ms[k + 1..];
  }

  /** The run found first stays, and every message of the session from then on is published. */
  lemma FoundRunStays(ms: seq<Message>, session: string, k: nat, r: nat)
    requires FirstFound(ms, session, k, r)
    ensures RunOf(ms, session) == Some(r) && |Of(Published(ms), session)| == Count(ms[k..], session)
  {
    hide Published, Of, RunOf, Count;
    FirstFoundRun(ms, session, k, r);
    FirstPublished(ms, session, k, r);
    CountFrom(ms, session, k);
    OnlyEarlyMessagesAreSkipped(ms[..k + 1], ms[k + 1..], session);
    assert ms == ms[..k + 1] + ms[k + 1..];
  }

  lemma {:induction false} CountConcat(a: seq<Message>, b: seq<Message>, session: string)
    ensures Count(a + b, session) == Count(a, session) + Count(b, session)
  {
    if b == [] {
      assert a + b == a;
    } else {
      CountConcat(a, b[..|b| - 1], session);
      assert (a + b)[..|a + b| - 1] == a + b[..|b| - 1];
    }
  }

  /** A session's events belong to run r exactly when r is the first run found for it, and it has none
      exactly when its messages found no run. */
  lemma RunIsFirstFound(ms: seq<Message>, session: string, r: nat)
    ensures var es := Of(Published(ms), session);
      && ((es != [] && forall e :: e in es ==> e.run == r) <==> exists k :: FirstFound(ms, session, k, r))
      && (es == [] <==> NeverFound(ms, session))
  {
    hide Published, Of, RunOf;
    var es := Of(Published(ms), session);
    if NeverFound(ms, session) {
      NeverFoundNoRun(ms, session);
      NoRunNoEvents(ms, session);
      forall k ensures !FirstFound(ms, session, k, r) {
      }
    } else {
      var k := FoundSomewhere(ms, session);
      var q := ms[k].found.value;
      EventsFromFirstFound(ms, session, k, q);
      CountConcat([ms[k]], ms[k + 1..], session);
      assert ms[k..] == [ms[k]] + ms[k + 1..] && [ms[k]][..0] == [];
      assert es[0] in es && es[0].run == q;
      forall l, p | FirstFound(ms, session, l, p) ensures l == k && p == q {
      }
    }
  }
}
