/** Cursor paging (internal/api/pagination.go, handlers.go, agents.go).  The session list pages by key in
    the database; the agent list pages by position in memory.
 */
module Paging {
  import opened Wrappers

  datatype Key = Key(created: int, id: nat)
  datatype Row = Row(key: Key, user: nat)
  datatype Page<T> = Page(items: seq<T>, next: Option<nat>)

  // ---------------------------------------------------------------- request parameters

  const DEFAULT_LIMIT := 50
  const MAX_LIMIT := 200

  /** The page size for a request whose limit parameter parsed to this number, if it parsed at all. */
  function LimitOf(parsed: Option<int>): (n: nat)
    ensures 1 <= n <= MAX_LIMIT
    ensures parsed.Some? && 1 <= parsed.value <= MAX_LIMIT ==> n == parsed.value
    ensures parsed.Some? && parsed.value > 200 ==> n == 200
    ensures parsed.None? || parsed.value <= 0 ==> n == 50
  {
    if parsed.None? then DEFAULT_LIMIT
    else if parsed.value > MAX_LIMIT then MAX_LIMIT
    else if parsed.value > 0 then parsed.value
    else DEFAULT_LIMIT
  }

  // ---------------------------------------------------------------- the session table

  predicate Less(a: Key, b: Key) { a.created < b.created || (a.created == b.created && a.id < b.id) }

  /** Rows of one user, below a bound if there is one. */
  predicate Keep(r: Row, user: nat, below: Option<Key>) {
    r.user == user && (below.Some? ==> Less(r.key, below.value))
  }

  function Where(rows: seq<Row>, user: nat, below: Option<Key>): seq<Row> {
    if rows == [] then []
    else if Keep(rows[0], user, below) then [rows[0]] + Where(rows[1..], user, below)
    else Where(rows[1..], user, below)
  }

  /** Inserts into a list ordered from the greatest key down. */
  function Insert(r: Row, s: seq<Row>): seq<Row> {
    if s == [] || Less(s[0].key, r.key) then [r] + s else [s[0]] + Insert(r, s[1..])
  }

  /** ORDER BY created_at DESC, id DESC. */
  function Ordered(rows: seq<Row>): seq<Row> {
    if rows == [] then [] else Insert(rows[0], Ordered(rows[1..]))
  }

  predicate Descending(s: seq<Row>) { forall i, j :: 0 <= i < j < |s| ==> Less(s[j].key, s[i].key) }

  predicate DistinctIds(rows: seq<Row>) { forall i, j :: 0 <= i < j < |rows| ==> rows[i].key.id != rows[j].key.id }

  function Take<T>(s: seq<T>, n: nat): seq<T> { if |s| <= n then s else s[..n] }

  /** The row the cursor names: ids are unique. */
  function Find(rows: seq<Row>, id: nat): Option<Row> {
    if rows == [] then None else if rows[0].key.id == id then Some(rows[0]) else Find(rows[1..], id)
  }

  /** The rows of one page.  A cursor that names no row compares with NULL and selects nothing. */
  function Query(table: seq<Row>, user: nat, cursor: Option<nat>, limit: nat): seq<Row> {
    if cursor.None? then Take(Ordered(Where(table, user, None)), limit)
    else
      var c := Find(table, cursor.value);
      if c.None? then [] else Take(Ordered(Where(table, user, Some(c.value.key))), limit)
  }

  /** One request of a viewer. */
  function SessionPage(table: seq<Row>, user: nat, cursor: Option<nat>, limit: nat): Page<Row> {
    var items := Query(table, user, cursor, limit);
    Page(items, if |items| >= limit && |items| > 0 then Some(items[|items| - 1].key.id) else None)
  }

  // ---------------------------------------------------------------- ordering

  lemma {:induction false} InsertContents(r: Row, s: seq<Row>)
    ensures multiset(Insert(r, s)) == multiset{r} + multiset(s)
  {
    if s == [] || Less(s[0].key, r.key) {
    } else {
      InsertContents(r, s[1..]);
      assert s == [s[0]] + s[1..];
    }
  }

  lemma {:induction false} OrderedContents(rows: seq<Row>)
    ensures multiset(Ordered(rows)) == multiset(rows)
  {
    if rows != [] {
      OrderedContents(rows[1..]);
      InsertContents(rows[0], Ordered(rows[1..]));
      assert rows == [rows[0]] + rows[1..];
    }
  }

  lemma {:induction false} InsertDescending(r: Row, s: seq<Row>)
    requires Descending(s) && forall i :: 0 <= i < |s| ==> s[i].key.id != r.key.id
    ensures Descending(Insert(r, s))
  {
    if s == [] || Less(s[0].key, r.key) {
      assert forall j :: 0 < j < |s| ==> Less(s[j].key, s[0].key);
    } else {
      InsertDescending(r, s[1..]);
      var t := Insert(r, s[1..]);
      forall j | 0 <= j < |t|
        ensures Less(t[j].key, s[0].key)
      {
        InsertContents(r, s[1..]);
        assert t[j] in multiset(t);
        assert t[j] == r || t[j] in s[1..];
      }
    }
  }

  lemma {:induction false} OrderedDescending(rows: seq<Row>)
    requires DistinctIds(rows)
    ensures Descending(Ordered(rows))
  {
    if rows != [] {
      var s := Ordered(rows[1..]);
      OrderedDescending(rows[1..]);
      OrderedContents(rows[1..]);
      forall i | 0 <= i < |s|
        ensures s[i].key.id != rows[0].key.id
      {
        assert s[i] in multiset(s);
        assert s[i] in rows[1..];
      }
      InsertDescending(rows[0], s);
    }
  }

  // ---------------------------------------------------------------- selecting and ordering commute

  lemma {:induction false} WhereMember(rows: seq<Row>, user: nat, below: Option<Key>, r: Row)
    ensures r in Where(rows, user, below) <==> r in rows && Keep(r, user, below)
  {
    if rows != [] {
      WhereMember(rows[1..], user, below, r);
    }
  }

  lemma InsertFirst(r: Row, s: seq<Row>)
    requires forall x :: x in s ==> Less(x.key, r.key)
    ensures Insert(r, s) == [r] + s
  {
    if s != [] {
      assert s[0] in s;
    }
  }

  lemma {:induction false} WhereInsert(r: Row, s: seq<Row>, user: nat, below: Option<Key>)
    requires Descending(s)
    ensures Where(Insert(r, s), user, below) ==
              if Keep(r, user, below) then Insert(r, Where(s, user, below)) else Where(s, user, below)
  {
    if s == [] || Less(s[0].key, r.key) {
      assert ([r] + s)[1..] == s;
      forall x | x in Where(s, user, below)
        ensures Less(x.key, r.key)
      {
        WhereMember(s, user, below, x);
      }
      InsertFirst(r, Where(s, user, below));
    } else {
      WhereInsert(r, s[1..], user, below);
      var t := [s[0]] + Insert(r, s[1..]);
      assert t[1..] == Insert(r, s[1..]);
      var w := Where(s[1..], user, below);
      assert ([s[0]] + w)[1..] == w;
    }
  }

  lemma {:induction false} WhereOrdered(rows: seq<Row>, user: nat, below: Option<Key>)
    requires DistinctIds(rows)
    ensures Where(Ordered(rows), user, below) == Ordered(Where(rows, user, below))
  {
    if rows != [] {
      OrderedDescending(rows[1..]);
      WhereOrdered(rows[1..], user, below);
      WhereInsert(rows[0], Ordered(rows[1..]), user, below);
      if Keep(rows[0], user, below) {
        var w := Where(rows[1..], user, below);
        assert ([rows[0]] + w)[1..] == w;
      }
    }
  }

  // ---------------------------------------------------------------- pages of the ordered list

  /** Below the key of row i of a descending list of one user come exactly the rows after it. */
  lemma {:induction false} WhereBelow(s: seq<Row>, user: nat, i: nat)
    requires Descending(s) && i < |s| && forall j :: 0 <= j < |s| ==> s[j].user == user
    ensures Where(s, user, Some(s[i].key)) == s[i + 1..]
  {
    if i == 0 {
      assert forall j :: 0 <= j < |s[1..]| ==> Keep(s[1..][j], user, Some(s[0].key));
      WhereAll(s[1..], user, Some(s[0].key));
    } else {
      assert Less(s[i].key, s[0].key);
      WhereBelow(s[1..], user, i - 1);
    }
  }

  lemma {:induction false} WhereAll(s: seq<Row>, user: nat, below: Option<Key>)
    requires forall j :: 0 <= j < |s| ==> Keep(s[j], user, below)
    ensures Where(s, user, below) == s
  {
    if s != [] {
      WhereAll(s[1..], user, below);
    }
  }

  lemma {:induction false} FindRow(rows: seq<Row>, r: Row)
    requires DistinctIds(rows) && r in rows
    ensures Find(rows, r.key.id) == Some(r)
  {
    if rows[0] != r {
      var k :| 0 <= k < |rows| && rows[k] == r;
      assert rows[0].key.id != rows[k].key.id;
      assert r == rows[1..][k - 1];
      FindRow(rows[1..], r);
    }
  }

  /** A viewer's sessions, newest first. */
  function Sessions(table: seq<Row>, user: nat): seq<Row> { Ordered(Where(table, user, None)) }

  lemma {:induction false} WhereDistinct(rows: seq<Row>, user: nat, below: Option<Key>)
    requires DistinctIds(rows)
    ensures DistinctIds(Where(rows, user, below))
  {
    if rows != [] {
      var w := Where(rows[1..], user, below);
      WhereDistinct(rows[1..], user, below);
      forall k | 0 <= k < |w|
        ensures w[k].key.id != rows[0].key.id
      {
        WhereMember(rows[1..], user, below, w[k]);
        var m :| 0 <= m < |rows[1..]| && rows[1..][m] == w[k];
        assert rows[m + 1] == w[k];
      }
    }
  }

  lemma {:induction false} WhereTwice(rows: seq<Row>, user: nat, below: Option<Key>)
    ensures Where(Where(rows, user, None), user, below) == Where(rows, user, below)
  {
    if rows != [] {
      WhereTwice(rows[1..], user, below);
      var w := Where(rows[1..], user, None);
      assert ([rows[0]] + w)[1..] == w;
    }
  }

  lemma SessionsShape(table: seq<Row>, user: nat)
    requires DistinctIds(table)
    ensures Descending(Sessions(table, user)) && DistinctIds(Where(table, user, None))
    ensures forall i :: 0 <= i < |Sessions(table, user)| ==>
              Sessions(table, user)[i].user == user && Sessions(table, user)[i] in table
  {
    var w := Where(table, user, None);
    WhereDistinct(table, user, None);
    OrderedDescending(w);
    OrderedContents(w);
    forall i | 0 <= i < |Ordered(w)|
      ensures Ordered(w)[i].user == user && Ordered(w)[i] in table
    {
      assert Ordered(w)[i] in multiset(Ordered(w));
      WhereMember(table, user, None, Ordered(w)[i]);
    }
  }

  /** A page asked for with the id of session i - 1 holds the sessions from i on. */
  lemma PageAfter(table: seq<Row>, user: nat, i: nat, limit: nat)
    requires DistinctIds(table) && 0 < i <= |Sessions(table, user)|
    ensures Query(table, user, Some(Sessions(table, user)[i - 1].key.id), limit) == Take(Sessions(table, user)[i..], limit)
  {
    var s := Sessions(table, user);
    var w := Where(table, user, None);
    var k := Some(s[i - 1].key);
    SessionsShape(table, user);
    FindRow(table, s[i - 1]);
    WhereBelow(s, user, i - 1);
    WhereOrdered(w, user, k);
    WhereTwice(table, user, k);
  }

  lemma TakeNext<T>(s: seq<T>, i: nat, n: nat)
    requires i <= |s|
    ensures |Take(s[i..], n)| == if |s| - i <= n then |s| - i else n
    ensures s[..i] + Take(s[i..], n) == s[..i + |Take(s[i..], n)|]
  {
  }

  lemma SessionMembers(table: seq<Row>, user: nat, r: Row)
    ensures r in Sessions(table, user) <==> r in table && r.user == user
  {
    var w := Where(table, user, None);
    OrderedContents(w);
    WhereMember(table, user, None, r);
    assert r in Ordered(w) <==> r in multiset(Ordered(w));
    assert r in w <==> r in multiset(w);
  }

  lemma FirstPage(table: seq<Row>, user: nat, limit: nat)
    ensures Query(table, user, None, limit) == Take(Sessions(table, user)[0..], limit)
  {
    assert Sessions(table, user)[0..] == Sessions(table, user);
  }

  /** A page asked for after i sessions extends what was seen, and names the next cursor or ends the list. */
  lemma PageExtends(table: seq<Row>, user: nat, cursor: Option<nat>, i: nat, limit: nat)
    requires DistinctIds(table) && limit >= 1 && i <= |Sessions(table, user)|
    requires cursor == if i == 0 then None else Some(Sessions(table, user)[i - 1].key.id)
    ensures var s, p := Sessions(table, user), SessionPage(table, user, cursor, limit);
            && i + |p.items| <= |s| && s[..i] + p.items == s[..i + |p.items|]
            && (p.next.Some? ==> |p.items| > 0 && p.next.value == s[i + |p.items| - 1].key.id)
            && (p.next.None? ==> i + |p.items| == |s|)
            && |p.items| <= limit && (p.next.Some? <==> |p.items| == limit)
  {
    hide Query, Sessions, Take, DistinctIds;
    var s := Sessions(table, user);
    if i == 0 {
      FirstPage(table, user, limit);
    } else {
      PageAfter(table, user, i, limit);
    }
    TakeNext(s, i, limit);
  }

  /** Whatever the cursor, a page has at most `limit` rows, and names a next cursor, the id of its last row,
      exactly when it is full; so a full last page is followed by an empty one. */
  lemma NextCursorIff(table: seq<Row>, user: nat, cursor: Option<nat>, limit: nat)
    requires limit >= 1
    ensures var p := SessionPage(table, user, cursor, limit);
      && |p.items| <= limit && (p.next.Some? <==> |p.items| == limit)
      && (p.next.Some? ==> p.next.value == p.items[limit - 1].key.id)
  {
    hide Ordered, Where, Find;
  }

  /** One request for each full page and one more. */
  function PagesOf(n: nat, limit: nat): nat
    requires limit >= 1
  {
    if n < limit then 1 else 1 + PagesOf(n - limit, limit)
  }

  predicate FullPages(n: nat, limit: nat)
    requires limit >= 1
  {
    n == 0 || (n >= limit && FullPages(n - limit, limit))
  }

  /** After some requests: the sessions seen are the first ones, and the cursor names the last of them unless
      they are all. */
  ghost predicate Collected(s: seq<Row>, all: seq<Row>, next: Option<nat>, requests: nat, limit: nat)
    requires limit >= 1
  {
    && |all| <= |s| && all == s[..|all|]
    && (if next.Some? then |all| > 0 && next.value == s[|all| - 1].key.id && FullPages(|all|, limit)
                           && PagesOf(|all|, limit) == requests + 1
        else |all| == |s| && PagesOf(|all|, limit) == requests)
  }

  lemma CollectFirst(table: seq<Row>, user: nat, limit: nat)
    requires DistinctIds(table) && limit >= 1
    ensures var p := SessionPage(table, user, None, limit); Collected(Sessions(table, user), p.items, p.next, 1, limit)
  {
    hide Sessions, SessionPage, DistinctIds;
    var s, p := Sessions(table, user), SessionPage(table, user, None, limit);
    PageExtends(table, user, None, 0, limit);
    assert s[..0] + p.items == p.items;
    PagesFirst(|p.items|, limit);
  }

  lemma CollectMore(table: seq<Row>, user: nat, all: seq<Row>, next: Option<nat>, requests: nat, limit: nat)
    requires DistinctIds(table) && limit >= 1 && next.Some?
    requires Collected(Sessions(table, user), all, next, requests, limit)
    ensures var s, p := Sessions(table, user), SessionPage(table, user, next, limit);
      && Collected(s, all + p.items, p.next, requests + 1, limit) && |all| + |p.items| <= |s|
      && (p.next.Some? ==> p.items != [])
  {
    hide Sessions, SessionPage, DistinctIds, PagesOf, FullPages;
    PageExtends(table, user, next, |all|, limit);
    PagesMore(|all|, |SessionPage(table, user, next, limit).items|, limit);
  }

  /** Following next_cursor until there is none collects every session of the viewer exactly once, newest
      first. */
  method FollowSessions(table: seq<Row>, user: nat, limit: nat) returns (all: seq<Row>, requests: nat)
    requires DistinctIds(table) && limit >= 1
    ensures all == Sessions(table, user)
    ensures requests == PagesOf(|all|, limit)
    ensures Descending(all) && forall r :: r in all <==> r in table && r.user == user
  {
    CollectFirst(table, user, limit);
    SessionsAll(table, user);
    ghost var s := Sessions(table, user);
    var p := SessionPage(table, user, None, limit);
    all, requests := p.items, 1;
    assert |all| <= |s|;
    hide *;
    while p.next.Some?
      invariant Collected(s, all, p.next, requests, limit) && |all| <= |s|
      decreases |s| - |all| + if p.next.Some? then 1 else 0
    {
      CollectMore(table, user, all, p.next, requests, limit);
      p := SessionPage(table, user, p.next, limit);
      all, requests := all + p.items, requests + 1;
    }
    CollectedAll(s, all, requests, limit);
  }

  lemma CollectedAll(s: seq<Row>, all: seq<Row>, requests: nat, limit: nat)
    requires limit >= 1 && Collected(s, all, None, requests, limit)
    ensures all == s && requests == PagesOf(|s|, limit)
  {
  }

  lemma PagesFirst(m: nat, limit: nat)
    requires 1 <= limit && m <= limit
    ensures PagesOf(m, limit) == (if m == limit then 2 else 1) && (m == limit ==> FullPages(m, limit))
  {
  }

  lemma {:induction false} PagesMore(n: nat, m: nat, limit: nat)
    requires 1 <= limit && m <= limit && FullPages(n, limit)
    ensures PagesOf(n + m, limit) == PagesOf(n, limit) + (if m == limit then 1 else 0)
    ensures m == limit ==> FullPages(n + m, limit)
  {
    if n > 0 {
      PagesMore(n - limit, m, limit);
    }
  }

  /** Without recursion: the rows fill all pages but the last. */
  lemma {:induction false} PagesAre(n: nat, limit: nat)
    requires limit >= 1
    ensures (PagesOf(n, limit) - 1) * limit <= n < PagesOf(n, limit) * limit
  {
    if n >= limit {
      PagesAre(n - limit, limit);
    }
  }

  /** That order is newest first, and by id from the greatest down among sessions created together. */
  lemma SessionsNewestFirst(table: seq<Row>, user: nat, i: nat, j: nat)
    requires DistinctIds(table) && i < j < |Sessions(table, user)|
    ensures var a, b := Sessions(table, user)[i].key, Sessions(table, user)[j].key;
      a.created > b.created || (a.created == b.created && a.id > b.id)
  {
    hide Sessions, DistinctIds;
    SessionsAll(table, user);
  }

  lemma SessionsAll(table: seq<Row>, user: nat)
    requires DistinctIds(table)
    ensures Descending(Sessions(table, user))
    ensures forall r :: r in Sessions(table, user) <==> r in table && r.user == user
  {
    hide Sessions;
    SessionsShape(table, user);
    forall r
      ensures r in Sessions(table, user) <==> r in table && r.user == user
    {
      SessionMembers(table, user, r);
    }
  }

  // ---------------------------------------------------------------- the agent list

  predicate DistinctAgents(agents: seq<nat>) { forall i, j :: 0 <= i < j < |agents| ==> agents[i] != agents[j] }

  function Min(a: int, b: int): int { if a < b then a else b }

  /** Where an agent first occurs, or the length of the list. */
  function Position(agents: seq<nat>, id: nat): (c: nat)
    ensures c <= |agents| && id !in agents[..c] && (c < |agents| ==> agents[c] == id)
  {
    if agents == [] || agents[0] == id then 0 else 1 + Position(agents[1..], id)
  }

  lemma PositionIs(agents: seq<nat>, id: nat, c: nat)
    requires c < |agents| && agents[c] == id && id !in agents[..c]
    ensures Position(agents, id) == c
  {
  }

  lemma NotFound(agents: seq<nat>, id: nat)
    requires id !in agents
    ensures Position(agents, id) == |agents|
  {
  }

  /** One request for agents, given as their ids.  The page after a cursor has one item less than the first. */
  method ListAgents(agents: seq<nat>, cursor: Option<nat>, limit: nat) returns (p: Page<nat>)
    requires limit >= 1
    ensures cursor.None? ==> p.items == agents[..Min(limit, |agents|)]
    ensures cursor.Some? ==>
              var c := Position(agents, cursor.value);
              p.items == if c == |agents| then [] else agents[c + 1..Min(c + limit, |agents|)]
    ensures p.next == if |p.items| >= limit then Some(p.items[|p.items| - 1]) else None
  {
    var items: seq<nat>;
    if cursor.Some? {
      var cursorIdx := -1;
      var i := 0;
      while i < |agents|
        invariant 0 <= i <= |agents|
        invariant cursorIdx == -1 && cursor.value !in agents[..i]
      {
        if agents[i] == cursor.value {
          cursorIdx := i;
          PositionIs(agents, cursor.value, i);
          break;
        }
        i := i + 1;
      }
      if cursorIdx < 0 {
        assert agents[..|agents|] == agents;
        NotFound(agents, cursor.value);
      }
      if cursorIdx >= 0 && cursorIdx < |agents| {
        var endIdx := cursorIdx + limit;
        if endIdx > |agents| {
          endIdx := |agents|;
        }
        items := agents[cursorIdx + 1..endIdx];
      } else {
        items := [];
      }
    } else {
      var endIdx := limit;
      if endIdx > |agents| {
        endIdx := |agents|;
      }
      items := agents[..endIdx];
    }
    p := Page(items, if |items| >= limit && |items| > 0 then Some(items[|items| - 1]) else None);
  }

  /** Following next_cursor through the agent list stops after 2 * limit - 1 agents. */
  method FollowAgents(agents: seq<nat>, limit: nat) returns (all: seq<nat>)
    requires DistinctAgents(agents) && limit >= 1
    ensures all == agents[..Min(|agents|, 2 * limit - 1)]
    ensures all == agents <==> |agents| <= 2 * limit - 1
  {
    var p := ListAgents(agents, None, limit);
    all := p.items;
    while p.next.Some?
      invariant p.next.Some? ==> limit <= |agents| && all == agents[..limit] && p.next.value == agents[limit - 1]
      invariant p.next.None? ==> all == agents[..Min(|agents|, 2 * limit - 1)]
      decreases p.next.Some?
    {
      SecondPage(agents, limit);
      p := ListAgents(agents, p.next, limit);
      all := all + p.items;
    }
  }

  lemma SecondPage(agents: seq<nat>, limit: nat)
    requires DistinctAgents(agents) && 1 <= limit <= |agents|
    ensures Position(agents, agents[limit - 1]) == limit - 1
    ensures agents[..limit] + agents[limit..Min(2 * limit - 1, |agents|)] == agents[..Min(|agents|, 2 * limit - 1)]
  {
    PositionIs(agents, agents[limit - 1], limit - 1);
    JoinAt(agents, limit, Min(2 * limit - 1, |agents|));
  }

  lemma JoinAt<T>(s: seq<T>, i: nat, j: nat)
    requires i <= j <= |s|
    ensures s[..i] + s[i..j] == s[..j]
  {
  }
}
