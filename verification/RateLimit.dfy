/** Per-satellite and per-user rate limiting: a bucket of `max` tokens that is refilled whole
    by the first call at least one second after the previous refill.  Times are nanoseconds.
 */
module RateLimit {

  const SECOND := 1_000_000_000
  const SATELLITE_MAX := 100
  const USER_MAX := 50

  datatype Bucket = Bucket(tokens: nat, lastRefill: int)

  type Buckets = map<string, Bucket>

  /** A call for `id`.  The limiter reads the clock once if it has to create the bucket and once
      more to decide. */
  datatype Call = Call(id: string, created: int, now: int)

  function Refilled(b: Bucket, max: nat, now: int): Bucket {
    if now - b.lastRefill >= SECOND then Bucket(max, now) else b
  }

  function Spend(b: Bucket): Bucket { if b.tokens > 0 then b.(tokens := b.tokens - 1) else b }

  /** The bucket a call decides on. */
  function Ready(m: Buckets, max: nat, c: Call): Bucket {
    Refilled(if c.id in m then m[c.id] else Bucket(max, c.created), max, c.now)
  }

  function Admit(m: Buckets, max: nat, c: Call): Buckets { m[c.id := Spend(Ready(m, max, c))] }

  predicate Approved(m: Buckets, max: nat, c: Call) { Ready(m, max, c).tokens > 0 }

  class RateLimiter {
    var satelliteLimits: Buckets
    var userLimits: Buckets

    constructor ()
      ensures satelliteLimits == map[] && userLimits == map[]
    {
      satelliteLimits, userLimits := map[], map[];
    }

    method AllowSatellite(satelliteID: string, created: int, now: int) returns (ok: bool)
      modifies this`satelliteLimits
      ensures satelliteLimits == Admit(old(satelliteLimits), 100, Call(satelliteID, created, now))
      ensures ok == Approved(old(satelliteLimits), 100, Call(satelliteID, created, now))
      ensures forall other :: other != satelliteID && other in old(satelliteLimits) ==>
        other in satelliteLimits && satelliteLimits[other] == old(satelliteLimits)[other]
    {
      var bucket := if satelliteID in satelliteLimits then satelliteLimits[satelliteID] else Bucket(100, created);
      satelliteLimits := satelliteLimits[satelliteID := bucket];
      if now - bucket.lastRefill >= SECOND {
        bucket := Bucket(100, now);
        satelliteLimits := satelliteLimits[satelliteID := bucket];
      }
      ok := false;
      if bucket.tokens > 0 {
        satelliteLimits := satelliteLimits[satelliteID := bucket.(tokens := bucket.tokens - 1)];
        ok := true;
      }
    }

    method AllowUser(userID: string, created: int, now: int) returns (ok: bool)
      modifies this`userLimits
      ensures userLimits == Admit(old(userLimits), 50, Call(userID, created, now))
      ensures ok == Approved(old(userLimits), 50, Call(userID, created, now))
      ensures forall other :: other != userID && other in old(userLimits) ==>
        other in userLimits && userLimits[other] == old(userLimits)[other]
    {
      var bucket := if userID in userLimits then userLimits[userID] else Bucket(50, created);
      userLimits := userLimits[userID := bucket];
      if now - bucket.lastRefill >= SECOND {
        bucket := Bucket(50, now);
        userLimits := userLimits[userID := bucket];
      }
      ok := false;
      if bucket.tokens > 0 {
        userLimits := userLimits[userID := bucket.(tokens := bucket.tokens - 1)];
        ok := true;
      }
    }
  }

  // ---------------------------------------------------------------- call sequences

  function After(m: Buckets, max: nat, calls: seq<Call>): Buckets
    decreases calls
  {
    if calls == [] then m else After(Admit(m, max, calls[0]), max, calls[1..])
  }

  function Approvals(m: Buckets, max: nat, calls: seq<Call>, id: string): nat
    decreases calls
  {
    if calls == [] then 0
    else (if calls[0].id == id && Approved(m, max, calls[0]) then 1 else 0)
         + Approvals(Admit(m, max, calls[0]), max, calls[1..], id)
  }

  /** All clock reads are in order, from `lo` on and up to `hi`. */
  ghost predicate InOrder(calls: seq<Call>, lo: int, hi: int) {
    if calls == [] then lo <= hi
    else lo <= calls[0].created <= calls[0].now && InOrder(calls[1..], calls[0].now, hi)
  }

  /** What the bucket of `id` can be by time `t`: not refilled later than `t`, and with at least one
      token spent. */
  ghost predicate Reachable(m: Buckets, max: nat, id: string, t: int) {
    id in m ==> m[id].lastRefill <= t && m[id].tokens < max
  }

  lemma AdmitReachable(m: Buckets, max: nat, c: Call, id: string, t: int)
    requires max > 0 && Reachable(m, max, id, t) && t <= c.created <= c.now
    ensures Reachable(Admit(m, max, c), max, id, c.now)
  {
  }

  lemma {:induction false} AfterReachable(m: Buckets, max: nat, calls: seq<Call>, id: string, lo: int, hi: int)
    requires max > 0 && Reachable(m, max, id, lo) && InOrder(calls, lo, hi)
    ensures Reachable(After(m, max, calls), max, id, hi)
    decreases calls
  {
    if calls == [] {
    } else {
      AdmitReachable(m, max, calls[0], id, lo);
      AfterReachable(Admit(m, max, calls[0]), max, calls[1..], id, calls[0].now, hi);
    }
  }

  lemma InOrderBounds(calls: seq<Call>, lo: int, hi: int)
    requires InOrder(calls, lo, hi)
    ensures lo <= hi
  {
  }

  // ---------------------------------------------------------------- the bound

  /** Everything a bucket can still hand out by time `end`. */
  function Potential(b: Bucket, max: nat, end: int): int { b.tokens + max * ((end - b.lastRefill) / SECOND) }

  lemma MulNext(max: nat, x: int)
    ensures max * (x + 1) == max * x + max
  {
  }

  lemma {:induction false} MulStep(max: nat, x: int, y: int)
    requires x + 1 <= y
    ensures max * x + max <= max * y
    decreases y - x
  {
    MulNext(max, y - 1);
    if x + 1 < y {
      MulStep(max, x, y - 1);
    }
  }

  /** A refill pays for itself: the tokens it adds were counted by the elapsed second. */
  lemma RefillPotential(b: Bucket, max: nat, now: int, end: int)
    requires b.lastRefill <= now <= end
    ensures Potential(Refilled(b, max, now), max, end) <= Potential(b, max, end)
  {
    if now - b.lastRefill >= SECOND {
      assert (end - now) / SECOND + 1 <= (end - b.lastRefill) / SECOND;
      MulStep(max, (end - now) / SECOND, (end - b.lastRefill) / SECOND);
    }
  }

  lemma PotentialPositive(b: Bucket, max: nat, end: int)
    requires b.lastRefill <= end
    ensures Potential(b, max, end) >= 0
  {
    assert (end - b.lastRefill) / SECOND >= 0;
  }

  /** One call: an approval is paid for by a token. */
  lemma CallSpendsPotential(m: Buckets, max: nat, c: Call, id: string, end: int)
    requires id in m && m[id].lastRefill <= c.now <= end
    ensures id in Admit(m, max, c)
    ensures (if c.id == id && Approved(m, max, c) then 1 else 0) + Potential(Admit(m, max, c)[id], max, end)
         <= Potential(m[id], max, end)
  {
    if c.id == id {
      RefillPotential(m[id], max, c.now, end);
    }
  }

  lemma {:induction false} ApprovalsWithinPotential(m: Buckets, max: nat, calls: seq<Call>, id: string, lo: int, end: int)
    requires max > 0 && Reachable(m, max, id, lo) && InOrder(calls, lo, end) && id in m
    ensures Approvals(m, max, calls, id) <= Potential(m[id], max, end)
    decreases calls
  {
    InOrderBounds(calls, lo, end);
    if calls == [] {
      PotentialPositive(m[id], max, end);
    } else {
      var c := calls[0];
      InOrderBounds(calls[1..], c.now, end);
      CallSpendsPotential(m, max, c, id, end);
      AdmitReachable(m, max, c, id, lo);
      hide Potential, Reachable, Admit, Approved;
      ApprovalsWithinPotential(Admit(m, max, c), max, calls[1..], id, c.now, end);
    }
  }

  /** What `id` can get in the window [start, end] given the state at its beginning. */
  function Budget(m: Buckets, max: nat, id: string, start: int, end: int): int {
    if id !in m || start - m[id].lastRefill >= SECOND
    then max + max * ((end - start) / SECOND)
    else Potential(m[id], max, end)
  }

  lemma FirstCallBudget(m: Buckets, max: nat, c: Call, start: int, end: int)
    requires max > 0 && Reachable(m, max, c.id, start) && start <= c.created <= c.now <= end
    ensures Potential(Ready(m, max, c), max, end) <= Budget(m, max, c.id, start, end)
  {
    if c.id in m && start - m[c.id].lastRefill < SECOND {
      RefillPotential(m[c.id], max, c.now, end);
    } else {
      var made := Bucket(max, if c.id in m then c.now else c.created);
      RefillPotential(made, max, c.now, end);
      assert (end - made.lastRefill) / SECOND <= (end - start) / SECOND;
      MulStep(max, (end - made.lastRefill) / SECOND, (end - start) / SECOND + 1);
    }
  }

  lemma BudgetPositive(m: Buckets, max: nat, id: string, start: int, end: int)
    requires Reachable(m, max, id, start) && start <= end
    ensures Budget(m, max, id, start, end) >= 0
  {
    assert max * ((end - start) / SECOND) >= 0;
    if id in m { assert (end - m[id].lastRefill) / SECOND >= 0; }
  }

  lemma {:induction false} ApprovalsWithinBudget(m: Buckets, max: nat, calls: seq<Call>, id: string,
                                                 start: int, lo: int, end: int)
    requires max > 0 && Reachable(m, max, id, start) && start <= lo && InOrder(calls, lo, end)
    ensures Approvals(m, max, calls, id) <= Budget(m, max, id, start, end)
    decreases calls
  {
    InOrderBounds(calls, lo, end);
    if calls == [] {
      BudgetPositive(m, max, id, start, end);
    } else {
      var c := calls[0];
      InOrderBounds(calls[1..], c.now, end);
      if c.id == id {
        hide Budget, InOrder;
        AdmitReachable(m, max, c, id, start);
        ApprovalsWithinPotential(Admit(m, max, c), max, calls[1..], id, c.now, end);
        FirstCallBudget(m, max, c, start, end);
      } else {
        ApprovalsWithinBudget(Admit(m, max, c), max, calls[1..], id, start, c.now, end);
      }
    }
  }

  lemma BudgetBound(m: Buckets, max: nat, id: string, start: int, d: nat)
    requires max > 0 && Reachable(m, max, id, start)
    ensures Budget(m, max, id, start, start + d) <= max * (d / SECOND + 2) - 1
  {
    assert max * (d / SECOND + 2) == max * (d / SECOND) + 2 * max;
    if id in m && start - m[id].lastRefill < SECOND {
      var x := (start + d - m[id].lastRefill) / SECOND;
      assert x <= d / SECOND + 1;
      MulStep(max, x, d / SECOND + 2);
    }
  }

  /** For any calls on a clock that does not go back, the calls made in any window of `d`
      nanoseconds get fewer than max * (floor(d) + 2) approvals per identifier. */
  lemma RateBound(max: nat, before: seq<Call>, calls: seq<Call>, id: string, t0: int, start: int, d: nat)
    requires max > 0 && InOrder(before, t0, start) && InOrder(calls, start, start + d)
    ensures Approvals(After(map[], max, before), max, calls, id) <= max * (d / SECOND + 2) - 1
  {
    AfterReachable(map[], max, before, id, t0, start);
    var m := After(map[], max, before);
    ApprovalsWithinBudget(m, max, calls, id, start, start, start + d);
    BudgetBound(m, max, id, start, d);
  }

  /** A call at least one second after the last refill, or the first call ever, is approved. */
  lemma NeverStarved(m: Buckets, max: nat, c: Call)
    requires max > 0
    requires c.id in m ==> c.now - m[c.id].lastRefill >= SECOND
    ensures Approved(m, max, c)
  {
  }

  /** Which calls are approved, from any state, by the numbers: one for an unknown identifier, one a second or
      more after the last refill, and one that finds a token. */
  lemma ApprovedIff(m: Buckets, max: nat, c: Call)
    requires max > 0
    ensures Approved(m, max, c) <==>
      c.id !in m || c.now - m[c.id].lastRefill >= 1_000_000_000 || m[c.id].tokens > 0
    ensures c.id in Admit(m, max, c)
    ensures c.id in m && c.now - m[c.id].lastRefill < 1_000_000_000 ==>
      Admit(m, max, c)[c.id] == Bucket(if m[c.id].tokens > 0 then m[c.id].tokens - 1 else 0, m[c.id].lastRefill)
    ensures c.id in m && c.now - m[c.id].lastRefill >= 1_000_000_000 ==>
      Admit(m, max, c)[c.id] == Bucket(max - 1, c.now)
    ensures c.id !in m && c.now - c.created < 1_000_000_000 ==> Admit(m, max, c)[c.id] == Bucket(max - 1, c.created)
  {
  }

  /** The bound of the two limiters written out: in any window of d nanoseconds a satellite gets fewer than
      100 * (whole seconds + 2) approvals and a user fewer than 50 * (whole seconds + 2), and for whole seconds
      and one nanosecond one less than that is reached. */
  lemma RatesWrittenOut(before: seq<Call>, calls: seq<Call>, id: string, t0: int, start: int, d: nat, k: nat)
    requires InOrder(before, t0, start) && InOrder(calls, start, start + d)
    ensures Approvals(After(map[], 100, before), 100, calls, id) <= 100 * (d / 1_000_000_000) + 199
    ensures Approvals(After(map[], 50, before), 50, calls, id) <= 50 * (d / 1_000_000_000) + 99
    ensures Approvals(After(map[], 100, [Call(id, 0, 0)]), 100, Greedy(100, id, k), id) == 100 * k + 199
    ensures Approvals(After(map[], 50, [Call(id, 0, 0)]), 50, Greedy(50, id, k), id) == 50 * k + 99
    ensures InOrder(Greedy(100, id, k), 999_999_999, 999_999_999 + (k * 1_000_000_000 + 1))
    ensures InOrder(Greedy(50, id, k), 999_999_999, 999_999_999 + (k * 1_000_000_000 + 1))
  {
    hide Approvals, After, Greedy, InOrder;
    RateBound(100, before, calls, id, t0, start, d);
    RateBound(50, before, calls, id, t0, start, d);
    RateBoundIsTight(100, id, k);
    RateBoundIsTight(50, id, k);
    assert (k * SECOND + 1) / SECOND == k;
  }

  // ---------------------------------------------------------------- independence

  function Only(calls: seq<Call>, id: string): seq<Call> {
    if calls == [] then [] else (if calls[0].id == id then [calls[0]] else []) + Only(calls[1..], id)
  }

  /** Calls for other identifiers never change the answers: dropping them leaves the bucket and the
      number of approvals as they were, whatever the other buckets held. */
  lemma {:induction false} OthersIrrelevant(m: Buckets, n: Buckets, max: nat, calls: seq<Call>, id: string)
    requires id in m <==> id in n
    requires id in m ==> m[id] == n[id]
    ensures id in After(m, max, calls) <==> id in After(n, max, Only(calls, id))
    ensures id in After(m, max, calls) ==> After(m, max, calls)[id] == After(n, max, Only(calls, id))[id]
    ensures Approvals(m, max, calls, id) == Approvals(n, max, Only(calls, id), id)
    decreases calls
  {
    if calls == [] {
    } else if calls[0].id == id {
      assert Only(calls, id)[1..] == Only(calls[1..], id);
      OthersIrrelevant(Admit(m, max, calls[0]), Admit(n, max, calls[0]), max, calls[1..], id);
    } else {
      assert Only(calls, id) == Only(calls[1..], id);
      OthersIrrelevant(Admit(m, max, calls[0]), n, max, calls[1..], id);
    }
  }

  // ---------------------------------------------------------------- the bound is reached

  function Burst(id: string, t: int, n: nat): seq<Call> {
    if n == 0 then [] else [Call(id, t, t)] + Burst(id, t, n - 1)
  }

  lemma {:induction false} BurstApproved(m: Buckets, max: nat, id: string, t: int, n: nat)
    requires id in m && t - m[id].lastRefill < SECOND && n <= m[id].tokens
    ensures Approvals(m, max, Burst(id, t, n), id) == n
    ensures After(m, max, Burst(id, t, n)) == m[id := m[id].(tokens := m[id].tokens - n)]
    decreases n
  {
    if n == 0 {
      assert m == m[id := m[id]];
    } else {
      var m' := Admit(m, max, Call(id, t, t));
      BurstApproved(m', max, id, t, n - 1);
      assert Burst(id, t, n)[1..] == Burst(id, t, n - 1);
    }
  }

  lemma {:induction false} BurstInOrder(id: string, t: int, n: nat, lo: int)
    requires lo <= t
    ensures InOrder(Burst(id, t, n), lo, t)
  {
    if n > 0 {
      BurstInOrder(id, t, n - 1, t);
      assert Burst(id, t, n)[1..] == Burst(id, t, n - 1);
    }
  }

  lemma {:induction false} Compose(m: Buckets, max: nat, a: seq<Call>, b: seq<Call>, id: string)
    ensures After(m, max, a + b) == After(After(m, max, a), max, b)
    ensures Approvals(m, max, a + b, id) == Approvals(m, max, a, id) + Approvals(After(m, max, a), max, b, id)
    decreases a
  {
    if a == [] {
      assert a + b == b;
    } else {
      assert (a + b)[1..] == a[1..] + b;
      Compose(Admit(m, max, a[0]), max, a[1..], b, id);
    }
  }

  lemma {:induction false} InOrderCompose(a: seq<Call>, b: seq<Call>, lo: int, mid: int, hi: int)
    requires InOrder(a, lo, mid) && InOrder(b, mid, hi)
    ensures InOrder(a + b, lo, hi)
  {
    if a == [] {
      assert a + b == b;
      InOrderWeaken(b, lo, mid, hi);
    } else {
      assert (a + b)[1..] == a[1..] + b;
      InOrderCompose(a[1..], b, a[0].now, mid, hi);
    }
  }

  lemma InOrderWeaken(b: seq<Call>, lo: int, mid: int, hi: int)
    requires lo <= mid && InOrder(b, mid, hi)
    ensures InOrder(b, lo, hi)
  {
  }

  /** One call short of a full bucket just before second 1, then a full bucket at every second up
      to k + 1. */
  function Greedy(max: nat, id: string, k: nat): seq<Call>
    requires max > 0
  {
    if k == 0 then Burst(id, SECOND - 1, max - 1) + Burst(id, SECOND, max)
    else Greedy(max, id, k - 1) + Burst(id, (k + 1) * SECOND, max)
  }

  lemma FullBurst(m: Buckets, max: nat, id: string, t: int)
    requires max > 0 && id in m && t - m[id].lastRefill >= SECOND
    ensures Approvals(m, max, Burst(id, t, max), id) == max
    ensures After(m, max, Burst(id, t, max)) == m[id := Bucket(0, t)]
  {
    var m' := Admit(m, max, Call(id, t, t));
    assert Burst(id, t, max)[1..] == Burst(id, t, max - 1);
    BurstApproved(m', max, id, t, max - 1);
  }

  lemma GreedyStart(m: Buckets, max: nat, id: string)
    requires max > 0 && id in m && m[id] == Bucket(max - 1, 0)
    ensures Approvals(m, max, Greedy(max, id, 0), id) == max * 2 - 1
    ensures After(m, max, Greedy(max, id, 0)) == m[id := Bucket(0, SECOND)]
    ensures InOrder(Greedy(max, id, 0), SECOND - 1, SECOND)
  {
    var a := Burst(id, SECOND - 1, max - 1);
    Compose(m, max, a, Burst(id, SECOND, max), id);
    BurstApproved(m, max, id, SECOND - 1, max - 1);
    FullBurst(After(m, max, a), max, id, SECOND);
    BurstInOrder(id, SECOND - 1, max - 1, SECOND - 1);
    BurstInOrder(id, SECOND, max, SECOND - 1);
    InOrderCompose(a, Burst(id, SECOND, max), SECOND - 1, SECOND - 1, SECOND);
  }

  lemma {:induction false} GreedyApprovals(m: Buckets, max: nat, id: string, k: nat)
    requires max > 0 && id in m && m[id] == Bucket(max - 1, 0)
    ensures Approvals(m, max, Greedy(max, id, k), id) == max * (k + 2) - 1
    ensures id in After(m, max, Greedy(max, id, k))
    ensures After(m, max, Greedy(max, id, k))[id] == Bucket(0, (k + 1) * SECOND)
    ensures InOrder(Greedy(max, id, k), SECOND - 1, (k + 1) * SECOND)
  {
    if k == 0 {
      GreedyStart(m, max, id);
    } else {
      GreedyApprovals(m, max, id, k - 1);
      var a, t := Greedy(max, id, k - 1), (k + 1) * SECOND;
      assert t - k * SECOND == SECOND;
      Compose(m, max, a, Burst(id, t, max), id);
      FullBurst(After(m, max, a), max, id, t);
      BurstInOrder(id, t, max, k * SECOND);
      InOrderCompose(a, Burst(id, t, max), SECOND - 1, k * SECOND, t);
      assert max * (k + 2) == max * (k + 1) + max;
    }
  }

  /** For every k the bound is reached: a window of k seconds and one nanosecond can see exactly
      max * (k + 2) - 1 approvals, so "max per second" is not what the limiter enforces. */
  lemma RateBoundIsTight(max: nat, id: string, k: nat)
    requires max > 0
    ensures var before := [Call(id, 0, 0)];
      var d := k * SECOND + 1;
      && InOrder(before, 0, SECOND - 1)
      && InOrder(Greedy(max, id, k), SECOND - 1, SECOND - 1 + d)
      && Approvals(After(map[], max, before), max, Greedy(max, id, k), id) == max * (d / SECOND + 2) - 1
  {
    var before := [Call(id, 0, 0)];
    var m := After(map[], max, before);
    assert m == After(Admit(map[], max, before[0]), max, before[1..]);
    assert before[1..] == [];
    GreedyApprovals(m, max, id, k);
    assert (k * SECOND + 1) / SECOND == k;
  }
}
