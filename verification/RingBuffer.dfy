/** The terminal scrollback buffer: a fixed array written byte by byte, with an eviction rule that
    looks back for an escape-sequence or UTF-8 boundary once the array is full.
 */
module RingBuffer {

  type Byte = x: int | 0 <= x < 256

  const DEFAULT_CAPACITY := 5 * 1024 * 1024

  /** The buffer as a value: `data` is the whole array. */
  datatype Ring = Ring(data: seq<Byte>, head: nat, length: nat) {
    predicate Valid() { |data| > 0 && head < |data| && length <= |data| }
  }

  /** A byte at which a terminal sequence or character may begin. */
  predicate IsBoundary(b: Byte) { !(0x80 <= b <= 0xBF) || b == 0x9B }

  /** Positions wrap around once: `(p + n) % n` for p in [-n, 2n). */
  function Wrap(p: int, n: nat): (q: nat)
    requires 0 - n <= p < n + n
    ensures n > 0 ==> q < n
  {
    if p < 0 then p + n else if p >= n then p - n else p
  }

  lemma AtLeast(d: int, n: nat)
    requires d >= 1
    ensures d * n >= n
  {
  }

  lemma ModIs(x: int, n: nat, k: int, r: int)
    requires n > 0 && x == k * n + r && 0 <= r < n
    ensures x % n == r
  {
    var q := x / n;
    assert x == q * n + x % n;
    if q > k {
      AtLeast(q - k, n);
    } else if q < k {
      AtLeast(k - q, n);
    }
  }

  lemma WrapIsMod(p: int, n: nat)
    requires n > 0 && 0 - n <= p < n + n
    ensures (p + n) % n == Wrap(p, n)
    ensures p >= 0 ==> p % n == Wrap(p, n)
  {
    var r := Wrap(p, n);
    var k := if p < 0 then 0 else if p < n then 1 else 2;
    ModIs(p + n, n, k, r);
    if p >= 0 {
      ModIs(p, n, k - 1, r);
    }
  }

  /** Scan back from just before the head, at most 32 bytes, for a cell whose predecessor is a
      boundary. */
  function EvictFrom(d: seq<Byte>, head: nat, i: nat, limit: nat): (pos: nat)
    requires head < |d| && i <= limit <= |d|
    ensures pos < |d|
    decreases limit - i
  {
    if i == limit then Wrap(head - limit, |d|)
    else
      var pos := Wrap(Wrap(head - 1, |d|) - i, |d|);
      if IsBoundary(d[Wrap(pos - 1, |d|)]) then pos else EvictFrom(d, head, i + 1, limit)
  }

  lemma EvictUnfold(d: seq<Byte>, head: nat, i: nat, limit: nat)
    requires head < |d| && i < limit <= |d|
    ensures var pos := Wrap(Wrap(head - 1, |d|) - i, |d|);
      EvictFrom(d, head, i, limit) == if IsBoundary(d[Wrap(pos - 1, |d|)]) then pos else EvictFrom(d, head, i + 1, limit)
  {
  }

  lemma EvictEnd(d: seq<Byte>, head: nat, limit: nat)
    requires head < |d| && limit <= |d|
    ensures EvictFrom(d, head, limit, limit) == Wrap(head - limit, |d|)
  {
  }

  function EvictPosition(d: seq<Byte>, head: nat, length: nat): (pos: nat)
    requires head < |d| && length <= |d|
    ensures pos < |d|
  {
    EvictFrom(d, head, 0, if 32 > length then length else 32)
  }

  function WriteByte(r: Ring, b: Byte): (s: Ring)
    requires r.Valid()
    ensures s.Valid() && |s.data| == |r.data|
  {
    var put := Ring(r.data[r.head := b], Wrap(r.head + 1, |r.data|), r.length);
    if r.length < |r.data| then put.(length := r.length + 1) else put.(head := EvictPosition(put.data, put.head, put.length))
  }

  function WriteAll(r: Ring, p: seq<Byte>): (s: Ring)
    requires r.Valid()
    ensures s.Valid() && |s.data| == |r.data|
    decreases |p|
  {
    if p == [] then r else WriteByte(WriteAll(r, p[..|p| - 1]), p[|p| - 1])
  }

  /** Oldest byte first. */
  function Snapshot(r: Ring): seq<Byte>
    requires r.Valid()
  {
    var start := Wrap(r.head - r.length, |r.data|);
    if start + r.length <= |r.data| then r.data[start..start + r.length]
    else r.data[start..] + r.data[..start + r.length - |r.data|]
  }

  function Empty(capacity: nat): (r: Ring)
    requires capacity > 0
    ensures r.Valid() && |r.data| == capacity
  {
    Ring(seq(capacity, _ => 0), 0, 0)
  }

  // ---------------------------------------------------------------- within capacity

  lemma {:induction false} WriteWithinCapacity(capacity: nat, p: seq<Byte>)
    requires 0 < capacity && |p| <= capacity
    ensures var r := WriteAll(Empty(capacity), p);
      r.length == |p| && r.head == (if |p| == capacity then 0 else |p|) && r.data[..|p|] == p
    decreases |p|
  {
    if p != [] {
      var pre, b := p[..|p| - 1], p[|p| - 1];
      WriteWithinCapacity(capacity, pre);
      var r := WriteAll(Empty(capacity), pre);
      assert r.data[|pre| := b][..|p|] == pre + [b];
      assert p == pre + [b];
    }
  }

  /** As long as no more than the capacity has been written, the snapshot is everything written. */
  lemma SnapshotIsEverything(capacity: nat, p: seq<Byte>)
    requires 0 < capacity && |p| <= capacity
    ensures Snapshot(WriteAll(Empty(capacity), p)) == p
  {
    hide WriteAll, Empty;
    WriteWithinCapacity(capacity, p);
    var r := WriteAll(Empty(capacity), p);
  }

  // ---------------------------------------------------------------- beyond capacity

  /** The cell examined in round i of the eviction scan. */
  function ScanCell(n: nat, head: nat, i: nat): (pos: nat)
    requires head < n && i <= n
    ensures pos < n
  {
    Wrap(Wrap(head - 1, n) - i, n)
  }

  lemma {:induction false} ScanStops(d: seq<Byte>, head: nat, i: nat, k: nat, limit: nat)
    requires head < |d| && i <= k < limit <= |d|
    requires forall j :: i <= j < k ==> !IsBoundary(d[Wrap(ScanCell(|d|, head, j) - 1, |d|)])
    requires IsBoundary(d[Wrap(ScanCell(|d|, head, k) - 1, |d|)])
    ensures EvictFrom(d, head, i, limit) == ScanCell(|d|, head, k)
    decreases k - i
  {
    EvictUnfold(d, head, i, limit);
    if i < k {
      assert !IsBoundary(d[Wrap(ScanCell(|d|, head, i) - 1, |d|)]);
      ScanStops(d, head, i + 1, k, limit);
    }
  }

  lemma {:induction false} ScanExhausts(d: seq<Byte>, head: nat, i: nat, limit: nat)
    requires head < |d| && i <= limit <= |d|
    requires forall j :: i <= j < limit ==> !IsBoundary(d[Wrap(ScanCell(|d|, head, j) - 1, |d|)])
    ensures EvictFrom(d, head, i, limit) == Wrap(head - limit, |d|)
    decreases limit - i
  {
    if i < limit {
      EvictUnfold(d, head, i, limit);
      assert !IsBoundary(d[Wrap(ScanCell(|d|, head, i) - 1, |d|)]);
      ScanExhausts(d, head, i + 1, limit);
    } else {
      EvictEnd(d, head, limit);
    }
  }

  /** How many bytes at the end, the first byte aside, continue a character. */
  function Trailing(s: seq<Byte>): (k: nat)
    ensures k <= |s| && (s != [] ==> k < |s|)
    ensures forall i :: |s| - k <= i < |s| ==> !IsBoundary(s[i])
    ensures k + 2 <= |s| ==> IsBoundary(s[|s| - 1 - k])
  {
    if |s| <= 1 || IsBoundary(s[|s| - 1]) then 0 else 1 + Trailing(s[..|s| - 1])
  }

  /** How far the head moves back over them. */
  function Gap(s: seq<Byte>): (g: nat)
    ensures g < 32 && (s != [] ==> g < |s|)
  {
    if Trailing(s) < 31 then Trailing(s) else 31
  }

  /** What is left of contents s when b is written to a full buffer: b takes the place of the oldest byte,
      and the last Gap(s) bytes come round to the front. */
  function Turn(s: seq<Byte>, b: Byte): (t: seq<Byte>)
    requires s != []
    ensures |t| == |s|
  {
    s[|s| - Gap(s)..] + [b] + s[1..|s| - Gap(s)]
  }

  lemma SnapshotAt(r: Ring, j: nat)
    requires r.Valid() && r.length == |r.data| && j < |r.data|
    ensures |Snapshot(r)| == |r.data| && Snapshot(r)[j] == r.data[Wrap(r.head + j, |r.data|)]
  {
  }

  /** Whether the byte examined in round i of the scan, counted from the end of the contents, is a boundary. */
  predicate Sees(s: seq<Byte>, b: Byte, i: nat)
    requires i < |s|
  {
    IsBoundary(if i == |s| - 1 then b else s[|s| - 1 - i])
  }

  lemma ScannedByte(r: Ring, b: Byte, i: nat)
    requires r.Valid() && r.length == |r.data| && i < |r.data|
    ensures var n, d := |r.data|, r.data[r.head := b];
      && ScanCell(n, Wrap(r.head + 1, n), i) == Wrap(r.head - i, n) && |Snapshot(r)| == n
      && (IsBoundary(d[Wrap(ScanCell(n, Wrap(r.head + 1, n), i) - 1, n)]) <==> Sees(Snapshot(r), b, i))
  {
    hide IsBoundary, Snapshot;
    SnapshotAt(r, |r.data| - 1 - i);
  }

  lemma TrailingSeen(s: seq<Byte>, b: Byte, i: nat)
    requires i <= Trailing(s) < |s|
    ensures i < Trailing(s) ==> !Sees(s, b, i)
    ensures i == Trailing(s) < |s| - 1 ==> Sees(s, b, i)
  {
  }

  /** The scan, told by the contents. */
  lemma ScanByContents(d: seq<Byte>, head: nat, s: seq<Byte>, b: Byte, limit: nat)
    requires head < |d| == |s| && 1 <= limit <= |d|
    requires forall i :: 0 <= i < |d| ==> (IsBoundary(d[Wrap(ScanCell(|d|, head, i) - 1, |d|)]) <==> Sees(s, b, i))
    ensures var k := Trailing(s);
      EvictFrom(d, head, 0, limit) == if k < limit && Sees(s, b, k) then ScanCell(|d|, head, k) else Wrap(head - limit, |d|)
  {
    hide EvictFrom, ScanCell, IsBoundary, Wrap, Sees, Trailing;
    var k := Trailing(s);
    forall i | 0 <= i <= k
      ensures i < k ==> !Sees(s, b, i)
      ensures i == k < |s| - 1 ==> Sees(s, b, i)
    {
      TrailingSeen(s, b, i);
    }
    if k < limit && Sees(s, b, k) {
      ScanStops(d, head, 0, k, limit);
    } else {
      ScanExhausts(d, head, 0, limit);
    }
  }

  /** Where it leaves the head. */
  lemma ScanEnds(r: Ring, b: Byte)
    requires r.Valid() && r.length == |r.data|
    ensures |Snapshot(r)| == |r.data|
    ensures var n := |r.data|;
      EvictFrom(r.data[r.head := b], Wrap(r.head + 1, n), 0, if 32 > n then n else 32) == Wrap(r.head - Gap(Snapshot(r)), n)
  {
    hide EvictFrom, ScanCell, IsBoundary, Snapshot, Wrap, Sees, Trailing;
    var n, d, s := |r.data|, r.data[r.head := b], Snapshot(r);
    var h, limit := Wrap(r.head + 1, n), if 32 > n then n else 32;
    SnapshotAt(r, 0);
    forall i | 0 <= i < n
      ensures ScanCell(n, h, i) == Wrap(r.head - i, n)
      ensures IsBoundary(d[Wrap(ScanCell(n, h, i) - 1, n)]) <==> Sees(s, b, i)
    {
      ScannedByte(r, b, i);
    }
    ScanByContents(d, h, s, b, limit);
    ExhaustCell(n, r.head, limit);
    var k := Trailing(s);
    TrailingSeen(s, b, k);
  }

  lemma ExhaustCell(n: nat, head: nat, limit: nat)
    requires head < n && 1 <= limit <= n
    ensures Wrap(Wrap(head + 1, n) - limit, n) == Wrap(head - (limit - 1), n)
  {
  }

  /** Whatever a full buffer holds, its head never moves forward: it goes back from the written cell by the
      gap, which is at most 31 cells. */
  lemma HeadNeverAdvances(r: Ring, b: Byte)
    requires r.Valid() && r.length == |r.data|
    ensures |Snapshot(r)| == |r.data|
    ensures WriteByte(r, b) == Ring(r.data[r.head := b], Wrap(r.head - Gap(Snapshot(r)), |r.data|), r.length)
  {
    hide *;
    WriteFull(r, b);
    ScanEnds(r, b);
  }

  /** The law of a full buffer, whatever it holds: the oldest byte is lost, and the contents are turned
      back over the bytes at their end that continue a character, at most 31 of them. */
  lemma OverflowTurns(r: Ring, b: Byte)
    requires r.Valid() && r.length == |r.data|
    ensures Snapshot(r) != [] && Snapshot(WriteByte(r, b)) == Turn(Snapshot(r), b)
  {
    hide WriteByte, Gap, Snapshot;
    var n, s := |r.data|, Snapshot(r);
    HeadNeverAdvances(r, b);
    var t, g := WriteByte(r, b), Gap(s);
    SnapshotAt(r, 0);
    SnapshotAt(t, 0);
    forall j | 0 <= j < n ensures Snapshot(t)[j] == Turn(s, b)[j] {
      SnapshotAt(t, j);
      if j != g {
        SnapshotAt(r, if j < g then n - g + j else j - g);
      }
    }
  }

  /** What is left of the contents after any number of bytes more. */
  function TurnAll(s: seq<Byte>, q: seq<Byte>): (t: seq<Byte>)
    requires s != []
    ensures |t| == |s|
    decreases |q|
  {
    if q == [] then s else Turn(TurnAll(s, q[..|q| - 1]), q[|q| - 1])
  }

  lemma {:induction false} FullRing(r: Ring, q: seq<Byte>)
    requires r.Valid() && r.length == |r.data|
    ensures WriteAll(r, q).length == |r.data|
    ensures Snapshot(r) != [] && Snapshot(WriteAll(r, q)) == TurnAll(Snapshot(r), q)
    decreases |q|
  {
    hide WriteByte, Snapshot, Turn;
    if q == [] {
      SnapshotAt(r, 0);
    } else {
      var m := |q| - 1;
      FullRing(r, q[..m]);
      HeadNeverAdvances(WriteAll(r, q[..m]), q[m]);
      OverflowTurns(WriteAll(r, q[..m]), q[m]);
    }
  }

  /** Every text longer than the capacity, whatever its bytes: the snapshot is its first capacity-long
      stretch turned once for each further byte. */
  lemma SnapshotTurns(capacity: nat, p: seq<Byte>, q: seq<Byte>)
    requires |p| == capacity > 0
    ensures Snapshot(WriteAll(Empty(capacity), p + q)) == TurnAll(p, q)
  {
    hide WriteAll, Snapshot;
    FilledRing(capacity, p);
    WriteAllCompose(Empty(capacity), p, q);
    SnapshotIsEverything(capacity, p);
    FullRing(Ring(p, 0, capacity), q);
  }

  predicate NoBoundary(s: seq<Byte>) { forall i :: 0 <= i < |s| ==> !IsBoundary(s[i]) }

  lemma AllTrailing(s: seq<Byte>)
    requires s != [] && NoBoundary(s[1..])
    ensures Trailing(s) == |s| - 1
  {
    forall i | 1 <= i < |s| ensures !IsBoundary(s[i]) {
      assert s[1..][i - 1] == s[i];
    }
  }

  lemma TurnIsShift(s: seq<Byte>, b: Byte)
    requires s != [] && |s| <= 32 && NoBoundary(s[1..])
    ensures Turn(s, b) == s[1..] + [b]
  {
    assert Trailing(s) == |s| - 1 by { AllTrailing(s); }
  }

  /** A buffer of at most 32 cells does keep the most recent bytes as long as no byte but the oldest and the
      newest begins a character. */
  lemma {:induction false} ShortRingKeepsLatest(p: seq<Byte>, q: seq<Byte>)
    requires p != [] && |p| <= 32 && q != [] && NoBoundary(p[1..]) && NoBoundary(q[..|q| - 1])
    ensures TurnAll(p, q) == (p + q)[|q|..]
    decreases |q|
  {
    hide Turn;
    var m := |q| - 1;
    if m == 0 {
      assert q == [q[0]] && TurnAll(p, q[..0]) == p;
      TurnIsShift(p, q[0]);
    } else {
      assert q[..m][..m - 1] == q[..m - 1];
      assert forall i :: 0 <= i < m ==> q[..m][i] == q[i];
      ShortRingKeepsLatest(p, q[..m]);
      var s := (p + q[..m])[m..];
      ShiftedBytes(p, q);
      TurnIsShift(s, q[m]);
      assert s[1..] + [q[m]] == (p + q)[m + 1..];
    }
  }

  lemma ShiftedBytes(p: seq<Byte>, q: seq<Byte>)
    requires p != [] && q != [] && NoBoundary(p[1..]) && NoBoundary(q[..|q| - 1])
    ensures NoBoundary((p + q[..|q| - 1])[|q| - 1..][1..])
  {
    var m := |q| - 1;
    var s := (p + q[..m])[m..];
    forall i | 0 <= i < |s| - 1 ensures !IsBoundary(s[1..][i]) {
      assert s[1..][i] == (p + q[..m])[m + 1 + i];
      if m + 1 + i < |p| {
        assert p[1..][m + i] == p[m + 1 + i];
      } else {
        assert q[..m][m + 1 + i - |p|] == (p + q[..m])[m + 1 + i];
      }
    }
  }

  /** The bytes of UTF-8 text: never more than three in a row continue a character. */
  predicate TextLike(p: seq<Byte>) { forall i :: 0 <= i <= |p| - 4 ==> BoundaryAmong(p, i) }

  predicate BoundaryAmong(p: seq<Byte>, i: nat)
    requires i + 4 <= |p|
  {
    exists j :: i <= j < i + 4 && IsBoundary(p[j])
  }

  /** So five or more of them end within three bytes of a character's beginning. */
  lemma TextEndsInside(p: seq<Byte>)
    requires |p| >= 5 && TextLike(p)
    ensures Trailing(p) <= 3 && EndsInside(p, Trailing(p))
  {
    assert BoundaryAmong(p, |p| - 4);
    var j :| |p| - 4 <= j < |p| && IsBoundary(p[j]);
    assert Trailing(p) <= |p| - 1 - j;
  }

  /** The contents end in k bytes that continue a character, after a boundary.  In UTF-8 text k is at most 3. */
  predicate EndsInside(d: seq<Byte>, k: nat) {
    && k + 2 <= |d| && IsBoundary(d[|d| - 1 - k])
    && forall i :: |d| - k <= i < |d| ==> !IsBoundary(d[i])
  }

  /** How many cells before cell 0 the head is after m bytes of overflow: the scan moves it back over the
      unfinished bytes, at most 31 at a time, and then it stays. */
  function Back(m: nat, k: nat): nat { if 31 * m < k then 31 * m else k }

  /** The cell `back` places before cell 0. */
  function CellBefore(n: nat, back: nat): (c: nat)
    requires back < n
    ensures c < n
  {
    if back == 0 then 0 else n - back
  }

  /** The cells after an overflow by q. */
  function Overflowed(p: seq<Byte>, q: seq<Byte>, k: nat): (d: seq<Byte>)
    requires k + 2 <= |p|
    ensures |d| == |p|
    decreases |q|
  {
    if q == [] then p
    else
      var m := |q| - 1;
      Overflowed(p, q[..m], k)[CellBefore(|p|, Back(m, k)) := q[m]]
  }

  /** Cells further back than the head has been are as they were. */
  lemma {:induction false} Untouched(p: seq<Byte>, q: seq<Byte>, k: nat, back: nat)
    requires k + 2 <= |p| && 0 < back < |p| && (q != [] ==> Back(|q| - 1, k) < back)
    ensures Overflowed(p, q, k)[|p| - back] == p[|p| - back]
    decreases |q|
  {
    if q != [] {
      Untouched(p, q[..|q| - 1], k, back);
    }
  }

  lemma ScanPlace(n: nat, back: nat, i: nat)
    requires n >= 2 && back + i + 2 <= n
    ensures var h := Wrap(CellBefore(n, back) + 1, n);
      ScanCell(n, h, i) == CellBefore(n, back + i) && Wrap(ScanCell(n, h, i) - 1, n) == n - (back + i + 1)
  {
  }

  /** The cells from the last boundary up to `back` places before cell 0 are those of p. */
  predicate TailKept(p: seq<Byte>, e: seq<Byte>, k: nat, back: nat)
    requires k + 2 <= |p| == |e|
  {
    forall c :: |p| - 1 - k <= c < |p| - back ==> e[c] == p[c]
  }

  lemma ScanByte(p: seq<Byte>, e: seq<Byte>, k: nat, back: nat, i: nat)
    requires EndsInside(p, k) && |e| == |p| && back + i <= k && TailKept(p, e, k, back)
    ensures var n := |p|;
      var h := Wrap(CellBefore(n, back) + 1, n);
      ScanCell(n, h, i) == CellBefore(n, back + i) && (IsBoundary(e[Wrap(ScanCell(n, h, i) - 1, n)]) <==> back + i == k)
  {
    ScanPlace(|p|, back, i);
  }

  /** Where the scan sends the head: behind the last boundary, or 31 cells back. */
  lemma ScanResult(p: seq<Byte>, e: seq<Byte>, k: nat, back: nat)
    requires EndsInside(p, k) && |e| == |p| && back <= k && TailKept(p, e, k, back)
    ensures var n := |p|;
      EvictFrom(e, Wrap(CellBefore(n, back) + 1, n), 0, if 32 > n then n else 32)
        == CellBefore(n, if k - back < 32 then k else back + 31)
  {
    hide EvictFrom, ScanCell, IsBoundary, TailKept;
    var n := |p|;
    var h, limit := Wrap(CellBefore(n, back) + 1, n), if 32 > n then n else 32;
    assert k + 2 <= n;
    forall i | 0 <= i < limit && back + i <= k
      ensures ScanCell(n, h, i) == CellBefore(n, back + i)
      ensures IsBoundary(e[Wrap(ScanCell(n, h, i) - 1, n)]) <==> back + i == k
    {
      ScanByte(p, e, k, back, i);
    }
    if k - back < 32 {
      ScanStops(e, h, 0, k - back, limit);
    } else {
      ScanExhausts(e, h, 0, limit);
    }
  }

  /** One more byte of overflow. */
  lemma OverflowByte(p: seq<Byte>, d: seq<Byte>, k: nat, m: nat, b: Byte)
    requires EndsInside(p, k) && |d| == |p| && TailKept(p, d, k, Back(m, k))
    ensures WriteByte(Ring(d, CellBefore(|p|, Back(m, k)), |p|), b)
         == Ring(d[CellBefore(|p|, Back(m, k)) := b], CellBefore(|p|, Back(m + 1, k)), |p|)
  {
    hide WriteByte, EvictFrom;
    var n, a := |p|, Back(m, k);
    var e := d[CellBefore(n, a) := b];
    WriteFull(Ring(d, CellBefore(n, a), n), b);
    assert TailKept(p, e, k, a);
    ScanResult(p, e, k, a);
  }

  lemma WriteFull(r: Ring, b: Byte)
    requires r.Valid() && r.length == |r.data|
    ensures var n := |r.data|;
      WriteByte(r, b) == Ring(r.data[r.head := b], EvictFrom(r.data[r.head := b], Wrap(r.head + 1, n), 0, if 32 > n then n else 32), n)
  {
  }

  lemma {:induction false} OverflowedRing(p: seq<Byte>, q: seq<Byte>, k: nat)
    requires EndsInside(p, k)
    ensures WriteAll(Ring(p, 0, |p|), q) == Ring(Overflowed(p, q, k), CellBefore(|p|, Back(|q|, k)), |p|)
    decreases |q|
  {
    if q != [] {
      hide WriteByte;
      var m := |q| - 1;
      OverflowedRing(p, q[..m], k);
      forall c | |p| - 1 - k <= c < |p| - Back(m, k)
        ensures Overflowed(p, q[..m], k)[c] == p[c]
      {
        Untouched(p, q[..m], k, |p| - c);
      }
      OverflowByte(p, Overflowed(p, q[..m], k), k, m, q[m]);
    }
  }

  lemma {:induction false} WriteAllCompose(r: Ring, p: seq<Byte>, q: seq<Byte>)
    requires r.Valid()
    ensures WriteAll(r, p + q) == WriteAll(WriteAll(r, p), q)
    decreases |q|
  {
    if q == [] {
      assert p + q == p;
    } else {
      assert (p + q)[..|p + q| - 1] == p + q[..|q| - 1];
      WriteAllCompose(r, p, q[..|q| - 1]);
    }
  }

  lemma FilledRing(capacity: nat, p: seq<Byte>)
    requires capacity > 0 && |p| == capacity
    ensures WriteAll(Empty(capacity), p) == Ring(p, 0, capacity)
  {
    WriteWithinCapacity(capacity, p);
    assert WriteAll(Empty(capacity), p).data == p;
  }

  /** What cell `c` holds after an overflow by q: the byte of q that was written there last, if any. */
  function CellAfter(p: seq<Byte>, q: seq<Byte>, k: nat, c: nat): Byte
    requires k + 2 <= |p| && c < |p|
  {
    var back := if c == 0 then 0 else |p| - c;
    if back < k && back % 31 == 0 && back / 31 < |q| then q[back / 31]
    else if back == k && q != [] && 31 * (|q| - 1) >= k then q[|q| - 1]
    else p[c]
  }

  lemma {:induction false} OverflowedCells(p: seq<Byte>, q: seq<Byte>, k: nat, c: nat)
    requires k + 2 <= |p| && c < |p|
    ensures Overflowed(p, q, k)[c] == CellAfter(p, q, k, c)
    decreases |q|
  {
    if q != [] {
      OverflowedCells(p, q[..|q| - 1], k, c);
    }
  }

  /** After any number q of bytes more than the capacity, the snapshot is still the first capacity-long
      stretch, turned to where the head stopped: a cell keeps its byte except where the head was, and of q
      only the bytes written while the head moved back, and the very last one, are there. */
  lemma OverflowKeepsTheOldest(capacity: nat, p: seq<Byte>, q: seq<Byte>, k: nat)
    requires |p| == capacity && EndsInside(p, k)
    ensures var d, c := Overflowed(p, q, k), CellBefore(capacity, Back(|q|, k));
      && Snapshot(WriteAll(Empty(capacity), p + q)) == d[c..] + d[..c]
      && (forall j :: 0 <= j < capacity ==> d[j] == CellAfter(p, q, k, j))
  {
    FilledRing(capacity, p);
    WriteAllCompose(Empty(capacity), p, q);
    OverflowedRing(p, q, k);
    forall j | 0 <= j < capacity
      ensures Overflowed(p, q, k)[j] == CellAfter(p, q, k, j)
    {
      OverflowedCells(p, q, k, j);
    }
  }

  /** Byte i of the snapshot after an overflow by q. */
  function ShownAt(p: seq<Byte>, q: seq<Byte>, k: nat, i: nat): Byte
    requires k + 2 <= |p| && i < |p|
  {
    CellAfter(p, q, k, Wrap(CellBefore(|p|, Back(|q|, k)) + i, |p|))
  }

  lemma SnapshotBytes(capacity: nat, p: seq<Byte>, q: seq<Byte>, k: nat)
    requires |p| == capacity && k + 2 <= capacity && EndsInside(p, k)
    ensures var t := Snapshot(WriteAll(Empty(capacity), p + q));
      |t| == capacity && forall i :: 0 <= i < capacity ==> t[i] == ShownAt(p, q, k, i)
  {
    hide Snapshot, WriteAll, CellAfter, Overflowed, EndsInside;
    OverflowKeepsTheOldest(capacity, p, q, k);
    var d, c := Overflowed(p, q, k), CellBefore(capacity, Back(|q|, k));
    assert forall i :: 0 <= i < capacity ==> (d[c..] + d[..c])[i] == d[Wrap(c + i, capacity)];
  }

  /** So the buffer holds the most recent bytes, as documented, exactly when every byte coincides with the
      one that stayed in its place. */
  lemma KeepsLatestIff(capacity: nat, p: seq<Byte>, q: seq<Byte>, k: nat)
    requires |p| == capacity && k + 2 <= capacity && EndsInside(p, k)
    ensures Snapshot(WriteAll(Empty(capacity), p + q)) == (p + q)[|q|..] <==>
      forall i :: 0 <= i < capacity ==> ShownAt(p, q, k, i) == (p + q)[|q| + i]
  {
    hide Snapshot, WriteAll, ShownAt, EndsInside;
    SnapshotBytes(capacity, p, q, k);
    var latest := (p + q)[|q|..];
    assert forall i :: 0 <= i < capacity ==> latest[i] == (p + q)[|q| + i];
  }

  function Letters(n: nat): seq<Byte> { seq(n, _ => 97) }

  lemma {:induction false} OneCell(x: seq<Byte>)
    requires x != []
    ensures var r := WriteAll(Empty(1), x); r.data == [x[|x| - 1]] && r.length == 1 && r.head == 0
    decreases |x|
  {
    if |x| > 1 {
      OneCell(x[..|x| - 1]);
    } else {
      assert x[..0] == [];
    }
  }

  /** For text of a given length the buffer always holds the most recent bytes exactly when the text just
      fills it, or it has a single cell. */
  lemma AlwaysKeepsLatestIff(capacity: nat, length: nat)
    requires 0 < capacity <= length
    ensures (forall x: seq<Byte> :: |x| == length ==> Snapshot(WriteAll(Empty(capacity), x)) == x[length - capacity..])
      <==> length == capacity || capacity == 1
  {
    hide Snapshot, WriteAll;
    if length == capacity {
      forall x: seq<Byte> | |x| == length
        ensures Snapshot(WriteAll(Empty(capacity), x)) == x[length - capacity..]
      {
        SnapshotIsEverything(capacity, x);
        assert x[0..] == x;
      }
    } else if capacity == 1 {
      forall x: seq<Byte> | |x| == length
        ensures Snapshot(WriteAll(Empty(capacity), x)) == x[length - capacity..]
      {
        OneCellSnapshot(x);
      }
    } else {
      OverflowFails(capacity, length - capacity);
    }
  }

  lemma OneCellSnapshot(x: seq<Byte>)
    requires x != []
    ensures Snapshot(WriteAll(Empty(1), x)) == x[|x| - 1..]
  {
    hide WriteAll;
    OneCell(x);
  }

  /** A text of letters that ends in another one. */
  function Failing(capacity: nat, m: nat): seq<Byte>
    requires m >= 1
  {
    Letters(capacity) + (Letters(m - 1) + [98])
  }

  lemma OverflowFails(capacity: nat, m: nat)
    requires capacity >= 2 && m >= 1
    ensures var x := Failing(capacity, m);
      |x| == capacity + m && Snapshot(WriteAll(Empty(capacity), x)) != x[m..]
  {
    hide Snapshot, WriteAll;
    var p, q := Letters(capacity), Letters(m - 1) + [98];
    assert EndsInside(p, 0);
    KeepsLatestIff(capacity, p, q, 0);
    assert (p + q)[m + 0] == 97;
    assert ShownAt(p, q, 0, 0) == 98;
  }

  // ---------------------------------------------------------------- the buffer object

  class Buffer {
    const capacity: nat
    const data: array<Byte>
    var head: nat
    var length: nat

    ghost predicate Valid() reads this, data {
      data.Length == capacity && View().Valid()
    }

    ghost function View(): Ring reads this, data { Ring(data[..], head, length) }

    constructor (cap: int)
      ensures Valid() && fresh(data) && capacity == (if cap <= 0 then 5 * 1024 * 1024 else cap)
      ensures View() == Empty(capacity)
    {
      var c := if cap <= 0 then DEFAULT_CAPACITY else cap;
      capacity := c;
      data := new Byte[c](_ => 0);
      head, length := 0, 0;
    }

    method Index(p: int) returns (q: nat)
      requires capacity > 0 && 0 - capacity <= p < capacity
      ensures q == Wrap(p, capacity)
    {
      WrapIsMod(p, capacity);
      q := (p + capacity) % capacity;
    }

    /** Whether a sequence or character may begin at the byte: anything but a UTF-8 continuation byte, and the
        one-byte CSI. */
    method IsAnsiBoundary(pos: nat) returns (ok: bool)
      requires pos < data.Length
      ensures ok == IsBoundary(data[pos])
      ensures ok <==> data[pos] < 0x80 || data[pos] == 0x9B || data[pos] >= 0xC0
    {
      var b := data[pos];
      if b < 0x20 {
        return true;
      }
      if b == 0x1B || b == 0x9B {
        return true;
      }
      if 0x80 <= b <= 0xBF {
        return false;
      }
      return true;
    }

    method FindEvictPosition() returns (pos: nat)
      requires data.Length == capacity && head < capacity && length <= capacity
      ensures pos == EvictPosition(data[..], head, length)
    {
      hide EvictFrom, Wrap, IsBoundary;
      ghost var d, target := data[..], EvictPosition(data[..], head, length);
      var searchLimit := if 32 > length then length else 32;
      var searchStart := Index(head - 1);
      var i := 0;
      while i < searchLimit
        invariant 0 <= i <= searchLimit
        invariant EvictFrom(d, head, i, searchLimit) == target
      {
        pos := Index(searchStart - i);
        var prevPos := Index(pos - 1);
        var safe := IsAnsiBoundary(prevPos);
        EvictUnfold(d, head, i, searchLimit);
        if safe {
          return pos;
        }
        i := i + 1;
      }
      EvictEnd(d, head, searchLimit);
      pos := Index(head - searchLimit);
    }

    method Write(p: seq<Byte>) returns (n: nat)
      requires Valid()
      modifies this, data
      ensures Valid() && View() == WriteAll(old(View()), p) && n == |p|
    {
      hide EvictFrom;
      for i := 0 to |p|
        invariant Valid() && View() == WriteAll(old(View()), p[..i])
      {
        ghost var before := View();
        WrapIsMod(head + 1, capacity);
        data[head] := p[i];
        head := (head + 1) % capacity;
        if length < capacity {
          length := length + 1;
        } else {
          head := FindEvictPosition();
        }
        assert View() == WriteByte(before, p[i]);
        assert p[..i + 1][..i] == p[..i];
      }
      assert p[..|p|] == p;
      return |p|;
    }

    method TakeSnapshot() returns (result: seq<Byte>)
      requires Valid()
      ensures result == Snapshot(View())
    {
      if length == 0 {
        return [];
      }
      var start := Index(head - length);
      if start + length <= capacity {
        result := data[start..start + length];
      } else {
        result := data[start..] + data[..head];
      }
    }
  }
}
