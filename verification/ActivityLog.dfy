/**
 The assertion activity log of pmconfigd/PMAssertionLog.c: a ring of 64 entries with a 32-bit write
 index, read through cursors that the clients keep.
 */
module ActivityLog {
  import opened Common

  const RING: nat := 64
  const UINT_MAX: nat := 0xFFFF_FFFF

  /** Entries logged since the last entitled read at which that reader is notified: 0.9 * 64, rounded up. */
  const HIGH_WATER: nat := 58

  /** The mark is nine tenths of the ring, rounded up. */
  lemma HighWaterIs()
    ensures 10 * (HIGH_WATER - 1) < 9 * RING <= 10 * HIGH_WATER && TWO_32 % RING == 0
  {
  }

  type Word = n: nat | n < TWO_32

  /** Number of entries the ring still has after `n` writes. */
  function Kept(n: nat): nat {
    if n < RING then n else RING
  }

  /** The ring holds the latest entries of the unbounded log, entry number `n` in slot `n % 64`. */
  ghost predicate Holds<T>(ring: seq<T>, log: seq<T>) {
    && |ring| == Kept(|log|)
    && forall n :: |log| - |ring| <= n < |log| ==> ring[n % RING] == log[n]
  }

  /** One read of the ring, from slot `first` to slot `last`, wrapping at most once. */
  function Slice<T>(ring: seq<T>, first: nat, last: nat): seq<T>
    requires first < |ring| && last < |ring|
  {
    if first > last then ring[first..] + ring[..last + 1] else ring[first..last + 1]
  }

  /** Reading from the slot of entry `a` to the slot of entry `b - 1` gives entries `a` to `b` in order. */
  lemma SliceIsLog<T>(ring: seq<T>, log: seq<T>, a: nat, b: nat)
    requires Holds(ring, log) && |log| - |ring| <= a < b <= |log|
    ensures a % RING < |ring| && (b - 1) % RING < |ring|
    ensures a % RING > (b - 1) % RING ==> |ring| == RING
    ensures Slice(ring, a % RING, (b - 1) % RING) == log[a..b]
  {
    var first, last := a % RING, (b - 1) % RING;
    var s := Slice(ring, first, last);
    assert b - 1 - a < RING;
    assert |s| == b - a;
    forall j | 0 <= j < b - a ensures s[j] == log[a + j] {
      var slot := (a + j) % RING;
      assert ring[slot] == log[a + j];
      assert slot == if first + j < RING then first + j else first + j - RING;
    }
  }

  /** The entries a reader gets who has missed some. */
  function Latest<T>(log: seq<T>): seq<T> {
    log[|log| - Kept(|log|)..]
  }

  /** The latest 64 entries, rotated: the last `w` of them come first. */
  function Rotated<T>(log: seq<T>, w: nat): seq<T>
    requires w < RING <= |log|
  {
    log[|log| - w..] + log[|log| - RING..|log| - w]
  }

  /** When the entries differ from each other, a rotation shows unless it is none. */
  lemma RotationShows<T>(log: seq<T>, w: nat)
    requires w < RING <= |log| && NoDup(Latest(log))
    ensures Rotated(log, w) == Latest(log) <==> w == 0
  {
    var a, b := Rotated(log, w), Latest(log);
    if w == 0 {
      assert a == b;
    } else {
      assert a[0] == b[RING - w];
    }
  }

  /** The write index counts modulo 2^32, which the ring size divides. */
  lemma SlotOfIndex(n: nat, back: nat)
    requires back <= n % TWO_32
    ensures (n % TWO_32 - back) % RING == (n - back) % RING
  {
    var q := n / TWO_32;
    assert n - back == (n % TWO_32 - back) + RING * (q * (TWO_32 / RING));
    ModShift(n % TWO_32 - back, q * (TWO_32 / RING));
  }

  lemma {:induction false} ModShift(x: nat, k: nat)
    ensures (x + RING * k) % RING == x % RING
  {
    if k > 0 {
      ModShift(x, k - 1);
      assert x + RING * k == (x + RING * (k - 1)) + RING;
    }
  }

  lemma NextIndex(n: nat)
    ensures (n % TWO_32 + 1) % TWO_32 == (n + 1) % TWO_32
  {
  }

  /** The next entry takes the slot of the oldest one, or a new slot. */
  lemma HoldsSnoc<T>(ring: seq<T>, log: seq<T>, e: T)
    requires Holds(ring, log)
    ensures var slot := |log| % RING;
            slot <= |ring| && Holds(if slot < |ring| then ring[slot := e] else ring + [e], log + [e])
  {
    var slot := |log| % RING;
    var after := if slot < |ring| then ring[slot := e] else ring + [e];
    forall n | |log| + 1 - |after| <= n < |log| + 1 ensures after[n % RING] == (log + [e])[n] {
      assert n < |log| ==> |log| - n < RING && n % RING != slot;
    }
  }

  class Log<T> {
    var ring: seq<T>
    var idx: Word
    var unread: Word
    /** Everything ever logged, and how much of it there was at the last entitled read. */
    ghost var log: seq<T>
    ghost var readAt: Option<nat>

    ghost predicate Valid()
      reads this
    {
      && Holds(ring, log) && idx == |log| % TWO_32
      && (readAt.Some? ==> readAt.value <= |log|)
      && (unread != UINT_MAX ==> readAt.Some? && unread == |log| - readAt.value && unread < HIGH_WATER)
      && (unread == UINT_MAX && readAt.Some? ==> |log| - readAt.value >= HIGH_WATER)
    }

    constructor ()
      ensures Valid() && log == [] && readAt.None?
    {
      ring, idx, unread, log, readAt := [], 0, UINT_MAX, [], None;
    }

    /** Write an entry to its slot. */
    method Store(e: T)
      requires Holds(ring, log) && idx == |log| % TWO_32
      modifies `ring, `log, `idx
      ensures Holds(ring, log) && idx == |log| % TWO_32 && log == old(log) + [e]
    {
      hide Holds;
      var slot := idx % RING;
      SlotOfIndex(|log|, 0);
      HoldsSnoc(ring, log, e);
      NextIndex(|log|);
      if slot < |ring| {
        ring := ring[slot := e];
      } else {
        ring := ring + [e];
      }
      log := log + [e];
      idx := (idx + 1) % TWO_32;
    }

    /** logAssertionActivity.  The reader is notified at the very write that fills the ring to the mark. */
    method Append(e: T) returns (notify: bool)
      requires Valid()
      modifies this
      ensures Valid() && log == old(log) + [e] && readAt == old(readAt)
      ensures notify <==> readAt.Some? && |log| - readAt.value == HIGH_WATER
    {
      hide Holds;
      Store(e);
      notify := false;
      if unread != UINT_MAX {
        unread := unread + 1;
        if unread >= HIGH_WATER {
          notify := true;
          unread := UINT_MAX;
        }
      }
    }

    /** The entitled reader has read. */
    method MarkRead()
      requires Valid()
      modifies `unread, `readAt
      ensures Valid() && readAt == Some(|log|)
    {
      unread := 0;
      readAt := Some(|log|);
    }

    /** The cursor and the write index tell what is missing: no more than the ring holds. */
    predicate Follows(r: Word)
      reads `idx
    {
      r < idx && idx - r <= RING && r + RING < TWO_32
    }

    /** First and last slot to read for a cursor. */
    method Locate(from: Word) returns (first: nat, last: nat, lost: bool)
      requires Valid() && ring != [] && from != idx && (from % RING < |ring| || from == UINT_MAX)
      ensures first < |ring| && last < |ring|
      ensures Follows(from) ==> !lost && Slice(ring, first, last) == log[|log| - (idx - from)..]
      ensures !Follows(from) ==>
                Slice(ring, first, last) == if from == UINT_MAX && idx <= RING && |log| >= TWO_32
                    then Rotated(log, idx % RING) else Latest(log)
      ensures !Follows(from) ==> (lost <==> !(from == UINT_MAX && idx <= RING))
    {
      hide Slice, Holds;
      lost := false;
      if from == UINT_MAX && idx <= RING {
        first, last := 0, |ring| - 1;
        if |log| < TWO_32 {
          WholeRing(ring, log, idx);
        } else {
          RotatedRing(ring, log, idx);
        }
      } else if idx > (from + RING) % TWO_32 || idx < from {
        first, last := idx % RING, (idx + UINT_MAX) % TWO_32 % RING;
        lost := true;
        if first >= |ring| {
          first := 0;
        }
        LatestSlots(ring, log, idx);
      } else {
        first, last := from % RING, (idx + UINT_MAX) % TWO_32 % RING;
        SlotsSince(ring, log, idx, from);
      }
    }

    /** _getAssertionActivityUpdates: entries since cursor `r`, or the latest ones when some were lost. */
    method Read(r: Word, firstCall: bool) returns (updates: Option<seq<T>>, cursor: Word, overflow: bool)
      requires Valid()
      ensures var from := if firstCall then UINT_MAX else r;
              && (from == idx || log == [] ==> updates.None? && cursor == from && overflow == firstCall)
              && (from != idx && log != [] ==> updates.Some? && cursor == idx)
      ensures !firstCall && Follows(r) && log != [] ==> !overflow && updates == Some(log[|log| - (idx - r)..])
      ensures overflow <==>
                firstCall || (updates.Some? && !Follows(r) && !(r == UINT_MAX && idx <= RING && |ring| == RING))
      ensures updates.Some? && (firstCall || !Follows(r)) ==>
                updates == Some(if (firstCall || r == UINT_MAX) && idx <= RING && |log| >= TWO_32
                    then Rotated(log, idx % RING) else Latest(log))
    {
      hide Slice, Holds;
      RingSize(ring, log);
      overflow, cursor, updates := false, r, None;
      var from := r;
      if firstCall {
        overflow := true;
        from := UINT_MAX;
        cursor := from;
      }
      if from == idx || |ring| == 0 { return; }
      if from % RING >= |ring| {
        FollowedIsKept(ring, log, idx, from);
        overflow := true;
        from := UINT_MAX;
      }
      if from == idx {
        IndexBelow(ring, log, idx);
      }
      var first, last, lost := Locate(from);
      overflow := overflow || lost;
      updates := Some(Slice(ring, first, last));
      cursor := idx;
    }
  }

  lemma RingSize<T>(ring: seq<T>, log: seq<T>)
    requires Holds(ring, log)
    ensures |ring| == Kept(|log|)
  {
  }

  /** Slots from the cursor on, when no more than the ring holds is missing. */
  lemma SlotsSince<T>(ring: seq<T>, log: seq<T>, idx: Word, from: Word)
    requires Holds(ring, log) && ring != [] && idx == |log| % TWO_32 && from < idx && idx - from <= RING
    ensures |log| - (idx - from) >= 0 && from % RING < |ring| && (idx + UINT_MAX) % TWO_32 % RING < |ring|
    ensures Slice(ring, from % RING, (idx + UINT_MAX) % TWO_32 % RING) == log[|log| - (idx - from)..]
  {
    var n := |log|;
    PreviousSlot(idx, n);
    SlotOfIndex(n, idx - from);
    SliceIsLog(ring, log, n - (idx - from), n);
    assert log[n - (idx - from)..n] == log[n - (idx - from)..];
  }

  lemma FollowedIsKept<T>(ring: seq<T>, log: seq<T>, idx: Word, from: Word)
    requires Holds(ring, log) && idx == |log| % TWO_32 && from % RING >= |ring|
    ensures |log| < RING && !(from < idx)
  {
  }

  lemma IndexBelow<T>(ring: seq<T>, log: seq<T>, idx: Word)
    requires Holds(ring, log) && idx == |log| % TWO_32 && |ring| < RING
    ensures idx < RING
  {
  }

  lemma PreviousSlot(write: Word, n: nat)
    requires n > 0 && write == n % TWO_32
    ensures (write + UINT_MAX) % TWO_32 % RING == (n - 1) % RING
  {
    if write == 0 {
      assert (write + UINT_MAX) % TWO_32 == UINT_MAX;
      var q := n / TWO_32;
      assert n - 1 == UINT_MAX + TWO_32 * (q - 1);
      assert TWO_32 * (q - 1) == RING * ((TWO_32 / RING) * (q - 1));
      ModShift(UINT_MAX, (TWO_32 / RING) * (q - 1));
    } else {
      assert (write + UINT_MAX) % TWO_32 == write - 1;
      SlotOfIndex(n, 1);
    }
  }

  lemma OneTurnBack(n: nat)
    requires n >= RING
    ensures (n - RING) % RING == n % RING
  {
  }

  lemma FullTurn(n: nat)
    requires n >= RING && n % RING == 0
    ensures (n - RING) % RING == 0 && (n - 1) % RING == RING - 1
  {
  }

  /** A ring that starts at slot zero is the end of the log. */
  lemma WholeRing<T>(ring: seq<T>, log: seq<T>, idx: Word)
    requires Holds(ring, log) && ring != [] && idx == |log| % TWO_32 && idx <= RING && |log| < TWO_32
    ensures Slice(ring, 0, |ring| - 1) == Latest(log)
  {
    hide Slice, Holds;
    RingSize(ring, log);
    var n := |log|;
    SlotOfIndex(n, 0);
    if n >= RING {
      assert n % RING == 0;
      FullTurn(n);
    }
    SliceIsLog(ring, log, n - |ring|, n);
    assert log[n - |ring|..n] == log[n - |ring|..];
  }

  /** Once the write index has wrapped around, the ring read from slot zero is rotated by the index. */
  lemma RotatedRing<T>(ring: seq<T>, log: seq<T>, idx: Word)
    requires Holds(ring, log) && idx == |log| % TWO_32 && |log| >= TWO_32
    ensures |ring| == RING && Slice(ring, 0, RING - 1) == Rotated(log, idx % RING)
  {
    var n, w := |log|, idx % RING;
    SlotOfIndex(n, 0);
    assert n % RING == w;
    forall j | 0 <= j < RING ensures ring[j] == Rotated(log, w)[j] {
      var m := if j < w then n - w + j else n - RING + j - w;
      RotatedSlot(n, w, j);
      assert ring[m % RING] == log[m];
    }
  }

  lemma RotatedSlot(n: nat, w: nat, j: nat)
    requires n >= RING && n % RING == w && j < RING
    ensures (if j < w then n - w + j else n - RING + j - w) % RING == j
  {
    var q := n / RING;
    assert n == RING * q + w;
    if j < w {
      ModShift(j, q);
    } else {
      assert n - RING + j - w == j + RING * (q - 1);
      ModShift(j, q - 1);
    }
  }

  /** From the slot written longest ago to the one written last. */
  lemma LatestSlots<T>(ring: seq<T>, log: seq<T>, write: Word)
    requires Holds(ring, log) && ring != [] && write == |log| % TWO_32
    ensures var first := if write % RING >= |ring| then 0
              else write % RING; var last := (write + UINT_MAX) % TWO_32 % RING;
            last < |ring| && Slice(ring, first, last) == Latest(log)
  {
    hide Slice, Holds;
    RingSize(ring, log);
    var n := |log|;
    SlotOfIndex(n, 0);
    PreviousSlot(write, n);
    if n >= RING {
      OneTurnBack(n);
    }
    SliceIsLog(ring, log, n - |ring|, n);
    assert log[n - |ring|..n] == log[n - |ring|..];
  }

  lemma IndexIs(n: nat)
    requires n < TWO_32
    ensures n % TWO_32 == n
  {
  }

  lemma Tail<T>(a: seq<T>, b: seq<T>)
    ensures (a + b)[|a|..] == b
  {
  }

  method AppendAll<T>(l: Log<T>, batch: seq<T>)
    requires l.Valid()
    modifies l
    ensures l.Valid() && l.log == old(l.log) + batch
  {
    hide Holds;
    for j := 0 to |batch|
      invariant l.Valid() && l.log == old(l.log) + batch[..j]
    {
      var _ := l.Append(batch[j]);
    }
    assert batch[..|batch|] == batch;
  }

  /** A reader comes back with its cursor after some more entries: unless the read reports an overflow it gets
      exactly those entries, and after at most 64 of them it never does, up to the last 64 cursors. */
  method ReadBatch<T>(l: Log<T>, batch: seq<T>, cursor: Word) returns (got: seq<T>, next: Word, lost: bool)
    requires l.Valid() && cursor == l.idx && |l.log| + |batch| < TWO_32
    modifies l
    ensures l.Valid() && l.log == old(l.log) + batch && next == l.idx
    ensures !lost ==> got == batch
    ensures |batch| <= RING && |l.log| + RING <= TWO_32 ==> !lost
  {
    hide Holds, Kept;
    ghost var before := l.log;
    IndexIs(|l.log|);
    AppendAll(l, batch);
    IndexIs(|l.log|);
    Tail(before, batch);
    var updates;
    updates, next, lost := l.Read(cursor, false);
    got := if updates.Some? then updates.value else [];
  }

  /** Reads with the cursor of the read before: unless one reports an overflow, what was read is the log from
      where the reader started, with no gap and no entry twice. */
  method Follow<T>(l: Log<T>, batches: seq<seq<T>>) returns (read: seq<T>, overflowed: bool)
    requires l.Valid() && |l.log| + Total(batches) < TWO_32
    modifies l
    ensures l.Valid() && |old(l.log)| <= |l.log| && (!overflowed ==> read == l.log[|old(l.log)|..])
    ensures (forall b :: b in batches ==> |b| <= RING) && |l.log| + RING <= TWO_32 ==> !overflowed
  {
    hide Holds;
    read, overflowed := [], false;
    var cursor := l.idx;
    ghost var start := |l.log|;
    for n := 0 to |batches|
      invariant l.Valid() && start <= |l.log| && |l.log| + Total(batches[n..]) < TWO_32
      invariant !overflowed ==> read == l.log[start..]
      invariant cursor == l.idx
      invariant (forall b :: b in batches ==> |b| <= RING) && |l.log| + RING <= TWO_32 ==> !overflowed
    {
      ghost var before := l.log;
      assert batches[n..] == [batches[n]] + batches[n + 1..];
      var got, next, lost := ReadBatch(l, batches[n], cursor);
      assert l.log[start..] == before[start..] + batches[n];
      overflowed := overflowed || lost;
      read := read + got;
      cursor := next;
    }
  }

  function Total<T>(batches: seq<seq<T>>): nat {
    if batches == [] then 0 else |batches[0]| + Total(batches[1..])
  }

  /** A first read after 2^32 + 1 entries gets the last 64 with the newest one first. */
  method ReadRotated<T>(batch: seq<T>) returns (l: Log<T>, got: seq<T>)
    requires |batch| == TWO_32 + 1 && NoDup(Latest(batch))
    ensures l.Valid() && l.log == batch && got == Rotated(batch, 1) && got != Latest(batch)
  {
    hide Holds, Latest, Rotated;
    l := new Log();
    AppendAll(l, batch);
    assert l.log == batch;
    assert l.idx == 1;
    var updates, cursor, lost := l.Read(0, true);
    got := updates.value;
    RotationShows(batch, 1);
  }
}
