/**
 The wake-event scheduler of pmconfigd/AutoWakeScheduler.c: one queue of dated events per behaviour,
 sorted by date, and one timer per behaviour that caches the next event.
 */
module WakeScheduler {
  import opened Common

  const BEHAVIORS: nat := 6

  type Kind = k: nat | k < BEHAVIORS

  /** A requested event; `content` stands for everything but the date, the application name and the type. */
  datatype Event = Event(date: real, app: string, kind: Kind, content: nat)

  const SLEEP: Kind := 0
  const SHUTDOWN: Kind := 1
  const RESTART: Kind := 2
  const WAKE: Kind := 3
  const POWER_ON: Kind := 4
  const WAKE_OR_POWER_ON: Kind := 5

  const MAX_ENTRIES: nat := 1000

  /** Timers are not armed for less than a millisecond, nor for more nanoseconds than fit in 63 bits. */
  const NEAR: real := 0.001
  const FAR: real := 9223372036.0

  /** In nanoseconds the longest delay still fits 63 bits, and a second more does not. */
  lemma FarFits()
    ensures FAR * 1000000000.0 <= 0x7FFF_FFFF_FFFF_FFFF as real < (FAR + 1.0) * 1000000000.0
  {
  }

  datatype Behavior = Behavior(queue: Option<seq<Event>>, current: Option<Event>, timer: Option<real>)

  function Events(b: Behavior): seq<Event> {
    if b.queue.Some? then b.queue.value else []
  }

  ghost predicate Sorted(s: seq<Event>) {
    forall i, j :: 0 <= i < j < |s| ==> s[i].date <= s[j].date
  }

  // ---- queue operations and what they compute ------------------------------------------

  /** Events that are not past. */
  function Upcoming(s: seq<Event>, now: real): (r: seq<Event>)
    ensures forall e :: e in r <==> e in s && e.date >= now
    ensures |r| <= |s|
  {
    if s == [] then [] else (if s[0].date >= now then [s[0]] else []) + Upcoming(s[1..], now)
  }

  /** In a sorted queue the events that are not past are the ones from the first such event on. */
  lemma {:induction false} UpcomingIsSuffix(s: seq<Event>, now: real, n: nat)
    requires Sorted(s) && n <= |s|
    requires (forall i :: 0 <= i < n ==> s[i].date < now) && (n < |s| ==> s[n].date >= now)
    ensures Upcoming(s, now) == s[n..]
  {
    var rest := if n > 0 then s[1..] else s;
    if n > 0 {
      assert forall i :: 0 <= i < |rest| ==> rest[i] == s[i + 1];
      UpcomingIsSuffix(rest, now, n - 1);
      assert s[n..] == rest[n - 1..];
    } else {
      NonePast(s, now);
      assert s[0..] == s;
    }
  }

  lemma {:induction false} NonePast(s: seq<Event>, now: real)
    requires forall i :: 0 <= i < |s| ==> s[i].date >= now
    ensures Upcoming(s, now) == s
  {
    if s != [] {
      var rest := s[1..];
      assert forall i :: 0 <= i < |rest| ==> rest[i] == s[i + 1];
      NonePast(rest, now);
      assert s == [s[0]] + rest;
    }
  }

  lemma SortedSuffix(s: seq<Event>, n: nat)
    requires Sorted(s) && n <= |s|
    ensures Sorted(s[n..])
  {
    assert forall i :: 0 <= i < |s[n..]| ==> s[n..][i] == s[n + i];
  }

  /** Sort by date; equal dates come in any order as far as callers know. */
  method SortByDate(s: seq<Event>) returns (r: seq<Event>)
    ensures Sorted(r) && multiset(r) == multiset(s)
  {
    hide Sorted;
    r := [];
    EmptySorted();
    for n := 0 to |s|
      invariant Sorted(r) && multiset(r) == multiset(s[..n])
    {
      assert s[..n + 1] == s[..n] + [s[n]];
      r := InsertByDate(r, s[n]);
    }
    assert s[..|s|] == s;
  }

  lemma EmptySorted()
    ensures Sorted([])
  {
  }

  method InsertByDate(s: seq<Event>, e: Event) returns (r: seq<Event>)
    requires Sorted(s)
    ensures Sorted(r) && multiset(r) == multiset(s) + multiset{e}
  {
    var i := 0;
    while i < |s| && s[i].date <= e.date
      invariant i <= |s| && forall j :: 0 <= j < i ==> s[j].date <= e.date
    {
      i := i + 1;
    }
    InsertAt(s, e, i);
    r := s[..i] + [e] + s[i..];
  }

  lemma InsertAt(r: seq<Event>, e: Event, i: nat)
    requires Sorted(r) && i <= |r|
    requires (forall j :: 0 <= j < i ==> r[j].date <= e.date) && (i < |r| ==> r[i].date > e.date)
    ensures Sorted(r[..i] + [e] + r[i..]) && multiset(r[..i] + [e] + r[i..]) == multiset(r) + multiset{e}
  {
    assert r == r[..i] + r[i..];
  }

  predicate Matches(a: Event, b: Event) {
    a.date == b.date && a.app == b.app
  }

  /** Search with early exit: found exactly when the queue holds an event of that date and application. */
  method Find(s: seq<Event>, e: Event) returns (at: Option<nat>)
    requires Sorted(s)
    ensures at.Some? <==> exists x :: x in s && Matches(x, e)
    ensures at.Some? ==> at.value < |s| && Matches(s[at.value], e)
  {
    for i := 0 to |s|
      invariant forall j :: 0 <= j < i ==> !Matches(s[j], e)
    {
      if e.date < s[i].date {
        forall j | i <= j < |s| ensures !Matches(s[j], e) { }
        return None;
      }
      if e.date == s[i].date && e.app == s[i].app {
        assert s[i] in s;
        return Some(i);
      }
    }
    return None;
  }

  lemma RemoveAt(s: seq<Event>, i: nat)
    requires Sorted(s) && i < |s|
    ensures Sorted(s[..i] + s[i + 1..]) && multiset(s) == multiset(s[..i] + s[i + 1..]) + multiset{s[i]}
  {
    assert s == s[..i] + [s[i]] + s[i + 1..];
  }

  // ---- the next event ------------------------------------------------------------------

  /** The least date of the events that are not past. */
  ghost function EarliestDate(s: seq<Event>, t: real): (r: Option<real>)
    ensures r.None? ==> forall e :: e in s ==> e.date < t
    ensures r.Some? ==>
              r.value >= t && (exists e :: e in s && e.date == r.value) && forall e :: e in s && e.date >= t ==>
              r.value <= e.date
  {
    if s == [] then None
    else
      var rest := EarliestDate(s[1..], t);
      if s[0].date < t then rest
      else if rest.None? || s[0].date <= rest.value then Some(s[0].date)
      else rest
  }

  /** The date a timer is armed for. */
  ghost function Armed(next: Option<real>, t: real): Option<real> {
    if next.Some? && NEAR < next.value - t < FAR then next else None
  }

  ghost predicate HasDate(s: seq<Event>, d: real) {
    exists e :: e in s && e.date == d
  }

  /** The same dates from `t` on. */
  ghost predicate SameFuture(a: seq<Event>, b: seq<Event>, t: real) {
    forall d :: d >= t ==> (HasDate(a, d) <==> HasDate(b, d))
  }

  function SumLengths(bs: seq<Behavior>): nat {
    if bs == [] then 0 else SumLengths(bs[..|bs| - 1]) + |Events(bs[|bs| - 1])|
  }

  lemma {:induction false} SumUpdate(bs: seq<Behavior>, k: nat, b: Behavior)
    requires k < |bs|
    ensures SumLengths(bs[k := b]) == SumLengths(bs) - |Events(bs[k])| + |Events(b)|
  {
    var n := |bs| - 1;
    if k < n {
      assert bs[k := b][..n] == bs[..n][k := b];
      SumUpdate(bs[..n], k, b);
    } else {
      assert bs[k := b][..n] == bs[..n];
    }
  }

  datatype IOReturn = Success | NoSpace | BadArgument | NotFound | NotPrivileged | Error

  /** Own, shared and repeating events of a behaviour. */
  ghost function CandidatesOf(bs: seq<Behavior>, k: Kind, repeat: Option<Event>): seq<Event>
    requires |bs| == BEHAVIORS
  {
    Events(bs[k]) + (if k == WAKE || k == POWER_ON then Events(bs[WAKE_OR_POWER_ON]) else [])
      + (if repeat.Some? then [repeat.value] else [])
  }

  /** What is known about a timer: when it was decided, from which events, and the repeating event then read. */
  datatype Decision = Decision(asOf: real, seen: seq<Event>, repeat: Option<Event>)

  /** The timer of behaviour `k` is what its events asked for when it was last decided, and the events that
      are not past are still the same. */
  ghost predicate Cached(bs: seq<Behavior>, k: Kind, d: Decision, now: real)
    requires |bs| == BEHAVIORS
  {
    && d.asOf <= now && bs[k].timer == Armed(EarliestDate(d.seen, d.asOf), d.asOf)
    && SameFuture(CandidatesOf(bs, k, d.repeat), d.seen, now)
  }

  /** Every timer is right but those of the behaviours in `stale`; the shared queue has no timer of its own. */
  ghost predicate CachedBut(bs: seq<Behavior>, ds: seq<Decision>, now: real, stale: set<Kind>)
    requires |bs| == |ds| == BEHAVIORS
  {
    forall k: Kind :: k != WAKE_OR_POWER_ON && k !in stale ==> Cached(bs, k, ds[k], now)
  }

  /** The event recorded as current is the next one, if there is a next one: a candidate that is not past, and none
      that is not past comes earlier; of equal ones the repeating event. */
  ghost predicate RecordsNext(bs: seq<Behavior>, k: Kind, repeat: Option<Event>, now: real)
    requires |bs| == BEHAVIORS
  {
    var cands := CandidatesOf(bs, k, repeat);
    (exists e :: e in cands && e.date >= now) ==>
      && bs[k].current.Some? && bs[k].current.value in cands && bs[k].current.value.date >= now
      && (forall e :: e in cands && e.date >= now ==> bs[k].current.value.date <= e.date)
      && (repeat.Some? && repeat.value.date == bs[k].current.value.date ==> bs[k].current == repeat)
  }

  /** The timer was decided just now, from the queues as they are, and the next event is on record. */
  ghost predicate Anew(bs: seq<Behavior>, ds: seq<Decision>, now: real, k: Kind, repeat: Option<Event>)
    requires |bs| == |ds| == BEHAVIORS
  {
    ds[k].asOf == now && ds[k].repeat == repeat
        && bs[k].timer == Armed(EarliestDate(CandidatesOf(bs, k, repeat), now), now)
        && RecordsNext(bs, k, repeat, now)
  }

  /** A timer decided just now is armed for the event on record. */
  lemma AnewDelivers(bs: seq<Behavior>, ds: seq<Decision>, now: real, k: Kind, repeat: Option<Event>)
    requires |bs| == |ds| == BEHAVIORS && Anew(bs, ds, now, k, repeat)
    ensures Delivers(bs[k])
  {
    var cands := CandidatesOf(bs, k, repeat);
    if bs[k].timer.Some? {
      var e :| e in cands && e.date == bs[k].timer.value;
      assert e.date >= now;
    }
  }

  /** What an armed timer will deliver has the date it is armed for. */
  predicate Delivers(b: Behavior) {
    b.timer.Some? ==> b.current.Some? && b.current.value.date == b.timer.value
  }

  lemma CachedIsAnew(bs: seq<Behavior>, ds: seq<Decision>, now: real, k: Kind)
    requires |bs| == |ds| == BEHAVIORS && AllCached(bs, ds, now) && k != WAKE_OR_POWER_ON && ds[k].asOf == now
    requires RecordsNext(bs, k, ds[k].repeat, now)
    ensures Anew(bs, ds, now, k, ds[k].repeat)
  {
    ArmedIffNextInReach(bs, k, ds[k], now);
  }

  ghost predicate AllCached(bs: seq<Behavior>, ds: seq<Decision>, now: real)
    requires |bs| == |ds| == BEHAVIORS
  {
    CachedBut(bs, ds, now, {})
  }

  /** What a purge leaves of a queue.  Wake events stay while purging them is off. */
  function Purged(b: Behavior, k: Kind, purging: bool, now: real): seq<Event> {
    if !purging && k == WAKE then Events(b) else Upcoming(Events(b), now)
  }

  /** The behaviours whose next event may depend on a queue. */
  function Dependants(k: Kind): set<Kind> {
    if k == WAKE_OR_POWER_ON then {WAKE, POWER_ON} else {k}
  }

  /** Queues are sorted and hold events of their own type, and what is on record may come from them. */
  ghost predicate Orderly(bs: seq<Behavior>) {
    forall k :: 0 <= k < |bs| ==> Sorted(Events(bs[k])) && OwnKind(k, bs[k])
  }

  /** The types a behaviour's next event may have. */
  function Sources(k: nat): set<nat> {
    if k == WAKE || k == POWER_ON then {k, WAKE_OR_POWER_ON} else {k}
  }

  ghost predicate OwnKind(k: nat, b: Behavior) {
    && (forall e :: e in Events(b) ==> e.kind == k)
    && (b.current.Some? ==> b.current.value.kind in Sources(k))
  }

  /** A timer that is armed for a date still ahead is armed for the next event: one of the candidates has that
      date, and none that is not past comes earlier. */
  lemma ArmedForNext(bs: seq<Behavior>, k: Kind, d: Decision, now: real)
    requires |bs| == BEHAVIORS && Cached(bs, k, d, now) && bs[k].timer.Some? && bs[k].timer.value >= now
    ensures var date := bs[k].timer.value; var cands := CandidatesOf(bs, k, d.repeat);
            HasDate(cands, date) && forall e :: e in cands && e.date >= now ==> date <= e.date
  {
    var date, cands := bs[k].timer.value, CandidatesOf(bs, k, d.repeat);
    assert HasDate(d.seen, date);
    forall e | e in cands && e.date >= now ensures date <= e.date {
      assert HasDate(cands, e.date);
      assert HasDate(d.seen, e.date);
    }
  }

  /** Right after a decision a timer is armed exactly when the next event is neither too near nor too far. */
  lemma ArmedIffNextInReach(bs: seq<Behavior>, k: Kind, d: Decision, now: real)
    requires |bs| == BEHAVIORS && Cached(bs, k, d, now) && d.asOf == now
    ensures var cands := CandidatesOf(bs, k, d.repeat); bs[k].timer == Armed(EarliestDate(cands, now), now)
  {
    SameEarliest(CandidatesOf(bs, k, d.repeat), d.seen, now);
  }

  lemma SameEarliest(a: seq<Event>, b: seq<Event>, t: real)
    requires SameFuture(a, b, t)
    ensures EarliestDate(a, t) == EarliestDate(b, t)
  {
    NotLater(a, b, t);
    NotLater(b, a, t);
  }

  lemma NotLater(a: seq<Event>, b: seq<Event>, t: real)
    requires SameFuture(a, b, t)
    ensures EarliestDate(b, t).Some? ==>
              EarliestDate(a, t).Some? && EarliestDate(a, t).value <= EarliestDate(b, t).value
  {
    var y := EarliestDate(b, t);
    if y.Some? {
      assert HasDate(b, y.value);
      assert HasDate(a, y.value);
    }
  }

  /** An event less than a millisecond ahead keeps every later one unarmed. */
  lemma NearEventBlocks(now: real)
    ensures var s := [Event(now + 0.0005, "a", WAKE, 0), Event(now + 100.0, "b", WAKE, 0)];
            Armed(EarliestDate(s, now), now) == None && Armed(EarliestDate(s[1..], now), now) == Some(now + 100.0)
  {
    var s := [Event(now + 0.0005, "a", WAKE, 0), Event(now + 100.0, "b", WAKE, 0)];
    assert s[1..] == [Event(now + 100.0, "b", WAKE, 0)];
    assert EarliestDate(s[1..], now) == Some(now + 100.0);
  }

  lemma {:induction false} EmptySum(bs: seq<Behavior>)
    requires forall k :: 0 <= k < |bs| ==> Events(bs[k]) == []
    ensures SumLengths(bs) == 0
  {
    if bs != [] {
      EmptySum(bs[..|bs| - 1]);
    }
  }

  lemma {:induction false} NothingCached(bs: seq<Behavior>, ds: seq<Decision>, now: real)
    requires |bs| == |ds| == BEHAVIORS
    requires forall k: Kind :: bs[k] == Behavior(None, None, None) && ds[k] == Decision(now, [], None)
    ensures AllCached(bs, ds, now) && Orderly(bs) && SumLengths(bs) == 0
  {
    EmptySum(bs);
    forall k: Kind ensures CandidatesOf(bs, k, None) == [] { }
  }

  /** Replacing the queue of one behaviour by one with the same future leaves every timer right. */
  lemma CachedFrame(bs: seq<Behavior>, ds: seq<Decision>, now: real, k: Kind, b: Behavior)
    requires |bs| == |ds| == BEHAVIORS && AllCached(bs, ds, now)
    requires b.timer == bs[k].timer && SameFuture(Events(bs[k]), Events(b), now)
    ensures AllCached(bs[k := b], ds, now)
  {
    var bs' := bs[k := b];
    forall j: Kind | j != WAKE_OR_POWER_ON && j !in {} ensures Cached(bs', j, ds[j], now) {
      var c, c' := CandidatesOf(bs, j, ds[j].repeat), CandidatesOf(bs', j, ds[j].repeat);
      assert Cached(bs, j, ds[j], now);
      forall d | d >= now ensures HasDate(c, d) <==> HasDate(c', d) {
        DateInParts(bs, j, ds[j].repeat, d);
        DateInParts(bs', j, ds[j].repeat, d);
        assert HasDate(Events(bs[k]), d) <==> HasDate(Events(b), d);
      }
    }
  }

  /** Any other change of a queue concerns its dependants only. */
  lemma CachedElsewhere(bs: seq<Behavior>, ds: seq<Decision>, now: real, k: Kind, b: Behavior, stale: set<Kind>)
    requires |bs| == |ds| == BEHAVIORS && CachedBut(bs, ds, now, stale) && b.timer == bs[k].timer
    ensures CachedBut(bs[k := b], ds, now, stale + Dependants(k))
  {
    var bs' := bs[k := b];
    forall j: Kind | j != WAKE_OR_POWER_ON && j !in stale + Dependants(k) ensures Cached(bs', j, ds[j], now) {
      assert CandidatesOf(bs', j, ds[j].repeat) == CandidatesOf(bs, j, ds[j].repeat);
      assert Cached(bs, j, ds[j], now);
    }
  }

  /** Timers do not depend on the events recorded as current. */
  lemma CachedIgnoresCurrent(bs: seq<Behavior>, bs': seq<Behavior>, ds: seq<Decision>, now: real, stale: set<Kind>)
    requires |bs| == |bs'| == |ds| == BEHAVIORS && CachedBut(bs, ds, now, stale)
    requires forall j: Kind :: bs'[j].queue == bs[j].queue && bs'[j].timer == bs[j].timer
    ensures CachedBut(bs', ds, now, stale)
  {
    forall j: Kind | j != WAKE_OR_POWER_ON && j !in stale ensures Cached(bs', j, ds[j], now) {
      assert CandidatesOf(bs', j, ds[j].repeat) == CandidatesOf(bs, j, ds[j].repeat);
      assert Cached(bs, j, ds[j], now);
    }
  }

  lemma {:induction false} SumIgnoresCurrent(bs: seq<Behavior>, bs': seq<Behavior>)
    requires |bs| == |bs'| && forall j :: 0 <= j < |bs| ==> bs'[j].queue == bs[j].queue
    ensures SumLengths(bs') == SumLengths(bs)
  {
    if bs != [] {
      SumIgnoresCurrent(bs[..|bs| - 1], bs'[..|bs| - 1]);
    }
  }

  lemma DateInParts(bs: seq<Behavior>, k: Kind, repeat: Option<Event>, d: real)
    requires |bs| == BEHAVIORS
    ensures HasDate(CandidatesOf(bs, k, repeat), d) <==>
            || HasDate(Events(bs[k]), d)
            || ((k == WAKE || k == POWER_ON) && HasDate(Events(bs[WAKE_OR_POWER_ON]), d))
            || (repeat.Some? && repeat.value.date == d)
  {
    var c := CandidatesOf(bs, k, repeat);
    if HasDate(Events(bs[k]), d) {
      var e :| e in Events(bs[k]) && e.date == d;
      assert e in c;
    }
    if (k == WAKE || k == POWER_ON) && HasDate(Events(bs[WAKE_OR_POWER_ON]), d) {
      var e :| e in Events(bs[WAKE_OR_POWER_ON]) && e.date == d;
      assert e in c;
    }
    if repeat.Some? && repeat.value.date == d {
      assert repeat.value in c;
    }
  }

  lemma UpcomingSameFuture(s: seq<Event>, now: real)
    ensures SameFuture(s, Upcoming(s, now), now)
  {
    forall d | d >= now ensures HasDate(s, d) <==> HasDate(Upcoming(s, now), d) {
      if HasDate(s, d) {
        var e :| e in s && e.date == d;
        assert e in Upcoming(s, now);
      }
    }
  }

  lemma ValidIsCached(bs: seq<Behavior>, ds: seq<Decision>, now: real)
    requires |bs| == |ds| == BEHAVIORS
    ensures AllCached(bs, ds, now) <==> CachedBut(bs, ds, now, {})
  {
  }

  /** An event that is not past and that no candidate precedes is the next one. */
  lemma NextIs(s: seq<Event>, e: Event, t: real)
    requires e in s && e.date >= t && forall x :: x in s && x.date >= t ==> e.date <= x.date
    ensures EarliestDate(s, t) == Some(e.date)
  {
  }

  lemma NothingNext(s: seq<Event>, t: real)
    requires forall x :: x in s ==> x.date < t
    ensures EarliestDate(s, t) == None
  {
  }

  lemma QueuesSorted(bs: seq<Behavior>, k: Kind)
    requires |bs| == BEHAVIORS && Orderly(bs)
    ensures Sorted(Events(bs[k])) && Sorted(Events(bs[WAKE_OR_POWER_ON])) && Sorted([])
  {
  }

  // ---- the state seen from outside -----------------------------------------------------

  datatype Snapshot = Snapshot(behaviors: seq<Behavior>, count: nat, purging: bool, now: real, decisions: seq<Decision>)

  ghost function At(s: Scheduler): Snapshot
    reads s
  {
    Snapshot(s.behaviors, s.activeEventCnt, s.wakePurgeAllowed, s.now, s.decisions)
  }

  ghost predicate Listed(s: seq<Event>, e: Event) {
    exists x :: x in s && Matches(x, e)
  }

  ghost predicate Sized(a: Snapshot) {
    |a.behaviors| == |a.decisions| == BEHAVIORS
  }

  /** Queues are sorted and counted, and every timer is what its events asked for. */
  ghost predicate Good(a: Snapshot) {
    Sized(a) && Orderly(a.behaviors) && a.count == SumLengths(a.behaviors)
        && AllCached(a.behaviors, a.decisions, a.now)
  }

  /** The limit is looked at first, then the type, then the right to change preferences. */
  ghost function RequestResult(a: Snapshot, schedule: bool, k: Option<Kind>, e: Event, session: IOReturn,
                               written: bool): IOReturn
    requires Sized(a)
  {
    if a.count >= MAX_ENTRIES then NoSpace
    else if k.None? then BadArgument
    else if session != Success then session
    else if schedule then (if written then Success else Error)
    else if Listed(Events(a.behaviors[k.value]), e) then Success else NotFound
  }

  /** Timers are as before, and what is on record too, unless it is the event that was taken out. */
  ghost predicate OffRecord(bs: seq<Behavior>, bs': seq<Behavior>, x: Event) {
    |bs| == |bs'| == BEHAVIORS && forall j: Kind ::
      bs'[j].timer == bs[j].timer && bs'[j].current == if bs[j].current == Some(x) then None else bs[j].current
  }

  /** What a request does: an addition gives the unpurged events and the new one, a failed one is taken back again, a
      cancellation takes one matching event out; every timer that looks at the queue is decided anew. */
  ghost predicate Requested(a: Snapshot, b: Snapshot, schedule: bool, k: Option<Kind>, e: Event, session: IOReturn,
                            ret: IOReturn,
                            repeats: Kind -> Option<Event>)
  {
    && Sized(a) && Sized(b) && b.now == a.now && b.purging == a.purging
    && (ret.Success? || (schedule && ret.Error? && session.Success?) ==> k.Some?)
    && (!ret.Success? && !(schedule && ret.Error? && session.Success?) ==> b.behaviors == a.behaviors)
    && (forall j: Kind :: Some(j) != k ==> b.behaviors[j].queue == a.behaviors[j].queue)
    && (schedule && ret.Success? ==>
          multiset(Events(b.behaviors[k.value]))
              == multiset(Purged(a.behaviors[k.value], k.value, a.purging, a.now)) + multiset{e})
    && (schedule && ret.Error? && session.Success? ==>
          exists x :: Matches(x, e) && OffRecord(a.behaviors, b.behaviors, x)
            && multiset(Events(b.behaviors[k.value])) + multiset{x}
            == multiset(Purged(a.behaviors[k.value], k.value, a.purging, a.now)) + multiset{e})
    && (!schedule && ret.Success? ==>
          exists x :: Matches(x, e)
              && multiset(Events(a.behaviors[k.value])) == multiset(Events(b.behaviors[k.value])) + multiset{x})
    && (ret.Success? ==> forall j: Kind :: j in Dependants(k.value) ==>
         Anew(b.behaviors, b.decisions, b.now, j, repeats(j)))
    && (ret.Success? ==> forall j: Kind :: j !in Dependants(k.value) && j != WAKE_OR_POWER_ON ==>
         b.behaviors[j] == a.behaviors[j])
  }

  class Scheduler {
    var behaviors: seq<Behavior>
    var activeEventCnt: nat
    var wakePurgeAllowed: bool
    var now: real
    ghost var decisions: seq<Decision>

    ghost predicate Sized()
      reads `behaviors, `decisions
    {
      |behaviors| == |decisions| == BEHAVIORS && Orderly(behaviors)
    }

    /** Queues are sorted and counted. */
    ghost predicate Shape()
      reads `behaviors, `activeEventCnt, `decisions
    {
      Sized() && activeEventCnt == SumLengths(behaviors)
    }

    /** Between operations. */
    ghost predicate Valid()
      reads this
    {
      Shape() && AllCached(behaviors, decisions, now)
    }

    constructor (now: real)
      ensures Valid() && this.now == now && wakePurgeAllowed && forall k: Kind ::
                behaviors[k] == Behavior(None, None, None)
    {
      behaviors := seq(BEHAVIORS, _ => Behavior(None, None, None));
      activeEventCnt, wakePurgeAllowed, this.now := 0, true, now;
      decisions := seq(BEHAVIORS, _ => Decision(now, [], None));
      new;
      hide AllCached, Orderly, SumLengths;
      NothingCached(behaviors, decisions, now);
    }

    /** Replace the queue of a behaviour. */
    method SetQueue(k: Kind, q: seq<Event>, count: nat)
      requires Shape() && Sorted(q) && (forall e :: e in q ==> e.kind == k)
      requires count == activeEventCnt - |Events(behaviors[k])| + |q|
      modifies `behaviors, `activeEventCnt
      ensures Shape() && behaviors == old(behaviors)[k := old(behaviors)[k].(queue := Some(q))]
      ensures old(Valid()) && SameFuture(old(Events(behaviors[k])), q, now) ==> Valid()
      ensures old(Valid()) ==> CachedBut(behaviors, decisions, now, Dependants(k))
    {
      hide AllCached, CachedBut, Sorted, SumLengths, SameFuture, Dependants;
      var b := behaviors[k].(queue := Some(q));
      SumUpdate(behaviors, k, b);
      if Valid() {
        ValidIsCached(behaviors, decisions, now);
        CachedElsewhere(behaviors, decisions, now, k, b, {});
        assert {} + Dependants(k) == Dependants(k);
        if SameFuture(Events(behaviors[k]), q, now) {
          CachedFrame(behaviors, decisions, now, k, b);
        }
      }
      behaviors := behaviors[k := b];
      activeEventCnt := count;
    }

    /** purgePastEvents: the queue keeps exactly the events that are not past, unless purging wake events is off. */
    method PurgePastEvents(k: Kind)
      requires Valid()
      modifies `behaviors, `activeEventCnt
      ensures Valid()
      ensures Events(behaviors[k]) == Purged(old(behaviors)[k], k, wakePurgeAllowed, now)
      ensures behaviors == old(behaviors)[k := old(behaviors)[k].(queue := behaviors[k].queue)]
      ensures old(behaviors)[k].queue.Some? <==> behaviors[k].queue.Some?
    {
      hide AllCached, SumLengths, SameFuture, Upcoming, Sorted, Orderly;
      if !wakePurgeAllowed && k == WAKE {
        assert behaviors[k := behaviors[k].(queue := behaviors[k].queue)] == behaviors;
        return;
      }
      if behaviors[k].queue.None? || |behaviors[k].queue.value| == 0 {
        assert behaviors[k := behaviors[k].(queue := behaviors[k].queue)] == behaviors;
        return;
      }
      var s := behaviors[k].queue.value;
      var n := 0;
      while n < |s| && s[n].date < now
        invariant n <= |s| && forall i :: 0 <= i < n ==> s[i].date < now
      {
        n := n + 1;
      }
      AreSorted(behaviors, k);
      QueueKinds(behaviors, k);
      UpcomingIsSuffix(s, now, n);
      SortedSuffix(s, n);
      UpcomingSameFuture(s, now);
      CountFits(behaviors, k, activeEventCnt);
      SetQueue(k, s[n..], activeEventCnt - n);
    }
  
    /** The events of two queues, sorted by date. */
    method MergedEventArray(a: Option<seq<Event>>, b: Option<seq<Event>>) returns (r: Option<seq<Event>>)
      requires Sorted(if a.Some? then a.value else []) && Sorted(if b.Some? then b.value else [])
      ensures r.None? <==> a.None? && b.None?
      ensures r.Some? ==> Sorted(r.value) && forall e :: e in r.value <==>
                (a.Some? && e in a.value) || (b.Some? && e in b.value)
    {
      if a.None? && b.None? { return None; }
      if a.None? { return b; }
      if b.None? { return a; }
      var merged := SortByDate(a.value + b.value);
      SameMembers(merged, a.value + b.value);
      return Some(merged);
    }

    /** Skip past entries, stopping at the first that is not past. */
    method FirstUpcoming(s: seq<Event>) returns (e: Option<Event>)
      requires Sorted(s)
      ensures e.Some? ==> e.value in s && e.value.date >= now && forall x :: x in s && x.date >= now ==>
                e.value.date <= x.date
      ensures e.None? ==> forall x :: x in s ==> x.date < now
    {
      var i := 0;
      while i < |s| && s[i].date < now
        invariant i <= |s| && forall j :: 0 <= j < i ==> s[j].date < now
      {
        i := i + 1;
      }
      e := if i < |s| then Some(s[i]) else None;
    }

    /** copyEarliestUpcoming: an event with the least date of all that are not past. */
    method CopyEarliestUpcoming(k: Kind, repeat: Option<Event>) returns (e: Option<Event>)
      requires Sized() && (repeat.Some? ==> repeat.value.date >= now)
      ensures var cands := CandidatesOf(behaviors, k, repeat);
              && (e.Some? ==> e.value in cands && EarliestDate(cands, now) == Some(e.value.date))
              && (e.None? ==> EarliestDate(cands, now) == None)
      ensures repeat.Some? && e.Some? && repeat.value.date == e.value.date ==> e == repeat
    {
      hide Sorted, SumLengths, EarliestDate;
      var arr := behaviors[k].queue;
      QueuesSorted(behaviors, k);
      if k == WAKE || k == POWER_ON {
        arr := MergedEventArray(behaviors[k].queue, behaviors[WAKE_OR_POWER_ON].queue);
      }
      e := None;
      if arr.Some? {
        e := FirstUpcoming(arr.value);
      }
      ghost var own, all := e, if arr.Some? then arr.value else [];
      if repeat.Some? && (e.None? || repeat.value.date <= e.value.date) {
        e := repeat;
      }
      ghost var cands := CandidatesOf(behaviors, k, repeat);
      assert forall x :: x in cands <==> x in all || repeat == Some(x);
      if e.Some? {
        NextIs(cands, e.value, now);
      } else {
        NothingNext(cands, now);
      }
    }

    /** schedulePowerEvent: decide the timer of a behaviour anew. */
    method SchedulePowerEvent(k: Kind, repeat: Option<Event>, ghost stale: set<Kind>)
      requires Sized() && CachedBut(behaviors, decisions, now, stale)
      requires repeat.Some? ==> repeat.value.date >= now && repeat.value.kind in Sources(k)
      modifies `behaviors, `decisions
      ensures Sized() && CachedBut(behaviors, decisions, now, stale - {k})
                && SumLengths(behaviors) == SumLengths(old(behaviors))
      ensures behaviors
                == old(behaviors)[k := old(behaviors)[k].(timer := behaviors[k].timer, current := behaviors[k].current)]
      ensures decisions == old(decisions)[k := Decision(now, CandidatesOf(behaviors, k, repeat), repeat)]
      ensures behaviors[k].timer == Armed(EarliestDate(CandidatesOf(behaviors, k, repeat), now), now)
      ensures RecordsNext(behaviors, k, repeat, now)
      ensures EarliestDate(CandidatesOf(behaviors, k, repeat), now).None? ==>
                behaviors[k].current == old(behaviors)[k].current
    {
      hide Sorted, SumLengths, CachedBut, Orderly;
      var upcoming := CopyEarliestUpcoming(k, repeat);
      var b := behaviors[k].(timer := None);
      if upcoming.Some? {
        b := b.(current := upcoming);
        var delta := upcoming.value.date - now;
        if NEAR < delta < FAR {
          b := b.(timer := Some(upcoming.value.date));
        }
      }
      QueueKinds(behaviors, k);
      if upcoming.Some? {
        CandidateKinds(behaviors, k, repeat, upcoming.value);
      }
      Decided(behaviors, decisions, now, k, b, repeat, stale);
      behaviors := behaviors[k := b];
      decisions := decisions[k := Decision(now, CandidatesOf(behaviors, k, repeat), repeat)];
    }

    /** Put an event into a queue.  `base` is what was in the queue after the purge. */
    method AddEvent(k: Kind, e: Event) returns (ghost base: seq<Event>)
      requires Valid() && e.kind == k
      modifies `behaviors, `activeEventCnt
      ensures Shape() && CachedBut(behaviors, decisions, now, Dependants(k))
      ensures behaviors == old(behaviors)[k := old(behaviors)[k].(queue := behaviors[k].queue)]
                && behaviors[k].queue.Some?
      ensures base == Purged(old(behaviors)[k], k, wakePurgeAllowed, now)
      ensures multiset(Events(behaviors[k])) == multiset(base) + multiset{e}
      ensures AllCached(behaviors[k := behaviors[k].(queue := Some(base))], decisions, now)
    {
      hide Sorted, SumLengths, CachedBut, AllCached, Purged;
      if behaviors[k].queue.Some? {
        PurgePastEvents(k);
        base := behaviors[k].queue.value;
        AddToQueue(k, e);
      } else {
        base := [];
        NothingPurged(behaviors[k], k, wakePurgeAllowed, now);
        StartQueue(k, e);
      }
    }

    /** One more event in a queue that exists. */
    method AddToQueue(k: Kind, e: Event)
      requires Valid() && behaviors[k].queue.Some? && e.kind == k
      modifies `behaviors, `activeEventCnt
      ensures Shape() && CachedBut(behaviors, decisions, now, Dependants(k))
      ensures behaviors == old(behaviors)[k := old(behaviors)[k].(queue := behaviors[k].queue)]
                && behaviors[k].queue.Some?
      ensures multiset(Events(behaviors[k])) == multiset(Events(old(behaviors)[k])) + multiset{e}
      ensures AllCached(behaviors[k := behaviors[k].(queue := old(behaviors)[k].queue)], decisions, now)
    {
      hide Sorted, Orderly, SumLengths, CachedBut, AllCached;
      QueueKinds(behaviors, k);
      var q := SortByDate(behaviors[k].queue.value + [e]);
      SameMembers(q, behaviors[k].queue.value + [e]);
      BackToBase(behaviors, k, q);
      SetQueue(k, q, activeEventCnt + 1);
    }

    /** The first event of a queue that does not exist yet. */
    method StartQueue(k: Kind, e: Event)
      requires Valid() && behaviors[k].queue.None? && e.kind == k
      modifies `behaviors, `activeEventCnt
      ensures Shape() && CachedBut(behaviors, decisions, now, Dependants(k))
      ensures behaviors == old(behaviors)[k := old(behaviors)[k].(queue := Some([e]))]
      ensures AllCached(behaviors[k := behaviors[k].(queue := Some([]))], decisions, now)
    {
      hide Sorted, Orderly, SumLengths, CachedBut, AllCached;
      FirstEntry(behaviors, decisions, now, k);
      OneSorted(e);
      UpdateSeqTwice(behaviors, k, behaviors[k].(queue := Some([e])), behaviors[k].(queue := Some([])));
      SetQueue(k, [e], activeEventCnt + 1);
    }
  
    /** Decide the timers of everyone who looks at queue `k`. */
    method Refresh(k: Kind, repeats: Kind -> Option<Event>)
      requires Sized() && CachedBut(behaviors, decisions, now, Dependants(k)) && Future(repeats, now)
      modifies `behaviors, `decisions
      ensures Sized() && AllCached(behaviors, decisions, now) && SumLengths(behaviors) == SumLengths(old(behaviors))
      ensures forall j: Kind :: behaviors[j].queue == old(behaviors)[j].queue
      ensures forall j: Kind :: j in Dependants(k) ==>
                Anew(behaviors, decisions, now, j, repeats(j))
      ensures forall j: Kind :: j !in Dependants(k) ==>
                behaviors[j] == old(behaviors)[j] && decisions[j] == old(decisions)[j]
    {
      hide Orderly, SumLengths, CachedBut, EarliestDate, RecordsNext;
      if k == WAKE_OR_POWER_ON {
        SchedulePowerEvent(WAKE, repeats(WAKE), {WAKE, POWER_ON});
        ghost var bs := behaviors;
        SchedulePowerEvent(POWER_ON, repeats(POWER_ON), {WAKE, POWER_ON} - {WAKE});
        assert {WAKE, POWER_ON} - {WAKE} - {POWER_ON} == {};
        SameCandidates(bs, behaviors, WAKE, repeats(WAKE));
        RecordKept(bs, behaviors, WAKE, repeats(WAKE), now);
      } else {
        SchedulePowerEvent(k, repeats(k), {k});
        assert {k} - {k} == {};
      }
    }

    /** No behaviour has the event as its current one any more. */
    method ForgetCurrent(e: Event)
      requires Shape()
      modifies `behaviors
      ensures Shape() && forall j: Kind :: behaviors[j] == Forget(old(behaviors)[j], e)
    {
      hide Orderly, SumLengths;
      ghost var before := behaviors;
      for j := 0 to BEHAVIORS
        invariant |behaviors| == BEHAVIORS
        invariant forall x :: 0 <= x < BEHAVIORS ==> behaviors[x] == if x < j then Forget(before[x], e) else before[x]
      {
        if behaviors[j].current == Some(e) {
          behaviors := behaviors[j := behaviors[j].(current := None)];
        }
      }
      ForgetKeepsQueues(before, behaviors);
    }

    /** removeEvent: taken out exactly when the queue holds an event of that date and application. */
    method RemoveEvent(k: Kind, e: Event) returns (found: bool, ghost victim: Event)
      requires Shape()
      modifies `behaviors, `activeEventCnt
      ensures Shape()
      ensures found <==> exists x :: x in Events(old(behaviors)[k]) && Matches(x, e)
      ensures !found ==> behaviors == old(behaviors)
      ensures found ==>
                behaviors[k].queue.Some? && Matches(victim, e)
                && multiset(Events(old(behaviors)[k])) == multiset(Events(behaviors[k])) + multiset{victim}
      ensures found ==> forall j: Kind :: behaviors[j] ==
                          Forget(old(behaviors)[j], victim).(queue := if j == k then behaviors[k].queue
                              else old(behaviors)[j].queue)
    {
      hide Orderly, SumLengths;
      found, victim := false, e;
      QueuesSorted(behaviors, k);
      if behaviors[k].queue.None? { return; }
      var q := behaviors[k].queue.value;
      var at := Find(q, e);
      if at.None? { return; }
      var cancelee := q[at.value];
      found, victim := true, cancelee;
      QueueKinds(behaviors, k);
      ForgetCurrent(cancelee);
      RemoveAt(q, at.value);
      CountFits(behaviors, k, activeEventCnt);
      SetQueue(k, q[..at.value] + q[at.value + 1..], activeEventCnt - 1);
    }

    /** A request to schedule or to cancel one event.  `k` is the queue its type names, `session` the outcome of
        opening the preferences, `written` that of writing them. */
    method Request(schedule: bool, k: Option<Kind>, e: Event, session: IOReturn, written: bool,
                   repeats: Kind -> Option<Event>) returns (ret: IOReturn)
      requires Valid() && Future(repeats, now) && session in {Success, NotPrivileged, Error}
      requires k.Some? ==> e.kind == k.value
      modifies `behaviors, `activeEventCnt, `decisions
      ensures Valid()
      ensures ret == RequestResult(old(At(this)), schedule, k, e, session, written)
      ensures Requested(old(At(this)), At(this), schedule, k, e, session, ret, repeats)
    {
      hide Orderly, SumLengths, CachedBut, EarliestDate, Upcoming, Anew, AllCached, Purged, Future;
      if activeEventCnt >= MAX_ENTRIES { return NoSpace; }
      if k.None? { return BadArgument; }
      if session != Success { return session; }
      if schedule {
        ret := Schedule(k.value, e, written, repeats);
      } else {
        ret := Cancel(k.value, e, repeats);
      }
    }

    method Schedule(k: Kind, e: Event, written: bool, repeats: Kind -> Option<Event>) returns (ret: IOReturn)
      requires Valid() && Future(repeats, now) && e.kind == k
      modifies `behaviors, `activeEventCnt, `decisions
      ensures Valid() && ret == if written then Success else Error
      ensures forall j: Kind :: j != k ==> behaviors[j].queue == old(behaviors)[j].queue
      ensures var base := Purged(old(behaviors)[k], k, wakePurgeAllowed, now);
              if written then multiset(Events(behaviors[k])) == multiset(base) + multiset{e}
              else exists x ::
                  Matches(x, e) && OffRecord(old(behaviors), behaviors, x)
                  && multiset(Events(behaviors[k])) + multiset{x} == multiset(base) + multiset{e}
      ensures written ==> forall j: Kind :: j in Dependants(k) ==>
                Anew(behaviors, decisions, now, j, repeats(j))
      ensures written ==> forall j: Kind :: j !in Dependants(k) && j != WAKE_OR_POWER_ON ==>
                behaviors[j] == old(behaviors)[j]
    {
      hide Orderly, SumLengths, CachedBut, EarliestDate, Upcoming, Dependants, Anew;
      OwnDependant(k);
      ghost var base := AddEvent(k, e);
      if written {
        Refresh(k, repeats);
        return Success;
      }
      ghost var added := behaviors;
      InQueue(Events(behaviors[k]), base, e);
      var _, victim := RemoveEvent(k, e);
      TakenBack(added, behaviors, decisions, now, k, base, e, victim);
      return Error;
    }

    method Cancel(k: Kind, e: Event, repeats: Kind -> Option<Event>) returns (ret: IOReturn)
      requires Valid() && Future(repeats, now)
      modifies `behaviors, `activeEventCnt, `decisions
      ensures Valid() && ret == if Listed(Events(old(behaviors)[k]), e) then Success else NotFound
      ensures ret.NotFound? ==> behaviors == old(behaviors)
      ensures forall j: Kind :: j != k ==> behaviors[j].queue == old(behaviors)[j].queue
      ensures ret.Success? ==>
                exists x ::
                  Matches(x, e) && multiset(Events(old(behaviors)[k])) == multiset(Events(behaviors[k])) + multiset{x}
      ensures ret.Success? ==> forall j: Kind :: j in Dependants(k) ==>
                Anew(behaviors, decisions, now, j, repeats(j))
      ensures ret.Success? ==> forall j: Kind :: j !in Dependants(k) && j != WAKE_OR_POWER_ON ==>
                behaviors[j] == old(behaviors)[j]
    {
      hide Orderly, SumLengths, CachedBut, EarliestDate, Dependants, Anew, Forget;
      OwnDependant(k);
      ghost var before := behaviors;
      var found, victim := RemoveEvent(k, e);
      if !found { return NotFound; }
      VictimKind(before, behaviors, k, victim);
      ForgetsOwn(before, k, victim);
      Shortened(before, behaviors, decisions, now, k, victim);
      Refresh(k, repeats);
      return Success;
    }

    /** removeAllEvents.  The count is reset only when every queue was written; after a failed write the queues
        up to that one are empty and the count is as before. */
    method CancelAll(session: IOReturn, written: Kind -> bool, repeats: Kind -> Option<Event>) returns (ret: IOReturn)
      requires Valid() && Future(repeats, now) && session in {Success, NotPrivileged, Error}
      modifies `behaviors, `activeEventCnt, `decisions
      ensures ret.NoSpace? || (ret == session && !ret.Success?) ==>
                behaviors == old(behaviors) && activeEventCnt == old(activeEventCnt) && decisions == old(decisions)
      ensures ret.NoSpace? <==> old(activeEventCnt) >= MAX_ENTRIES
      ensures !ret.NoSpace? && !session.Success? ==> ret == session
      ensures !ret.NoSpace? && session.Success? ==>
                (ret.Success? <==> forall k: Kind :: old(behaviors)[k].queue.Some? ==> written(k))
      ensures ret.Success? ==> Valid() && activeEventCnt == 0 && forall k: Kind :: behaviors[k].queue.None?
      ensures ret.Success? ==> forall j: Kind :: j != WAKE_OR_POWER_ON ==>
                Anew(behaviors, decisions, now, j, repeats(j)) || behaviors[j] == old(behaviors)[j]
      ensures !ret.Success? ==> activeEventCnt == old(activeEventCnt) && |behaviors| == BEHAVIORS
      ensures !ret.Success? && session.Success? && !ret.NoSpace? ==>
                exists k: Kind :: !written(k) && Events(behaviors[k]) == []
                  && forall j: Kind :: if j < k then behaviors[j].queue.None? else j > k ==>
                       behaviors[j].queue == old(behaviors)[j].queue
    {
      hide Orderly, SumLengths, CachedBut, EarliestDate, Anew;
      if activeEventCnt >= MAX_ENTRIES { return NoSpace; }
      if session != Success { return session; }
      for k := 0 to BEHAVIORS
        invariant Sized() && AllCached(behaviors, decisions, now) && activeEventCnt == old(activeEventCnt)
        invariant forall j: Kind :: j != WAKE_OR_POWER_ON ==>
            Anew(behaviors, decisions, now, j, repeats(j)) || behaviors[j] == old(behaviors)[j]
        invariant forall j: Kind :: if j < k then behaviors[j].queue.None?
            else behaviors[j].queue == old(behaviors)[j].queue
        invariant forall j: Kind :: j < k && old(behaviors)[j].queue.Some? ==> written(j)
      {
        if behaviors[k].queue.Some? {
          ghost var before := behaviors;
          behaviors := behaviors[k := behaviors[k].(current := None, queue := if written(k) then None else Some([]))];
          if !written(k) {
            assert Events(behaviors[k]) == [];
            return Error;
          }
          Emptied(before, behaviors, decisions, now, k);
          ghost var emptied, ds := behaviors, decisions;
          Refresh(k, repeats);
          forall j: Kind | j != WAKE_OR_POWER_ON
            ensures Anew(behaviors, decisions, now, j, repeats(j)) || behaviors[j] == old(behaviors)[j]
          {
            if j !in Dependants(k) && Anew(before, ds, now, j, repeats(j)) {
              AnewElsewhere(before, ds, behaviors, decisions, now, k, j, repeats(j));
            }
          }
        }
      }
      activeEventCnt := 0;
      EmptySum(behaviors);
      return Success;
    }

    /** handleTimerExpiration.  The event on record is delivered, then the next one is looked for. */
    method TimerExpires(k: Kind, repeats: Kind -> Option<Event>) returns (delivered: Option<Event>)
      requires Valid() && k != WAKE_OR_POWER_ON && Future(repeats, now)
      requires behaviors[k].timer.Some? && behaviors[k].timer.value <= now
      modifies `behaviors, `decisions
      ensures Valid() && Anew(behaviors, decisions, now, k, repeats(k))
      ensures delivered == old(behaviors)[k].current
      ensures Delivers(old(behaviors)[k]) ==>
                delivered.Some? && old(behaviors)[k].timer == Some(delivered.value.date)
      ensures forall j: Kind :: behaviors[j] == if j == k
                then old(behaviors)[j].(timer := behaviors[j].timer, current := behaviors[j].current)
                else old(behaviors)[j]
    {
      hide Orderly, SumLengths, CachedBut, EarliestDate;
      delivered := behaviors[k].current;
      ghost var before := behaviors;
      behaviors := behaviors[k := behaviors[k].(timer := None, current := None)];
      TimerDropped(before, behaviors, decisions, now, k);
      SchedulePowerEvent(k, repeats(k), {k});
      assert {k} - {k} == {};
    }

    /** The system woke up: purge every queue and decide every timer anew. */
    method DidWake(repeats: Kind -> Option<Event>)
      requires Valid() && Future(repeats, now)
      modifies `behaviors, `activeEventCnt, `decisions
      ensures Valid()
      ensures forall k: Kind :: Events(behaviors[k]) == Purged(old(behaviors)[k], k, wakePurgeAllowed, now)
      ensures forall k: Kind :: k != WAKE_OR_POWER_ON ==> Anew(behaviors, decisions, now, k, repeats(k))
    {
      hide Orderly, SumLengths, CachedBut, EarliestDate, Purged, AllCached, RecordsNext, Recorded;
      RecordedNothing(behaviors, decisions, repeats, now);
      for k := 0 to BEHAVIORS
        invariant Valid() && Recorded(behaviors, decisions, repeats, k, now)
        invariant forall j: Kind :: if j >= k then behaviors[j] == old(behaviors)[j]
                                    else Events(behaviors[j]) == Purged(old(behaviors)[j], j, wakePurgeAllowed, now)
      {
        ghost var before := behaviors;
        PurgePastEvents(k);
        RecordedAfterPurge(before, behaviors, decisions, repeats, k, wakePurgeAllowed, now);
        ghost var bs, ds := behaviors, decisions;
        if k != WAKE_OR_POWER_ON {
          ValidIsCached(behaviors, decisions, now);
          SchedulePowerEvent(k, repeats(k), {});
          assert {} - {k} == {};
          ValidIsCached(behaviors, decisions, now);
        }
        RecordedStep(bs, ds, behaviors, decisions, repeats, k, now);
      }
      AllAnew(behaviors, decisions, now, repeats);
    }

    /** The repeating events were set or cancelled: the timers of the types they had before or have now are decided
        anew, and no other. */
    method RepeatsChanged(types: seq<Kind>, repeats: Kind -> Option<Event>)
      requires Valid() && Future(repeats, now)
      modifies `behaviors, `decisions
      ensures Valid() && forall j: Kind :: behaviors[j].queue == old(behaviors)[j].queue
      ensures forall j: Kind :: j in Affected(types) ==> Anew(behaviors, decisions, now, j, repeats(j))
      ensures forall j: Kind :: j !in Affected(types) ==>
                behaviors[j] == old(behaviors)[j] && decisions[j] == old(decisions)[j]
    {
      hide Orderly, SumLengths, CachedBut, EarliestDate, Anew, AllCached;
      NoneAffected(types);
      for n := 0 to |types|
        invariant Valid() && forall j: Kind :: behaviors[j].queue == old(behaviors)[j].queue
        invariant forall j: Kind :: j in Affected(types[..n]) ==> Anew(behaviors, decisions, now, j, repeats(j))
        invariant forall j: Kind :: j !in Affected(types[..n]) ==>
            behaviors[j] == old(behaviors)[j] && decisions[j] == old(decisions)[j]
      {
        ghost var bs, ds := behaviors, decisions;
        FewerStale(behaviors, decisions, now, types[n]);
        Refresh(types[n], repeats);
        OneMoreAffected(types, n);
        forall j: Kind | j in Affected(types[..n]) && j !in Dependants(types[n])
          ensures Anew(behaviors, decisions, now, j, repeats(j))
        {
          AnewKept(bs, ds, behaviors, decisions, now, j, repeats(j));
        }
      }
      assert types[..|types|] == types;
    }

    /** The clock was set, forwards or backwards: every timer is decided anew. */
    method CalendarChange(later: real, repeats: Kind -> Option<Event>)
      requires Valid() && Future(repeats, later)
      modifies `now, `behaviors, `decisions
      ensures Valid() && now == later && forall k: Kind :: behaviors[k].queue == old(behaviors)[k].queue
      ensures forall k: Kind :: k != WAKE_OR_POWER_ON ==> Anew(behaviors, decisions, now, k, repeats(k))
    {
      hide Orderly, SumLengths, EarliestDate, RecordsNext, Recorded, CachedBut, KindsFrom;
      now := later;
      RecordedNothing(behaviors, decisions, repeats, now);
      AllStale(behaviors, decisions, now);
      for k := 0 to BEHAVIORS
        invariant Shape() && now == later && CachedBut(behaviors, decisions, now, KindsFrom(k))
        invariant forall j: Kind :: behaviors[j].queue == old(behaviors)[j].queue
        invariant Recorded(behaviors, decisions, repeats, k, now)
      {
        ghost var bs, ds := behaviors, decisions;
        if k != WAKE_OR_POWER_ON {
          SchedulePowerEvent(k, repeats(k), KindsFrom(k));
        }
        FewerKinds(behaviors, decisions, now, k);
        RecordedStep(bs, ds, behaviors, decisions, repeats, k, now);
      }
      NoneStale(behaviors, decisions, now);
      AllAnew(behaviors, decisions, now, repeats);
    }

    /** Time passes. */
    method Tick(later: real)
      requires Valid() && now <= later
      modifies `now
      ensures Valid() && now == later
    {
      now := later;
    }

    /** Wake events are purged once more, then kept until purging is allowed again. */
    method PreventPurging()
      requires Valid()
      modifies `behaviors, `activeEventCnt, `wakePurgeAllowed
      ensures Valid() && !wakePurgeAllowed
      ensures forall k: Kind :: Events(behaviors[k]) ==
                if k == WAKE then Purged(old(behaviors)[k], k, old(wakePurgeAllowed), now)
                    else Events(old(behaviors)[k])
      ensures forall k: Kind :: behaviors[k] == old(behaviors)[k].(queue := behaviors[k].queue)
    {
      PurgePastEvents(WAKE);
      wakePurgeAllowed := false;
    }

    method AllowPurging()
      requires Valid()
      modifies `wakePurgeAllowed
      ensures Valid() && wakePurgeAllowed
    {
      wakePurgeAllowed := true;
    }
  }

  /** The behaviours whose timers look at a repeating event of one of the types. */
  ghost function Affected(types: seq<Kind>): set<Kind> {
    set k: Kind | LooksAtOne(k, types)
  }

  ghost predicate LooksAtOne(k: Kind, types: seq<Kind>) {
    exists n :: 0 <= n < |types| && k in Dependants(types[n])
  }

  lemma NoneAffected(types: seq<Kind>)
    ensures Affected(types[..0]) == {}
  {
  }

  lemma OneMoreAffected(types: seq<Kind>, n: nat)
    requires n < |types|
    ensures Affected(types[..n + 1]) == Affected(types[..n]) + Dependants(types[n])
  {
    var more, fewer := types[..n + 1], types[..n];
    assert more[n] == types[n] && forall m :: 0 <= m < n ==> more[m] == fewer[m];
    forall k: Kind ensures k in Affected(more) <==> k in Affected(fewer) || k in Dependants(types[n]) {
      if k in Affected(fewer) {
        var m :| 0 <= m < |fewer| && k in Dependants(fewer[m]);
        assert k in Dependants(more[m]);
      }
    }
  }

  lemma FewerStale(bs: seq<Behavior>, ds: seq<Decision>, now: real, k: Kind)
    requires |bs| == |ds| == BEHAVIORS && AllCached(bs, ds, now)
    ensures CachedBut(bs, ds, now, Dependants(k))
  {
    hide Cached;
  }

  lemma AnewKept(bs: seq<Behavior>, ds: seq<Decision>, bs': seq<Behavior>, ds': seq<Decision>, now: real, k: Kind,
                 repeat: Option<Event>)
    requires |bs| == |ds| == |bs'| == |ds'| == BEHAVIORS && Anew(bs, ds, now, k, repeat)
    requires bs'[k] == bs[k] && ds'[k] == ds[k] && forall j: Kind :: bs'[j].queue == bs[j].queue
    ensures Anew(bs', ds', now, k, repeat)
  {
    SameCandidates(bs, bs', k, repeat);
  }

  lemma CandidateKinds(bs: seq<Behavior>, k: Kind, repeat: Option<Event>, e: Event)
    requires |bs| == BEHAVIORS && Orderly(bs) && e in CandidatesOf(bs, k, repeat)
    requires repeat.Some? ==> repeat.value.kind in Sources(k)
    ensures e.kind in Sources(k)
  {
  }

  lemma QueueKinds(bs: seq<Behavior>, k: Kind)
    requires |bs| == BEHAVIORS && Orderly(bs)
    ensures forall e :: e in Events(bs[k]) ==> e.kind == k
    ensures bs[k].current.Some? ==> bs[k].current.value.kind in Sources(k)
  {
  }

  /** A purge takes nothing away that is not past. */
  lemma RecordAfterPurge(bs: seq<Behavior>, bs': seq<Behavior>, p: Kind, purging: bool, k: Kind, repeat: Option<Event>,
                         now: real)
    requires |bs| == |bs'| == BEHAVIORS && RecordsNext(bs, k, repeat, now) && k != p
    requires bs' == bs[p := bs[p].(queue := bs'[p].queue)] && Events(bs'[p]) == Purged(bs[p], p, purging, now)
    ensures RecordsNext(bs', k, repeat, now)
  {
    var c, c' := CandidatesOf(bs, k, repeat), CandidatesOf(bs', k, repeat);
    assert forall e: Event :: e.date >= now ==> (e in Events(bs[p]) <==> e in Events(bs'[p]));
    assert forall e: Event :: e.date >= now ==> (e in c <==> e in c');
  }

  /** Everything decided so far is on record. */
  ghost predicate Recorded(bs: seq<Behavior>, ds: seq<Decision>, repeats: Kind -> Option<Event>, n: nat, now: real)
    requires |bs| == |ds| == BEHAVIORS
  {
    forall j: Kind :: j < n && j != WAKE_OR_POWER_ON ==>
      ds[j].asOf == now && ds[j].repeat == repeats(j) && RecordsNext(bs, j, repeats(j), now)
  }

  lemma RecordedAfterPurge(bs: seq<Behavior>, bs': seq<Behavior>, ds: seq<Decision>, repeats: Kind -> Option<Event>,
                           p: Kind, purging: bool, now: real)
    requires |bs| == |bs'| == |ds| == BEHAVIORS && Recorded(bs, ds, repeats, p, now)
    requires bs' == bs[p := bs[p].(queue := bs'[p].queue)] && Events(bs'[p]) == Purged(bs[p], p, purging, now)
    ensures Recorded(bs', ds, repeats, p, now)
  {
    hide RecordsNext;
    forall j: Kind | j < p && j != WAKE_OR_POWER_ON ensures RecordsNext(bs', j, repeats(j), now) {
      RecordAfterPurge(bs, bs', p, purging, j, repeats(j), now);
    }
  }

  /** One more decision leaves the earlier ones alone. */
  lemma RecordedStep(bs: seq<Behavior>, ds: seq<Decision>, bs': seq<Behavior>, ds': seq<Decision>,
                     repeats: Kind -> Option<Event>, k: Kind, now: real)
    requires |bs| == |ds| == |bs'| == |ds'| == BEHAVIORS && Recorded(bs, ds, repeats, k, now)
    requires bs' == bs[k := bs[k].(timer := bs'[k].timer, current := bs'[k].current)] && ds' == ds[k := ds'[k]]
    requires k != WAKE_OR_POWER_ON ==>
               ds'[k].asOf == now && ds'[k].repeat == repeats(k) && RecordsNext(bs', k, repeats(k), now)
    ensures Recorded(bs', ds', repeats, k + 1, now)
  {
    hide RecordsNext;
    forall j: Kind | j < k && j != WAKE_OR_POWER_ON ensures RecordsNext(bs', j, repeats(j), now) {
      SameCandidates(bs, bs', j, repeats(j));
      RecordKept(bs, bs', j, repeats(j), now);
    }
  }

  lemma RecordKept(bs: seq<Behavior>, bs': seq<Behavior>, k: Kind, repeat: Option<Event>, now: real)
    requires |bs| == |bs'| == BEHAVIORS && RecordsNext(bs, k, repeat, now) && bs'[k].current == bs[k].current
    requires CandidatesOf(bs', k, repeat) == CandidatesOf(bs, k, repeat)
    ensures RecordsNext(bs', k, repeat, now)
  {
  }

  /** A queue that a behaviour does not look at changed. */
  lemma AnewElsewhere(bs: seq<Behavior>, ds: seq<Decision>, bs': seq<Behavior>, ds': seq<Decision>, now: real, p: Kind,
                      k: Kind, repeat: Option<Event>)
    requires |bs| == |ds| == |bs'| == |ds'| == BEHAVIORS && Anew(bs, ds, now, k, repeat) && k !in Dependants(p)
    requires k != WAKE_OR_POWER_ON && bs'[k] == bs[k] && ds'[k] == ds[k]
    requires forall j: Kind :: j != p ==> bs'[j].queue == bs[j].queue
    ensures Anew(bs', ds', now, k, repeat)
  {
    assert CandidatesOf(bs', k, repeat) == CandidatesOf(bs, k, repeat);
  }

  lemma AreSorted(bs: seq<Behavior>, k: Kind)
    requires |bs| == BEHAVIORS && Orderly(bs)
    ensures Sorted(Events(bs[k]))
  {
  }

  lemma AllAnew(bs: seq<Behavior>, ds: seq<Decision>, now: real, repeats: Kind -> Option<Event>)
    requires |bs| == |ds| == BEHAVIORS && AllCached(bs, ds, now)
    requires Recorded(bs, ds, repeats, BEHAVIORS, now)
    ensures forall k: Kind :: k != WAKE_OR_POWER_ON ==> Anew(bs, ds, now, k, repeats(k))
  {
    forall k: Kind | k != WAKE_OR_POWER_ON ensures Anew(bs, ds, now, k, repeats(k)) {
      CachedIsAnew(bs, ds, now, k);
    }
  }

  ghost function KindsFrom(k: nat): (r: set<Kind>)
    ensures forall j: Kind :: j in r <==> k <= j
    decreases BEHAVIORS - k
  {
    if k >= BEHAVIORS then {} else {k} + KindsFrom(k + 1)
  }

  lemma RecordedNothing(bs: seq<Behavior>, ds: seq<Decision>, repeats: Kind -> Option<Event>, now: real)
    requires |bs| == |ds| == BEHAVIORS
    ensures Recorded(bs, ds, repeats, 0, now)
  {
  }

  lemma AllStale(bs: seq<Behavior>, ds: seq<Decision>, now: real)
    requires |bs| == |ds| == BEHAVIORS
    ensures CachedBut(bs, ds, now, KindsFrom(0))
  {
  }

  lemma NoneStale(bs: seq<Behavior>, ds: seq<Decision>, now: real)
    requires |bs| == |ds| == BEHAVIORS && CachedBut(bs, ds, now, KindsFrom(BEHAVIORS))
    ensures AllCached(bs, ds, now)
  {
    hide Cached;
  }

  lemma FewerKinds(bs: seq<Behavior>, ds: seq<Decision>, now: real, k: Kind)
    requires |bs| == |ds| == BEHAVIORS
    requires CachedBut(bs, ds, now, KindsFrom(k) - {k})
               || (k == WAKE_OR_POWER_ON && CachedBut(bs, ds, now, KindsFrom(k)))
    ensures CachedBut(bs, ds, now, KindsFrom(k + 1))
  {
    hide Cached;
  }

  /** Repeating events lie ahead, and are of a type that their behaviour looks at. */
  ghost predicate Future(repeats: Kind -> Option<Event>, now: real) {
    forall k: Kind :: repeats(k).Some? ==> repeats(k).value.date >= now && repeats(k).value.kind in Sources(k)
  }

  /** An event that is not current any more. */
  function Forget(b: Behavior, e: Event): Behavior {
    if b.current == Some(e) then b.(current := None) else b
  }

  lemma ForgetKeepsQueues(bs: seq<Behavior>, bs': seq<Behavior>)
    requires |bs| == |bs'| == BEHAVIORS && forall x :: 0 <= x < BEHAVIORS ==>
               bs'[x].queue == bs[x].queue && (bs'[x].current.None? || bs'[x].current == bs[x].current)
    ensures SumLengths(bs') == SumLengths(bs) && (Orderly(bs) ==> Orderly(bs'))
  {
    SumIgnoresCurrent(bs, bs');
  }

  lemma OwnDependant(k: Kind)
    ensures k in Dependants(k) || k == WAKE_OR_POWER_ON
  {
  }

  lemma VictimKind(before: seq<Behavior>, bs: seq<Behavior>, k: Kind, victim: Event)
    requires |before| == |bs| == BEHAVIORS && Orderly(before)
    requires multiset(Events(before[k])) == multiset(Events(bs[k])) + multiset{victim}
    ensures victim.kind == k
  {
    assert victim in multiset(Events(before[k]));
  }

  /** Whoever does not look at the queue has none of its events on record. */
  lemma ForgetsOwn(bs: seq<Behavior>, k: Kind, victim: Event)
    requires |bs| == BEHAVIORS && Orderly(bs) && victim.kind == k
    ensures forall j: Kind :: j !in Dependants(k) && j != WAKE_OR_POWER_ON ==> Forget(bs[j], victim) == bs[j]
  {
  }

  lemma InQueue(q: seq<Event>, base: seq<Event>, e: Event)
    requires multiset(q) == multiset(base) + multiset{e}
    ensures e in q && Listed(q, e)
  {
    assert e in multiset(q);
  }

  lemma Multiplicity(base: seq<Event>, q: seq<Event>, e: Event, victim: Event, y: Event)
    requires multiset(base) + multiset{e} == multiset(q) + multiset{victim}
    ensures multiset(base)[y] + (if y == e then 1 else 0) == multiset(q)[y] + (if y == victim then 1 else 0)
  {
    assert (multiset(base) + multiset{e})[y] == (multiset(q) + multiset{victim})[y];
  }

  /** An event added and one like it taken out again leave the same dates. */
  lemma SameDates(base: seq<Event>, q: seq<Event>, e: Event, victim: Event, now: real)
    requires multiset(base) + multiset{e} == multiset(q) + multiset{victim} && Matches(victim, e)
    ensures SameFuture(base, q, now)
  {
    forall d ensures HasDate(base, d) <==> HasDate(q, d) {
      if HasDate(base, d) {
        var x :| x in base && x.date == d;
        var y := if x == victim then e else x;
        assert x in multiset(base);
        Multiplicity(base, q, e, victim, y);
        assert y in multiset(q);
        assert y in q && y.date == d;
      }
      if HasDate(q, d) {
        var x :| x in q && x.date == d;
        var y := if x == e then victim else x;
        assert x in multiset(q);
        Multiplicity(base, q, e, victim, y);
        assert y in multiset(base);
        assert y in base && y.date == d;
      }
    }
  }

  /** An addition taken back leaves every timer right. */
  lemma TakenBack(added: seq<Behavior>, bs: seq<Behavior>, ds: seq<Decision>, now: real, k: Kind, base: seq<Event>,
                  e: Event, victim: Event)
    requires |added| == |bs| == |ds| == BEHAVIORS
    requires AllCached(added[k := added[k].(queue := Some(base))], ds, now)
    requires multiset(Events(added[k])) == multiset(base) + multiset{e} && Matches(victim, e)
    requires multiset(Events(added[k])) == multiset(Events(bs[k])) + multiset{victim} && bs[k].queue.Some?
    requires forall j: Kind ::
               bs[j] == Forget(added[j], victim).(queue := if j == k then bs[k].queue else added[j].queue)
    ensures AllCached(bs, ds, now)
  {
    var mid := added[k := added[k].(queue := Some(base))];
    SameDates(base, Events(bs[k]), e, victim, now);
    CachedFrame(mid, ds, now, k, mid[k].(queue := bs[k].queue));
    CachedIgnoresCurrent(mid[k := mid[k].(queue := bs[k].queue)], bs, ds, now, {});
  }

  /** A queue lost an event: only its dependants' timers may be wrong. */
  lemma Shortened(before: seq<Behavior>, bs: seq<Behavior>, ds: seq<Decision>, now: real, k: Kind, victim: Event)
    requires |before| == |bs| == |ds| == BEHAVIORS && AllCached(before, ds, now)
    requires forall j: Kind ::
               bs[j] == Forget(before[j], victim).(queue := if j == k then bs[k].queue else before[j].queue)
    ensures CachedBut(bs, ds, now, Dependants(k))
  {
    var mid := before[k := before[k].(queue := bs[k].queue)];
    CachedElsewhere(before, ds, now, k, before[k].(queue := bs[k].queue), {});
    assert {} + Dependants(k) == Dependants(k);
    CachedIgnoresCurrent(mid, bs, ds, now, Dependants(k));
  }

  lemma Emptied(before: seq<Behavior>, bs: seq<Behavior>, ds: seq<Decision>, now: real, k: Kind)
    requires |before| == |ds| == BEHAVIORS && AllCached(before, ds, now) && Orderly(before)
    requires bs == before[k := before[k].(current := None, queue := None)]
    ensures CachedBut(bs, ds, now, Dependants(k)) && Orderly(bs)
  {
    CachedElsewhere(before, ds, now, k, bs[k], {});
    assert {} + Dependants(k) == Dependants(k);
  }

  lemma TimerDropped(before: seq<Behavior>, bs: seq<Behavior>, ds: seq<Decision>, now: real, k: Kind)
    requires |before| == |ds| == BEHAVIORS && AllCached(before, ds, now) && Orderly(before)
    requires bs == before[k := before[k].(timer := None, current := None)]
    ensures CachedBut(bs, ds, now, {k}) && Orderly(bs) && SumLengths(bs) == SumLengths(before)
  {
    SumUpdate(before, k, bs[k]);
    forall j: Kind | j != WAKE_OR_POWER_ON && j !in {k} ensures Cached(bs, j, ds[j], now) {
      assert CandidatesOf(bs, j, ds[j].repeat) == CandidatesOf(before, j, ds[j].repeat);
      assert Cached(before, j, ds[j], now);
    }
  }

  lemma SameMembers(a: seq<Event>, b: seq<Event>)
    requires multiset(a) == multiset(b)
    ensures |a| == |b| && forall e :: e in a <==> e in b
  {
    assert |multiset(a)| == |multiset(b)|;
    forall e ensures e in a <==> e in b {
      assert e in a <==> e in multiset(a);
      assert e in b <==> e in multiset(b);
    }
  }

  lemma NothingPurged(b: Behavior, k: Kind, purging: bool, now: real)
    requires b.queue.None?
    ensures Purged(b, k, purging, now) == []
  {
  }

  lemma OneSorted(e: Event)
    ensures Sorted([e])
  {
  }

  lemma BackToBase(bs: seq<Behavior>, k: Kind, q: seq<Event>)
    requires |bs| == BEHAVIORS && bs[k].queue.Some?
    ensures bs[k := bs[k].(queue := Some(q))][k := bs[k].(queue := Some(q)).(queue := bs[k].queue)] == bs
  {
  }

  /** An empty queue is as good as none. */
  lemma FirstEntry(bs: seq<Behavior>, ds: seq<Decision>, now: real, k: Kind)
    requires |bs| == |ds| == BEHAVIORS && AllCached(bs, ds, now) && bs[k].queue.None?
    ensures AllCached(bs[k := bs[k].(queue := Some([]))], ds, now)
  {
    CachedFrame(bs, ds, now, k, bs[k].(queue := Some([])));
  }

  /** A timer decided anew is right, and no other depends on it. */
  lemma Decided(bs: seq<Behavior>, ds: seq<Decision>, now: real, k: Kind, b: Behavior, repeat: Option<Event>,
                stale: set<Kind>)
    requires |bs| == |ds| == BEHAVIORS && CachedBut(bs, ds, now, stale) && b.queue == bs[k].queue
    requires b.timer == Armed(EarliestDate(CandidatesOf(bs, k, repeat), now), now)
    requires Orderly(bs) && (b.current.Some? ==> b.current.value.kind in Sources(k))
    ensures var bs' := bs[k := b]; var ds' := ds[k := Decision(now, CandidatesOf(bs', k, repeat), repeat)];
            && CandidatesOf(bs', k, repeat) == CandidatesOf(bs, k, repeat)
            && CachedBut(bs', ds', now, stale - {k}) && Orderly(bs') && SumLengths(bs') == SumLengths(bs)
  {
    hide SameFuture, EarliestDate, Armed, SumLengths;
    var bs' := bs[k := b];
    SumUpdate(bs, k, b);
    SameCandidates(bs, bs', k, repeat);
    SameFutureSelf(CandidatesOf(bs', k, repeat), now);
    forall j: Kind | j != WAKE_OR_POWER_ON && j !in stale && j != k ensures Cached(bs', j, ds[j], now) {
      SameCandidates(bs, bs', j, ds[j].repeat);
      assert Cached(bs, j, ds[j], now);
    }
  }

  lemma SameCandidates(bs: seq<Behavior>, bs': seq<Behavior>, k: Kind, repeat: Option<Event>)
    requires |bs| == |bs'| == BEHAVIORS && forall j: Kind :: bs'[j].queue == bs[j].queue
    ensures CandidatesOf(bs', k, repeat) == CandidatesOf(bs, k, repeat)
  {
  }

  lemma SameFutureSelf(s: seq<Event>, now: real)
    ensures SameFuture(s, s, now)
  {
  }

  lemma {:induction false} CountFits(bs: seq<Behavior>, k: Kind, count: nat)
    requires k < |bs| && count == SumLengths(bs)
    ensures |Events(bs[k])| <= count
    decreases |bs|
  {
    if k < |bs| - 1 {
      CountFits(bs[..|bs| - 1], k, SumLengths(bs[..|bs| - 1]));
    }
  }

  datatype Step =
    | Asked(schedule: bool, k: Option<Kind>, e: Event, session: IOReturn, written: bool)
    | CancelledAll(session: IOReturn)
    | Expired(timer: Kind)
    | Woke
    | ClockSet(later: real)
    | TimePassed(later: real)
    | RepeatsSet(types: seq<Kind>)
    | PurgingPrevented
    | PurgingAllowed

  /** What a step makes of the state; `repeats` gives the next repeating event of each behaviour after a time, as
      the repeating events are set during this step. */
  ghost predicate Stepped(a: Snapshot, x: Step, b: Snapshot, repeats: (real, Kind) -> Option<Event>) {
    Sized(a) && Sized(b) &&
    match x
    case Asked(schedule, k, e, session, written) =>
      Requested(a, b, schedule, k, e, session, RequestResult(a, schedule, k, e, session, written), (j: Kind) =>
          repeats(a.now, j))
    case CancelledAll(session) =>
      && b.now == a.now && b.purging == a.purging
      && if a.count >= MAX_ENTRIES || session != Success then b.behaviors == a.behaviors && b.count == a.count
         else
           && b.count == 0 && (forall k: Kind :: b.behaviors[k].queue.None?)
           && forall k: Kind :: k != WAKE_OR_POWER_ON ==>
                Anew(b.behaviors, b.decisions, b.now, k, repeats(a.now, k)) || b.behaviors[k] == a.behaviors[k]
    case Expired(k) =>
      if k != WAKE_OR_POWER_ON && a.behaviors[k].timer.Some? && a.behaviors[k].timer.value <= a.now then
        && b.now == a.now && b.purging == a.purging && Anew(b.behaviors, b.decisions, b.now, k, repeats(a.now, k))
        && forall j: Kind ::
             b.behaviors[j].queue == a.behaviors[j].queue && (j != k ==> b.behaviors[j] == a.behaviors[j])
      else b == a
    case Woke =>
      && b.now == a.now && b.purging == a.purging
      && (forall k: Kind :: Events(b.behaviors[k]) == Purged(a.behaviors[k], k, a.purging, a.now))
      && forall k: Kind :: k != WAKE_OR_POWER_ON ==> Anew(b.behaviors, b.decisions, b.now, k, repeats(a.now, k))
    case ClockSet(later) =>
      && b.now == later && b.purging == a.purging
      && (forall k: Kind :: b.behaviors[k].queue == a.behaviors[k].queue)
      && forall k: Kind :: k != WAKE_OR_POWER_ON ==> Anew(b.behaviors, b.decisions, b.now, k, repeats(later, k))
    case RepeatsSet(types) =>
      && b.now == a.now && b.purging == a.purging && b.count == a.count
      && (forall k: Kind :: b.behaviors[k].queue == a.behaviors[k].queue)
      && forall k: Kind ::
           if k in Affected(types) then Anew(b.behaviors, b.decisions, b.now, k, repeats(a.now, k))
           else b.behaviors[k] == a.behaviors[k] && b.decisions[k] == a.decisions[k]
    case TimePassed(later) => b == a.(now := if a.now <= later then later else a.now)
    case PurgingPrevented =>
      && b.now == a.now && !b.purging && b.decisions == a.decisions
      && (forall k: Kind :: b.behaviors[k] == a.behaviors[k].(queue := b.behaviors[k].queue))
      && forall k: Kind :: Events(b.behaviors[k]) == if k == WAKE then Purged(a.behaviors[k], k, a.purging, a.now)
           else Events(a.behaviors[k])
    case PurgingAllowed => b == a.(purging := true)
  }

  /** A timer armed for a date ahead is armed for the least date of all own, shared and repeating events that are
      not past. */
  ghost predicate TimersRight(a: Snapshot)
    requires Sized(a)
  {
    forall k: Kind :: k != WAKE_OR_POWER_ON && a.behaviors[k].timer.Some? && a.behaviors[k].timer.value >= a.now ==>
      var cands := CandidatesOf(a.behaviors, k, a.decisions[k].repeat); var date := a.behaviors[k].timer.value;
      HasDate(cands, date) && forall e :: e in cands && e.date >= a.now ==> date <= e.date
  }

  lemma GoodIsRight(a: Snapshot)
    requires Good(a)
    ensures TimersRight(a)
  {
    forall k: Kind | k != WAKE_OR_POWER_ON && a.behaviors[k].timer.Some? && a.behaviors[k].timer.value >= a.now
      ensures var cands := CandidatesOf(a.behaviors, k, a.decisions[k].repeat); var date := a.behaviors[k].timer.value;
              HasDate(cands, date) && forall e :: e in cands && e.date >= a.now ==> date <= e.date
    {
      CachedOne(a.behaviors, a.decisions, a.now, k);
      ArmedForNext(a.behaviors, k, a.decisions[k], a.now);
    }
  }

  ghost predicate FutureAlways(repeats: (real, Kind) -> Option<Event>) {
    forall t, k: Kind :: repeats(t, k).Some? ==> repeats(t, k).value.date >= t && repeats(t, k).value.kind in Sources(k)
  }

  predicate Proper(x: Step) {
    && (x.Asked? || x.CancelledAll? ==> x.session in {Success, NotPrivileged, Error})
    && (x.Asked? && x.k.Some? ==> x.e.kind == x.k.value)
  }

  // ---- what timers deliver -------------------------------------------------------------

  /** Every armed timer will deliver an event of the date it is armed for. */
  predicate AllDeliver(a: Snapshot)
    requires |a.behaviors| == BEHAVIORS
  {
    forall k: Kind :: k != WAKE_OR_POWER_ON ==> Delivers(a.behaviors[k])
  }

  /** The timer of the step is due. */
  predicate IsDue(a: Snapshot, x: Step)
    requires |a.behaviors| == BEHAVIORS
  {
    && x.Expired? && x.timer != WAKE_OR_POWER_ON && a.behaviors[x.timer].timer.Some?
    && a.behaviors[x.timer].timer.value <= a.now
  }

  /** The event a step delivers. */
  function Delivered(a: Snapshot, x: Step): Option<Event>
    requires |a.behaviors| == BEHAVIORS
  {
    if IsDue(a, x) then a.behaviors[x.timer].current else None
  }

  /** An event is added, its queue cannot be written, and so it is taken back again. */
  predicate FailsToWrite(a: Snapshot, x: Step) {
    x.Asked? && x.schedule && !x.written && x.session.Success? && x.k.Some? && a.count < MAX_ENTRIES
  }

  /** Some armed timer has an event of that date and application on record. */
  predicate OnRecord(a: Snapshot, e: Event)
    requires |a.behaviors| == BEHAVIORS
  {
    exists k: Kind :: k != WAKE_OR_POWER_ON && a.behaviors[k].timer.Some? && a.behaviors[k].current.Some?
      && Matches(a.behaviors[k].current.value, e)
  }

  /** Every step keeps it so, except that an addition taken back may take the event on record with it. */
  lemma DeliverStep(a: Snapshot, x: Step, b: Snapshot, repeats: (real, Kind) -> Option<Event>)
    requires Sized(a) && AllDeliver(a) && Stepped(a, x, b, repeats) && !(FailsToWrite(a, x) && OnRecord(a, x.e))
    ensures Sized(b) && AllDeliver(b)
  {
    hide Anew, Requested, Purged;
    forall k: Kind | k != WAKE_OR_POWER_ON ensures Delivers(b.behaviors[k]) {
      if x.Asked? {
        RequestDelivers(a, x, b, repeats, k);
      } else {
        StepDelivers(a, x, b, repeats, k);
      }
    }
  }

  lemma StepDelivers(a: Snapshot, x: Step, b: Snapshot, repeats: (real, Kind) -> Option<Event>, k: Kind)
    requires Sized(a) && Delivers(a.behaviors[k]) && Stepped(a, x, b, repeats) && !x.Asked? && k != WAKE_OR_POWER_ON
    ensures Delivers(b.behaviors[k])
  {
    hide Anew, Requested, Purged, Affected, Delivers;
    var t := if x.ClockSet? then x.later else a.now;
    if Anew(b.behaviors, b.decisions, b.now, k, repeats(t, k)) {
      AnewDelivers(b.behaviors, b.decisions, b.now, k, repeats(t, k));
    } else {
      assert b.behaviors[k].timer == a.behaviors[k].timer && b.behaviors[k].current == a.behaviors[k].current;
      SameDelivery(a.behaviors[k], b.behaviors[k]);
    }
  }

  lemma SameDelivery(b: Behavior, b': Behavior)
    requires Delivers(b) && b'.timer == b.timer && b'.current == b.current
    ensures Delivers(b')
  {
  }

  lemma RequestDelivers(a: Snapshot, x: Step, b: Snapshot, repeats: (real, Kind) -> Option<Event>, k: Kind)
    requires Sized(a) && AllDeliver(a) && Stepped(a, x, b, repeats) && x.Asked? && k != WAKE_OR_POWER_ON
    requires !(FailsToWrite(a, x) && OnRecord(a, x.e))
    ensures Delivers(b.behaviors[k])
  {
    hide Anew, Purged, Dependants;
    if FailsToWrite(a, x) {
      var y :| Matches(y, x.e) && OffRecord(a.behaviors, b.behaviors, y);
      assert a.behaviors[k].timer.Some? && a.behaviors[k].current.Some? ==> a.behaviors[k].current != Some(y);
    } else if RequestResult(a, x.schedule, x.k, x.e, x.session, x.written).Success? && k in Dependants(x.k.value) {
      AnewDelivers(b.behaviors, b.decisions, b.now, k, repeats(a.now, k));
    }
  }

  /** Exactly then, in fact, when the event taken back is the one some armed timer has on record. */
  lemma FailedWrite(a: Snapshot, x: Step, b: Snapshot, repeats: (real, Kind) -> Option<Event>)
    requires Sized(a) && AllDeliver(a) && Stepped(a, x, b, repeats) && FailsToWrite(a, x)
    ensures Sized(b)
    ensures exists y :: Matches(y, x.e) && OffRecord(a.behaviors, b.behaviors, y)
              && (AllDeliver(b) <==> forall k: Kind :: k != WAKE_OR_POWER_ON && a.behaviors[k].timer.Some? ==>
                    a.behaviors[k].current != Some(y))
  {
    hide Anew, Purged;
    var y :| Matches(y, x.e) && OffRecord(a.behaviors, b.behaviors, y);
    forall k: Kind | k != WAKE_OR_POWER_ON
      ensures Delivers(b.behaviors[k]) <==> a.behaviors[k].timer.Some? ==> a.behaviors[k].current != Some(y)
    {
      assert Delivers(a.behaviors[k]);
    }
  }

  /** In a run that starts so, in which no addition that matches an event on record is taken back, every armed timer
      of every state has its event on record, and a timer that goes off delivers one of its own date. */
  lemma {:induction false} DeliversThroughout(trace: seq<Snapshot>, steps: seq<Step>,
                                              repeats: nat -> (real, Kind) -> Option<Event>, n: nat)
    requires |trace| == |steps| + 1 && n <= |steps| && Sized(trace[0]) && AllDeliver(trace[0])
    requires forall m :: 0 <= m < n ==> Stepped(trace[m], steps[m], trace[m + 1], repeats(m))
    requires forall m :: 0 <= m < n ==>
               |trace[m].behaviors| == BEHAVIORS
                   && !(FailsToWrite(trace[m], steps[m]) && OnRecord(trace[m], steps[m].e))
    ensures Sized(trace[n]) && AllDeliver(trace[n])
    ensures n < |steps| && IsDue(trace[n], steps[n]) ==>
              var e := Delivered(trace[n], steps[n]);
              e.Some? && trace[n].behaviors[steps[n].timer].timer == Some(e.value.date)
  {
    hide Stepped, AllDeliver, FailsToWrite, OnRecord;
    if n > 0 {
      DeliversThroughout(trace, steps, repeats, n - 1);
      assert Stepped(trace[n - 1], steps[n - 1], trace[n - 1 + 1], repeats(n - 1));
      DeliverStep(trace[n - 1], steps[n - 1], trace[n], repeats(n - 1));
    }
    DueDelivers(trace[n]);
  }

  lemma DueDelivers(a: Snapshot)
    requires |a.behaviors| == BEHAVIORS && AllDeliver(a)
    ensures forall k: Kind :: k != WAKE_OR_POWER_ON && a.behaviors[k].timer.Some? ==>
              a.behaviors[k].current.Some? && a.behaviors[k].timer == Some(a.behaviors[k].current.value.date)
  {
  }

  /** The same request twice, the second time without its queue being written: the first event stays in the queue and
      its timer stays armed, but nothing is on record any more, and the timer delivers nothing. */
  method DeliverNothing(app: string, content: nat) returns (s: Scheduler, delivered: Option<Event>)
    ensures fresh(s) && s.Valid() && delivered.None?
  {
    hide Anew, Orderly, SumLengths, AllCached, Upcoming, EarliestDate, OffRecord;
    var e := Event(60.0, app, SLEEP, content);
    s := new Scheduler(0.0);
    EmptySum(s.behaviors);
    var none := (k: Kind) => None;
    ScheduleOnce(s, e, none);
    ghost var before := s.behaviors;
    var ret := s.Request(true, Some(SLEEP), e, Success, false, none);
    OneTakenBack(before, s.behaviors, e);
    s.Tick(60.0);
    delivered := s.TimerExpires(SLEEP, none);
  }

  method ScheduleOnce(s: Scheduler, e: Event, none: Kind -> Option<Event>)
    requires s.Valid() && s.now == 0.0 && s.wakePurgeAllowed && s.activeEventCnt == 0
    requires (forall k: Kind :: s.behaviors[k].queue.None?) && (forall k :: none(k) == None)
    requires e.date == 60.0 && e.kind == SLEEP
    modifies s
    ensures s.Valid() && s.now == 0.0 && s.wakePurgeAllowed && s.activeEventCnt == 1
    ensures Purged(s.behaviors[SLEEP], SLEEP, true, 0.0) == [e]
    ensures s.behaviors[SLEEP].timer == Some(60.0) && s.behaviors[SLEEP].current == Some(e)
  {
    hide Anew, Orderly, SumLengths, AllCached, Upcoming, EarliestDate, OffRecord;
    NothingPurged(s.behaviors[SLEEP], SLEEP, true, 0.0);
    var ret := s.Request(true, Some(SLEEP), e, Success, true, none);
    OneRequest(s.behaviors, s.decisions, e);
  }

  lemma OneRequest(bs: seq<Behavior>, ds: seq<Decision>, e: Event)
    requires |bs| == |ds| == BEHAVIORS && e.date == 60.0 && Anew(bs, ds, 0.0, SLEEP, None)
    requires multiset(Events(bs[SLEEP])) == multiset{e} && forall j: Kind :: j != SLEEP ==> bs[j].queue.None?
    ensures Upcoming(Events(bs[SLEEP]), 0.0) == [e] && SumLengths(bs) == 1
    ensures bs[SLEEP].timer == Some(60.0) && bs[SLEEP].current == Some(e)
  {
    hide Anew, SumLengths, Upcoming;
    Singleton(Events(bs[SLEEP]), e);
    NonePast([e], 0.0);
    OneDecided(bs, ds, e);
    OneCounted(bs);
  }

  lemma Singleton(q: seq<Event>, e: Event)
    requires multiset(q) == multiset{e}
    ensures q == [e]
  {
    assert |q| == |multiset(q)|;
    assert q[0] in multiset(q);
  }

  lemma OneDecided(bs: seq<Behavior>, ds: seq<Decision>, e: Event)
    requires |bs| == |ds| == BEHAVIORS && e.date == 60.0 && Anew(bs, ds, 0.0, SLEEP, None) && Events(bs[SLEEP]) == [e]
    ensures bs[SLEEP].timer == Some(60.0) && bs[SLEEP].current == Some(e)
  {
    assert CandidatesOf(bs, SLEEP, None) == [e];
    NextIs([e], e, 0.0);
  }

  lemma OneCounted(bs: seq<Behavior>)
    requires |bs| == BEHAVIORS && |Events(bs[SLEEP])| == 1 && forall j: Kind :: j != SLEEP ==> bs[j].queue.None?
    ensures SumLengths(bs) == 1
  {
    hide SumLengths;
    var none := bs[SLEEP := bs[SLEEP].(queue := None)];
    EmptySum(none);
    SumUpdate(bs, SLEEP, none[SLEEP]);
  }

  lemma OneTakenBack(bs: seq<Behavior>, bs': seq<Behavior>, e: Event)
    requires |bs| == BEHAVIORS && bs[SLEEP].current == Some(e)
    requires exists y :: Matches(y, e) && OffRecord(bs, bs', y)
               && multiset(Events(bs'[SLEEP])) + multiset{y} == multiset([e]) + multiset{e}
    ensures bs'[SLEEP].current.None? && bs'[SLEEP].timer == bs[SLEEP].timer
  {
    var y :| Matches(y, e) && OffRecord(bs, bs', y)
             && multiset(Events(bs'[SLEEP])) + multiset{y} == multiset([e]) + multiset{e};
    assert y in multiset([e]) + multiset{e};
  }

  /** One step; a cancel-all is written. */
  method Perform(s: Scheduler, x: Step, repeats: (real, Kind) -> Option<Event>) returns (delivered: Option<Event>)
    requires s.Valid() && FutureAlways(repeats) && Proper(x)
    modifies s
    ensures s.Valid() && Stepped(old(At(s)), x, At(s), repeats) && delivered == Delivered(old(At(s)), x)
  {
    delivered := None;
    hide Orderly, SumLengths, CachedBut, AllCached, EarliestDate, Purged, Anew;
    var t := s.now;
    var current := (k: Kind) => repeats(t, k);
    match x {
      case Asked(schedule, k, e, session, written) => PerformRequest(s, x, repeats);
      case CancelledAll(session) => var _ := s.CancelAll(session, _ => true, current);
      case Expired(k) =>
        if k != WAKE_OR_POWER_ON && s.behaviors[k].timer.Some? && s.behaviors[k].timer.value <= s.now {
          delivered := s.TimerExpires(k, current);
        }
      case Woke => PerformWake(s, repeats);
      case ClockSet(later) => PerformClock(s, later, repeats);
      case RepeatsSet(types) => PerformRepeats(s, types, repeats);
      case TimePassed(later) =>
        if s.now <= later {
          s.Tick(later);
        }
      case PurgingPrevented => s.PreventPurging();
      case PurgingAllowed => s.AllowPurging();
    }
  }

  method PerformWake(s: Scheduler, repeats: (real, Kind) -> Option<Event>)
    requires s.Valid() && FutureAlways(repeats)
    modifies s
    ensures s.Valid() && Stepped(old(At(s)), Woke, At(s), repeats)
  {
    hide Orderly, SumLengths, CachedBut, AllCached, EarliestDate, Purged, Anew, Events;
    var t := s.now;
    var current := (k: Kind) => repeats(t, k);
    s.DidWake(current);
    ghost var b := At(s);
    forall k: Kind | k != WAKE_OR_POWER_ON ensures Anew(b.behaviors, b.decisions, b.now, k, repeats(t, k)) {
      assert current(k) == repeats(t, k);
    }
  }

  method PerformClock(s: Scheduler, later: real, repeats: (real, Kind) -> Option<Event>)
    requires s.Valid() && FutureAlways(repeats)
    modifies s
    ensures s.Valid() && Stepped(old(At(s)), ClockSet(later), At(s), repeats)
  {
    hide Orderly, SumLengths, CachedBut, AllCached, EarliestDate, Anew;
    var current := (k: Kind) => repeats(later, k);
    s.CalendarChange(later, current);
    ghost var b := At(s);
    forall k: Kind | k != WAKE_OR_POWER_ON ensures Anew(b.behaviors, b.decisions, b.now, k, repeats(later, k)) {
      assert current(k) == repeats(later, k);
    }
  }

  method PerformRepeats(s: Scheduler, types: seq<Kind>, repeats: (real, Kind) -> Option<Event>)
    requires s.Valid() && FutureAlways(repeats)
    modifies s
    ensures s.Valid() && Stepped(old(At(s)), RepeatsSet(types), At(s), repeats)
  {
    hide Orderly, SumLengths, CachedBut, AllCached, EarliestDate, Anew, Affected;
    var t := s.now;
    var current := (k: Kind) => repeats(t, k);
    s.RepeatsChanged(types, current);
    ghost var b := At(s);
    forall k: Kind | k in Affected(types) ensures Anew(b.behaviors, b.decisions, b.now, k, repeats(t, k)) {
      assert current(k) == repeats(t, k);
    }
  }

  method PerformRequest(s: Scheduler, x: Step, repeats: (real, Kind) -> Option<Event>)
    requires s.Valid() && FutureAlways(repeats) && Proper(x) && x.Asked?
    modifies s
    ensures s.Valid() && Stepped(old(At(s)), x, At(s), repeats)
  {
    hide Orderly, SumLengths, CachedBut, AllCached, EarliestDate, Purged, Anew, Requested, RequestResult;
    var t := s.now;
    var ret := s.Request(x.schedule, x.k, x.e, x.session, x.written, (j: Kind) => repeats(t, j));
  }

  /** Any run in which a cancel-all is written; `repeats` gives the repeating events for every step, so they may
      change with any of them.  `trace` holds the state before the first step and after each one:
      every step is what it makes of the state before, and in every state queues are sorted and counted and a
      timer armed for a date ahead is armed for the next event of its behaviour. */
  method Run(s: Scheduler, steps: seq<Step>, repeats: nat -> (real, Kind) -> Option<Event>)
      returns (delivered: seq<Option<Event>>, ghost trace: seq<Snapshot>)
    requires s.Valid() && (forall n :: FutureAlways(repeats(n))) && forall x :: x in steps ==> Proper(x)
    modifies s
    ensures s.Valid() && |trace| == |steps| + 1 && trace[0] == old(At(s)) && trace[|steps|] == At(s)
    ensures forall n :: 0 <= n <= |steps| ==> Good(trace[n]) && TimersRight(trace[n])
    ensures forall n :: 0 <= n < |steps| ==> Stepped(trace[n], steps[n], trace[n + 1], repeats(n))
    ensures |delivered| == |steps|
    ensures forall n :: 0 <= n < |steps| ==> Sized(trace[n]) && delivered[n] == Delivered(trace[n], steps[n])
  {
    hide Orderly, SumLengths, AllCached, TimersRight, Stepped;
    trace, delivered := [At(s)], [];
    GoodIsRight(At(s));
    for n := 0 to |steps|
      invariant s.Valid() && |trace| == n + 1 && trace[0] == old(At(s)) && trace[n] == At(s)
      invariant forall m :: 0 <= m <= n ==> Good(trace[m]) && TimersRight(trace[m])
      invariant forall m :: 0 <= m < n ==> Stepped(trace[m], steps[m], trace[m + 1], repeats(m))
      invariant |delivered| == n
      invariant forall m :: 0 <= m < n ==> Sized(trace[m]) && delivered[m] == Delivered(trace[m], steps[m])
    {
      assert steps[n] in steps;
      var event := Perform(s, steps[n], repeats(n));
      delivered := delivered + [event];
      GoodIsRight(At(s));
      trace := trace + [At(s)];
    }
  }

  lemma CachedOne(bs: seq<Behavior>, ds: seq<Decision>, now: real, k: Kind)
    requires |bs| == |ds| == BEHAVIORS && AllCached(bs, ds, now) && k != WAKE_OR_POWER_ON
    ensures Cached(bs, k, ds[k], now)
  {
  }
}
