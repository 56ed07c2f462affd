/**
 Per-process accounting of the time spent holding assertions of each effect: updateAppStats and
 the sampling in updateProcAssertionStats, while aggregation is on and every process has its buffer.
 */
module ProcessStats {

  type Pid = nat
  type Id = nat

  /** Effects that are accounted for: none, idle sleep, demand sleep and display sleep. */
  const EFFECT_STATS: nat := 4

  datatype Key = Key(pid: Pid, effect: nat)

  /** What a process structure keeps per effect; `reported` is the element of its report buffer. */
  datatype Account = Account(cnt: nat, startTime: nat, reported: nat)

  /** The assertions counted during one second, each with the account it counts for. */
  type Second = map<Id, Key>

  ghost function Holders(s: Second, k: Key): set<Id> {
    set a | a in s && s[a] == k
  }

  /** Seconds in which at least one assertion counted for `k`; overlapping ones count once. */
  ghost function Busy(timeline: seq<Second>, k: Key): nat {
    if timeline == [] then 0
    else Busy(timeline[..|timeline| - 1], k) + if Holders(timeline[|timeline| - 1], k) != {} then 1 else 0
  }

  lemma BusyStep(timeline: seq<Second>, s: Second, k: Key)
    ensures Busy(timeline + [s], k) == Busy(timeline, k) + if Holders(s, k) != {} then 1 else 0
  {
    assert (timeline + [s])[..|timeline|] == timeline;
  }

  class Stats {
    var accounts: map<Key, Account>
    var adds: set<Id>
    var now: nat
    /** For whom each flagged assertion was counted, now and in every past second. */
    ghost var countedFor: Second
    ghost var timeline: seq<Second>

    function At(k: Key): Account
      reads `accounts
    {
      if k in accounts then accounts[k] else Account(0, 0, 0)
    }

    /** Accumulated and running duration of an account. */
    function Total(k: Key): int
      reads `accounts, `now
    {
      At(k).reported + if At(k).cnt > 0 then now - At(k).startTime else 0
    }

    /** The count is the number of flagged assertions, and the durations add up to the seconds with at least one. */
    ghost predicate Exact(k: Key)
      reads `accounts, `now, `countedFor, `timeline
    {
      At(k).cnt == |Holders(countedFor, k)| && At(k).startTime <= now && Total(k) == Busy(timeline, k)
    }

    ghost predicate Valid()
      reads this
    {
      && adds == countedFor.Keys && |timeline| == now
      && (forall a :: a in countedFor ==> countedFor[a].effect < EFFECT_STATS)
      && (forall k :: Exact(k))
    }

    constructor ()
      ensures Valid() && now == 0 && countedFor == map[] && timeline == []
    {
      accounts, adds, now, countedFor, timeline := map[], {}, 0, map[], [];
      new;
      forall k ensures Exact(k) {
        assert Holders(map[], k) == {};
      }
    }

    /** An assertion becomes live.  One that a type keeps out on battery is not admitted, and one
        that is counted already is not counted twice. */
    method Raise(a: Id, k: Key, admitted: bool)
      requires Valid()
      modifies `accounts, `adds, `countedFor
      ensures Valid()
      ensures countedFor == if admitted && k.effect < EFFECT_STATS && a !in old(adds) then old(countedFor)[a := k]
                else old(countedFor)
    {
      if k.effect >= EFFECT_STATS || !admitted || a in adds { return; }
      ghost var before := Holders(countedFor, k);
      assert Exact(k) && a !in before;
      var s := At(k);
      accounts := accounts[k := Account(s.cnt + 1, if s.cnt == 0 then now else s.startTime, s.reported)];
      adds := adds + {a};
      countedFor := countedFor[a := k];
      assert Holders(countedFor, k) == before + {a};
      assert Exact(k);
      forall j | j != k ensures Exact(j) {
        assert old(Exact(j));
        assert Holders(countedFor, j) == Holders(old(countedFor), j);
      }
    }

    /** An assertion stops being live, under the account it was raised under. */
    method Release(a: Id, k: Key)
      requires Valid() && (a in countedFor ==> countedFor[a] == k)
      modifies `accounts, `adds, `countedFor
      ensures Valid() && countedFor == old(countedFor) - {a}
    {
      ghost var before := Holders(countedFor, k);
      if k.effect >= EFFECT_STATS || At(k).cnt == 0 || a !in adds {
        Uncounted(a, k);
        return;
      }
      assert Exact(k) && a in before;
      var s := At(k);
      var duration := if s.cnt == 1 then now - s.startTime else 0;
      accounts := accounts[k := Account(s.cnt - 1, s.startTime, s.reported + duration)];
      adds := adds - {a};
      countedFor := countedFor - {a};
      assert Holders(countedFor, k) == before - {a};
      assert Exact(k);
      forall j | j != k ensures Exact(j) {
        assert old(Exact(j));
        assert Holders(countedFor, j) == Holders(old(countedFor), j);
      }
    }

    /** An account that counts nothing has no flagged assertion to release. */
    lemma Uncounted(a: Id, k: Key)
      requires Valid() && (a in countedFor ==> countedFor[a] == k)
      requires k.effect >= EFFECT_STATS || At(k).cnt == 0 || a !in adds
      ensures a !in countedFor && countedFor - {a} == countedFor
    {
      assert Exact(k);
      assert a in countedFor ==> a in Holders(countedFor, k);
    }

    /** Sampling a process moves running time into the report; no total changes. */
    method Sample(pid: Pid)
      requires Valid()
      modifies `accounts
      ensures Valid()
      ensures forall k :: Total(k) == old(Total(k)) && At(k).cnt == old(At(k)).cnt
      ensures forall k: Key :: k.pid == pid && k.effect < EFFECT_STATS ==> At(k).reported == Total(k)
      ensures forall k: Key :: k.pid != pid ==> At(k) == old(At(k))
    {
      for i := 0 to EFFECT_STATS
        invariant forall k :: Exact(k)
        invariant forall k :: Total(k) == old(Total(k)) && At(k).cnt == old(At(k)).cnt
        invariant forall k: Key :: k.pid == pid && k.effect < i ==> At(k).reported == Total(k)
        invariant forall k: Key :: k.pid != pid ==> At(k) == old(At(k))
      {
        var k := Key(pid, i);
        var s := At(k);
        assert Exact(k);
        var duration := if s.cnt > 0 then now - s.startTime else 0;
        label Before:
        accounts := accounts[k := Account(s.cnt, now, s.reported + duration)];
        forall j ensures Exact(j) && Total(j) == old(Total(j)) && (j != k ==> At(j) == old@Before(At(j))) {
          assert old@Before(Exact(j));
        }
      }
    }

    /** A second passes. */
    method Tick()
      requires Valid()
      modifies `now, `timeline
      ensures Valid() && now == old(now) + 1 && timeline == old(timeline) + [countedFor]
    {
      now := now + 1;
      timeline := timeline + [countedFor];
      forall k ensures Exact(k) {
        assert old(Exact(k));
        BusyStep(old(timeline), countedFor, k);
      }
    }
  }

  /** An assertion is raised, released, or moved to another account because the effect of its type changed. */
  datatype Event = Raises(a: Id, admitted: bool) | Releases(a: Id) | Moves(a: Id, k: Key,
                          admitted: bool) | Samples(pid: Pid) | Ticks

  /** What the events alone say: the account of every assertion, who counts for whom now, and who did in every
      second so far.  No counter and no start time is kept. */
  datatype History = History(accountOf: map<Id, Key>, counted: Second, timeline: seq<Second>)

  function Admit(counted: Second, a: Id, k: Key, admitted: bool): Second {
    if admitted && k.effect < EFFECT_STATS && a !in counted then counted[a := k] else counted
  }

  predicate Known(ev: Event, accountOf: map<Id, Key>) {
    ev.Raises? || ev.Releases? || ev.Moves? ==> ev.a in accountOf
  }

  function Extend(h: History, ev: Event): (r: History)
    requires Known(ev, h.accountOf)
    ensures r.accountOf.Keys == h.accountOf.Keys
  {
    match ev
    case Raises(a, admitted) => h.(counted := Admit(h.counted, a, h.accountOf[a], admitted))
    case Releases(a) => h.(counted := h.counted - {a})
    case Moves(a, k, admitted) =>
        h.(accountOf := h.accountOf[a := k], counted := Admit(h.counted - {a}, a, k, admitted))
    case Samples(_) => h
    case Ticks => h.(timeline := h.timeline + [h.counted])
  }

  function HistoryOf(accountOf: map<Id, Key>, events: seq<Event>): (r: History)
    requires forall ev :: ev in events ==> Known(ev, accountOf)
    ensures r.accountOf.Keys == accountOf.Keys
  {
    if events == [] then History(accountOf, map[], [])
    else
      var h := HistoryOf(accountOf, events[..|events| - 1]); var ev := events[|events| - 1];
      assert Known(ev, accountOf) && forall a :: a in h.accountOf.Keys <==> a in accountOf.Keys;
      Extend(h, ev)
  }

  function WithoutSamples(events: seq<Event>): (r: seq<Event>)
    ensures forall ev :: ev in r ==> ev in events
  {
    if events == [] then []
    else WithoutSamples(events[..|events| - 1]) + if events[|events| - 1].Samples? then [] else [events[|events| - 1]]
  }

  /** When samples are taken makes no difference. */
  lemma {:induction false} SamplesDoNotMatter(accountOf: map<Id, Key>, events: seq<Event>)
    requires forall ev :: ev in events ==> Known(ev, accountOf)
    ensures HistoryOf(accountOf, WithoutSamples(events)) == HistoryOf(accountOf, events)
  {
    if events != [] {
      var before, last := events[..|events| - 1], events[|events| - 1];
      SamplesDoNotMatter(accountOf, before);
      var w := WithoutSamples(before);
      if last.Samples? {
        assert WithoutSamples(events) == w + [] == w;
      } else {
        assert WithoutSamples(events) == w + [last] && (w + [last])[..|w|] == w;
      }
    }
  }

  /** Any run: at its end every account holds exactly the seconds, as the events tell them, in which at least one of
      its assertions was counted, and its count is the number of those that are. */
  method Run(accountOf: map<Id, Key>, events: seq<Event>) returns (s: Stats)
    requires forall ev :: ev in events ==> Known(ev, accountOf)
    ensures s.Valid() && s.now == |HistoryOf(accountOf, events).timeline|
    ensures var h := HistoryOf(accountOf, events);
            forall k :: s.Total(k) == Busy(h.timeline, k) && s.At(k).cnt == |Holders(h.counted, k)|
  {
    var keys := accountOf;
    s := new Stats();
    assert events[..0] == [];
    for n := 0 to |events|
      invariant fresh(s) && s.Valid()
      invariant HistoryOf(accountOf, events[..n]) == History(keys, s.countedFor, s.timeline)
      invariant forall a :: a in s.countedFor ==> a in keys && s.countedFor[a] == keys[a]
    {
      ghost var before := s.countedFor;
      assert events[..n + 1][..n] == events[..n] && events[..n + 1][n] == events[n];
      assert Known(events[n], accountOf);
      match events[n] {
        case Raises(a, admitted) => s.Raise(a, keys[a], admitted);
        case Releases(a) => s.Release(a, keys[a]);
        case Moves(a, k, admitted) =>
          s.Release(a, keys[a]);
          keys := keys[a := k];
          s.Raise(a, k, admitted);
        case Samples(pid) => s.Sample(pid);
        case Ticks => s.Tick();
      }
    }
    assert events[..|events|] == events;
    forall k ensures s.Total(k) == Busy(s.timeline, k) && s.At(k).cnt == |Holders(s.countedFor, k)| {
      assert s.Exact(k);
    }
  }
}
