/**
 Deadlines that follow the display-sleep or the idle-sleep setting: evalAllUserActivityAssertions
 and evalAllNetworkAccessAssertions.
 */
module Retiming {
  import opened Common
  import opened EffectMirror
  import opened AssertionLists
  import opened AssertionEngine
  import ProcessExit

  const TWO_64: nat := 0x1_0000_0000_0000_0000

  /** Difference of two display settings in seconds: unsigned 32-bit arithmetic stored in an int. */
  function DisplayChange(minutes: nat, before: nat): int {
    var d := ((minutes - before) * 60) % TWO_32;
    if d < TWO_32 / 2 then d else d - TWO_32
  }

  /** Difference of two idle settings in seconds: unsigned 64-bit arithmetic. */
  function IdleChange(minutes: nat, before: nat): nat {
    ((minutes - before) * 60) % TWO_64
  }

  /** The unsigned 64-bit addition of a change to a deadline, floored at now. */
  function Shifted(timeout: nat, change: int, now: nat): nat {
    var t := (timeout + change) % TWO_64;
    if t < now then now else t
  }

  /** Record of an assertion of the type whose setting changed. */
  function Retimed(a: Assertion, on: bool, change: int, restart: nat, now: nat): Assertion {
    if !a.sysTimer then a
    else if PlaceOf(a) == Timed
        then (if on then a.(timeout := Shifted(a.timeout, change, now)) else a.(timed := false, timeout := 0))
    else if PlaceOf(a) == Active && on then a.(timed := true, timeout := restart)
    else a
  }

  /** The setting changed: every system-timed assertion of type `k` was retimed, nothing else changed. */
  ghost predicate RetimedSo(table0: Table, table: Table, k: TypeId, on: bool, change: int, restart: nat, now: nat) {
    table.Keys == table0.Keys &&
    forall j :: j in table ==>
        table[j] == if table0[j].kassert == k then Retimed(table0[j], on, change, restart, now) else table0[j]
  }

  /** The signed change of the display setting is the exact difference if and only if that fits 32 bits. */
  lemma ChangeExact(minutes: nat, before: nat)
    ensures var d := (minutes - before) * 60; DisplayChange(minutes, before) == d <==> -(TWO_32 / 2) <= d < TWO_32 / 2
  {
    var d := (minutes - before) * 60;
    if -(TWO_32 / 2) <= d < 0 {
      assert d % TWO_32 == d + TWO_32;
    }
  }

  /** The unsigned change of the idle setting shifts every deadline as the exact difference would. */
  lemma IdleShifts(minutes: nat, before: nat, timeout: nat, now: nat)
    ensures Shifted(timeout, IdleChange(minutes, before), now) == Shifted(timeout, (minutes - before) * 60, now)
  {
    var d := (minutes - before) * 60;
    Modulo(timeout + d, d);
  }

  /** The unsigned addition of a change is the exact sum floored at now if and only if the sum fits 64 bits, or
      lies below zero and wraps around to no more than now. */
  lemma ShiftExact(timeout: nat, change: int, now: nat)
    requires timeout < TWO_64 && now < TWO_64
    ensures var exact := timeout + change; var floored := if exact < now then now else exact;
            Shifted(timeout, change, now) == floored <==> 0 <= exact < TWO_64 || (exact < 0 && exact % TWO_64 <= now)
  {
    var exact := timeout + change;
    if exact >= TWO_64 {
      assert exact % TWO_64 < TWO_64;
    }
  }

  lemma Modulo(exact: int, d: int)
    ensures (exact - d + (d % TWO_64)) % TWO_64 == exact % TWO_64
  {
    var q := d / TWO_64;
    assert d % TWO_64 == d - q * TWO_64;
    assert exact - d + (d % TWO_64) == exact - q * TWO_64;
    Multiple(exact, q);
  }

  lemma {:induction false} Multiple(x: int, q: int)
    ensures (x - q * TWO_64) % TWO_64 == x % TWO_64
    decreases if q < 0 then -q else q
  {
    if q > 0 {
      Multiple(x - TWO_64, q - 1);
    } else if q < 0 {
      Multiple(x + TWO_64, q + 1);
    }
  }

  // ---- the walks -----------------------------------------------------------------------

  /** The assertions a walk of one list of type `k` retimes. */
  ghost function SystemTimed(table: Table, k: TypeId, p: Place): set<Index> {
    set j | j in table && table[j].kassert == k && table[j].sysTimer && OneBit(table[j]) && PlaceOf(table[j]) == p
  }

  /** Those in `done` were retimed, nothing else changed. */
  ghost predicate RetimedPart(table0: Table, table: Table, k: TypeId, on: bool, change: int, restart: nat, now: nat,
                              done: set<Index>) {
    && table.Keys == table0.Keys && done <= table.Keys
    && (forall j :: j in done ==> table0[j].kassert == k)
    && forall j :: j in table ==>
         table[j] == if j in done then Retimed(table0[j], on, change, restart, now) else table0[j]
  }

  lemma RetimedPartStep(table0: Table, table1: Table, k: TypeId, on: bool, change: int, restart: nat, now: nat,
                        done: set<Index>, i: Index)
    requires RetimedPart(table0, table1, k, on, change, restart, now, done) && i in table0 && i !in done
               && table0[i].kassert == k
    ensures i in table1 && table1[i] == table0[i]
    ensures RetimedPart(table0, table1[i := Retimed(table0[i], on, change, restart, now)], k, on, change, restart, now,
              done + {i})
  {
    hide Retimed;
  }

  /** Besides `base`, exactly the wanted ones among the first `seen` of the list are done. */
  ghost predicate DonePrefix(done: set<Index>, base: set<Index>, wanted: set<Index>, l0: seq<Index>, seen: nat) {
    seen <= |l0| && NoDup(l0) && forall j :: j in done <==> j in base || (j in wanted && j in l0[..seen])
  }

  lemma DonePrefixStep(done: set<Index>, base: set<Index>, wanted: set<Index>, l0: seq<Index>, l: seq<Index>, seen: nat,
                       i: Index)
    requires DonePrefix(done, base, wanted, l0, seen) && StandsAt(l0, l, seen, Some(i), wanted) && base !! wanted
    ensures i in wanted ==> i !in done
    ensures DonePrefix(if i in wanted then done + {i} else done, base, wanted, l0, seen + 1)
  {
    assert l0[seen] == i;
    assert l0[..seen + 1] == l0[..seen] + [i];
    assert i !in l0[..seen];
  }

  lemma DonePrefixEnd(done: set<Index>, base: set<Index>, wanted: set<Index>, l0: seq<Index>)
    requires DonePrefix(done, base, wanted, l0, |l0|) && forall j :: j in wanted ==> j in l0
    ensures done == base + wanted
  {
    assert l0[..|l0|] == l0;
  }

  /** State between steps; `local` is the list of assertions taken off and not inserted again. */
  ghost predicate Midway(e: Engine, k: TypeId, table0: Table, types0: Types, on: bool, change: int, restart: nat,
                         done: set<Index>, local: seq<Index>)
    reads e
  {
    && e.Sound() && e.Timers(k) && k !in e.exact && SoundAt(table0, types0, {}, e.exact)
    && |types0| == TYPE_COUNT && e.types == types0[k := e.types[k]] && SameConfig(types0[k], e.types[k])
    && NoDup(local) && (forall j :: j in local <==> j in e.limbo)
    && (forall j :: j in local ==>
         j in e.table && e.table[j].kassert == k && e.table[j].timed && !e.table[j].inactive && !e.table[j].suspended)
    && RetimedPart(table0, e.table, k, on, change, restart, e.now, done)
  }

  lemma CursorFacts(e: Engine, k: TypeId, p: Place, i: Index, table0: Table, types0: Types, on: bool, change: int,
                    restart: nat, done: set<Index>, local: seq<Index>)
    requires Midway(e, k, table0, types0, on, change, restart, done, local) && i in e.types[k].ListAt(p)
    ensures i in e.table && i !in e.limbo && e.table[i].kassert == k && OneBit(e.table[i]) && PlaceOf(e.table[i]) == p
              && NoDup(e.types[k].ListAt(p))
    ensures i !in done ==>
              i in table0 && table0[i] == e.table[i] && (i in SystemTimed(table0, k, p) <==> e.table[i].sysTimer)
    ensures forall q :: e.types[k].Unlinked(i).ListAt(q) == if q == p then Without(e.types[k].ListAt(p), i)
              else e.types[k].ListAt(q)
  {
    hide TimersAt, Without, Retimed;
    assert ListsOK(e.table, e.limbo, k, e.types[k]);
    InItsList(e.table, e.types, e.limbo, e.exact, i);
    ProcessExit.AtCursor(e.table, e.types, e.limbo, e.exact, k, p, i);
  }

  /** A system-timed assertion leaves the timed list with its deadline shifted. */
  method Shift(e: Engine, k: TypeId, i: Index, change: int, local: seq<Index>,
               ghost table0: Table, ghost types0: Types, ghost restart: nat, ghost done: set<Index>)
                   returns (local': seq<Index>)
    requires Midway(e, k, table0, types0, true, change, restart, done, local)
    requires i in e.types[k].timed && i !in done && i in e.table && e.table[i].sysTimer
    modifies e`table, e`types, e`limbo
    ensures Midway(e, k, table0, types0, true, change, restart, done + {i}, local')
    ensures e.types[k].timed == Without(old(e.types)[k].timed, i) && e.types[k].active == old(e.types)[k].active
  {
    hide SoundAt, TimersAt, TimerOK, Without, RetimedPart, NoDup;
    CursorFacts(e, k, Timed, i, table0, types0, true, change, restart, done, local);
    assert e.types[k].Unlinked(i).ListAt(Active) == e.types[k].ListAt(Active);
    RetimedPartStep(table0, e.table, k, true, change, restart, e.now, done, i);
    ghost var r1 := e.types[k];
    e.ListRemove(i, k);
    e.UpdateInLimbo(i, e.table[i].(timeout := Shifted(e.table[i].timeout, change, e.now)));
    local' := [i] + local;
    NoDupCons(i, local);
    UpdateSeqTwice(types0, k, r1, e.types[k]);
  }

  /** A system-timed assertion loses its deadline. */
  method MakeUntimed(e: Engine, k: TypeId, i: Index,
                     ghost table0: Table, ghost types0: Types, ghost change: int, ghost restart: nat,
                         ghost done: set<Index>)
    requires Midway(e, k, table0, types0, false, change, restart, done, [])
    requires i in e.types[k].timed && i !in done && i in e.table && e.table[i].sysTimer
    modifies e`table, e`types, e`limbo, e`exact
    ensures e.exact == old(e.exact)
    ensures Midway(e, k, table0, types0, false, change, restart, done + {i}, [])
    ensures e.types[k].timed == Without(old(e.types)[k].timed, i)
  {
    hide SoundAt, TimersAt, TimerOK, Without, RetimedPart, NoDup;
    CursorFacts(e, k, Timed, i, table0, types0, false, change, restart, done, []);
    RetimedPartStep(table0, e.table, k, false, change, restart, e.now, done, i);
    ghost var table1, r1 := e.table, e.types[k];
    e.RemoveTimed(i, k, false);
    var a := e.table[i].(timeout := 0);
    UpdateTwice(table1, i, e.table[i], a);
    e.UpdateInLimbo(i, a);
    e.InsertActive(i, k);
    UpdateTwice(table1, i, a, e.table[i]);
    UpdateSeqTwice(types0, k, r1, e.types[k]);
  }

  lemma NoDupCons(i: Index, l: seq<Index>)
    requires NoDup(l) && i !in l
    ensures NoDup([i] + l)
  {
    assert forall x :: 0 < x < |l| + 1 ==> ([i] + l)[x] == l[x - 1];
  }

  /** An untimed system-timed assertion gets a deadline. */
  method RetimeActive(e: Engine, k: TypeId, i: Index, restart: nat,
                      ghost table0: Table, ghost types0: Types, ghost change: int, ghost done: set<Index>)
    requires Midway(e, k, table0, types0, true, change, restart, done, [])
    requires i in e.types[k].active && i !in done && i in e.table && e.table[i].sysTimer
    modifies e`table, e`types, e`limbo, e`exact
    ensures Midway(e, k, table0, types0, true, change, restart, done + {i}, [])
    ensures e.exact == old(e.exact)
    ensures e.types[k].active == Without(old(e.types)[k].active, i)
  {
    hide SoundAt, TimersAt, TimerOK, Without, RetimedPart, NoDup;
    CursorFacts(e, k, Active, i, table0, types0, true, change, restart, done, []);
    RetimedPartStep(table0, e.table, k, true, change, restart, e.now, done, i);
    ghost var table1, r1 := e.table, e.types[k];
    e.RemoveActive(i, k);
    var a := e.table[i].(timeout := restart);
    e.UpdateInLimbo(i, a);
    assert e.exact - {k} == e.exact;
    e.InsertTimed(i, k, false);
    UpdateTwice(table1, i, a, e.table[i]);
    UpdateSeqTwice(types0, k, r1, e.types[k]);
  }

  /** The first of the local list goes back to the timed list. */
  method PutBack(e: Engine, k: TypeId, on: bool, local: seq<Index>,
                 ghost table0: Table, ghost types0: Types, ghost change: int, ghost restart: nat,
                     ghost done: set<Index>) returns (local': seq<Index>)
    requires Midway(e, k, table0, types0, on, change, restart, done, local) && local != []
    modifies e`types, e`limbo
    ensures Midway(e, k, table0, types0, on, change, restart, done, local') && |local'| < |local|
    ensures e.types[k].active == old(e.types)[k].active
  {
    hide SoundAt, TimersAt, TimerOK, RetimedPart, Retimed;
    var i := local[0];
    ghost var types1, limbo1, r1 := e.types, e.limbo, e.types[k];
    e.InsertByTimeout(i, k);
    assert e.table[i := e.table[i]] == e.table;
    InsertTimers(e.table, types1, limbo1, e.exact, e.table, e.types, e.now, k, i, k);
    UpdateSeqTwice(types0, k, r1, e.types[k]);
    local' := local[1..];
    assert local == [i] + local';
  }

  /** Every wanted assertion was on its list. */
  lemma WantedListed(table: Table, types: Types, exact: set<TypeId>, k: TypeId, p: Place)
    requires SoundAt(table, types, {}, exact)
    ensures NoDup(types[k].ListAt(p)) && forall j :: j in SystemTimed(table, k, p) ==> j in types[k].ListAt(p)
  {
    assert ListsOK(table, {}, k, types[k]);
    forall j | j in SystemTimed(table, k, p) ensures j in types[k].ListAt(p) {
      ProcessExit.OnSomeList(table, types, {}, exact, j);
    }
  }

  /** The walk of the timed list stands at `cur`. */
  ghost predicate AlongTimed(e: Engine, k: TypeId, table0: Table, types0: Types, on: bool, change: int, restart: nat,
                             done: set<Index>, local: seq<Index>,
                             seen: nat, cur: Option<Index>)
    reads e
  {
    && Midway(e, k, table0, types0, on, change, restart, done, local)
    && StandsAt(types0[k].timed, e.types[k].timed, seen, cur, SystemTimed(table0, k, Timed))
    && DonePrefix(done, {}, SystemTimed(table0, k, Timed), types0[k].timed, seen)
    && (if on then e.types[k].active == types0[k].active else local == [])
    && seen <= |types0[k].timed| && (cur.None? <==> seen == |types0[k].timed|)
  }

  method AdvanceTimed(e: Engine, k: TypeId, i: Index, on: bool, change: int, local: seq<Index>, ghost table0: Table,
                      ghost types0: Types,
                      ghost restart: nat, ghost done: set<Index>, ghost seen: nat)
    returns (next: Option<Index>, local': seq<Index>, ghost done': set<Index>)
    requires AlongTimed(e, k, table0, types0, on, change, restart, done, local, seen, Some(i))
    modifies e`table, e`types, e`limbo, e`exact
    ensures e.exact == old(e.exact)
    ensures AlongTimed(e, k, table0, types0, on, change, restart, done', local', seen + 1, next)
  {
    hide SoundAt, TimersAt, TimerOK, Without, RetimedPart, NoDup, StandsAt, SystemTimed, DonePrefix, NextIn, Retimed;
    ListFacts(e, k, Timed);
    DonePrefixStep(done, {}, SystemTimed(table0, k, Timed), types0[k].timed, e.types[k].timed, seen, i);
    StandsAtStep(types0[k].timed, e.types[k].timed, seen, i, SystemTimed(table0, k, Timed));
    CursorFacts(e, k, Timed, i, table0, types0, on, change, restart, done, local);
    NotDone(done, {}, SystemTimed(table0, k, Timed), types0[k].timed, e.types[k].timed, seen, i);
    next := NextIn(e.types[k].timed, i);
    local', done' := local, done;
    if e.table[i].sysTimer {
      if on {
        local' := Shift(e, k, i, change, local, table0, types0, restart, done);
      } else {
        MakeUntimed(e, k, i, table0, types0, change, restart, done);
      }
      done' := done + {i};
    }
    StandsAtLast(types0[k].timed, e.types[k].timed, seen + 1, next, SystemTimed(table0, k, Timed));
  }

  lemma NotDone(done: set<Index>, base: set<Index>, wanted: set<Index>, l0: seq<Index>, l: seq<Index>, seen: nat,
                i: Index)
    requires DonePrefix(done, base, wanted, l0, seen) && StandsAt(l0, l, seen, Some(i), wanted)
               && (i in base ==> i !in l0)
    ensures i !in done
  {
    assert l0[seen] == i;
    assert i !in l0[..seen];
  }

  lemma ListFacts(e: Engine, k: TypeId, p: Place)
    requires e.Sound()
    ensures NoDup(e.types[k].ListAt(p)) && e.types[k].ListAt(Timed) == e.types[k].timed
              && e.types[k].ListAt(Active) == e.types[k].active
  {
    assert ListsOK(e.table, e.limbo, k, e.types[k]);
  }

  /** The walk of the timed list. */
  method WalkTimed(e: Engine, k: TypeId, on: bool, change: int, ghost table0: Table, ghost types0: Types,
                   ghost restart: nat)
    returns (local: seq<Index>, ghost done: set<Index>)
    requires Midway(e, k, table0, types0, on, change, restart, {}, []) && types0 == e.types
    modifies e`table, e`types, e`limbo, e`exact
    ensures e.exact == old(e.exact)
    ensures Midway(e, k, table0, types0, on, change, restart, done, local) && done == SystemTimed(table0, k, Timed)
    ensures if on then e.types[k].active == types0[k].active else local == []
  {
    hide SoundAt, TimersAt, TimerOK, Without, RetimedPart, NoDup, StandsAt, SystemTimed, DonePrefix, Retimed;
    local, done := [], {};
    var cur := First(e.types[k].timed);
    ghost var seen := 0;
    WantedListed(table0, types0, e.exact, k, Timed);
    PrefixStart({}, SystemTimed(table0, k, Timed), types0[k].timed);
    StandsAtStart(types0[k].timed, SystemTimed(table0, k, Timed));
    StandsAtLast(types0[k].timed, types0[k].timed, 0, cur, SystemTimed(table0, k, Timed));
    while cur.Some?
      invariant AlongTimed(e, k, table0, types0, on, change, restart, done, local, seen, cur) && e.exact == old(e.exact)
      decreases |types0[k].timed| - seen
    {
      cur, local, done := AdvanceTimed(e, k, cur.value, on, change, local, table0, types0, restart, done, seen);
      seen := seen + 1;
    }
    DonePrefixEnd(done, {}, SystemTimed(table0, k, Timed), types0[k].timed);
    assert {} + SystemTimed(table0, k, Timed) == SystemTimed(table0, k, Timed);
  }

  lemma PrefixStart(base: set<Index>, wanted: set<Index>, l0: seq<Index>)
    requires NoDup(l0)
    ensures DonePrefix(base, base, wanted, l0, 0)
  {
  }

  /** The walk of the active list stands at `cur`. */
  ghost predicate AlongActive(e: Engine, k: TypeId, table0: Table, types0: Types, change: int, restart: nat,
                              done: set<Index>, seen: nat, cur: Option<Index>)
    reads e
  {
    && Midway(e, k, table0, types0, true, change, restart, done, [])
    && StandsAt(types0[k].active, e.types[k].active, seen, cur, SystemTimed(table0, k, Active))
    && DonePrefix(done, SystemTimed(table0, k, Timed), SystemTimed(table0, k, Active), types0[k].active, seen)
    && seen <= |types0[k].active| && (cur.None? <==> seen == |types0[k].active|)
  }

  lemma TimedApart(table: Table, types: Types, exact: set<TypeId>, k: TypeId)
    requires SoundAt(table, types, {}, exact)
    ensures SystemTimed(table, k, Timed) !! SystemTimed(table, k, Active)
    ensures forall j :: j in SystemTimed(table, k, Timed) ==> j !in types[k].active
  {
    assert ListsOK(table, {}, k, types[k]);
  }

  method AdvanceActive(e: Engine, k: TypeId, i: Index, restart: nat, ghost table0: Table, ghost types0: Types,
                       ghost change: int,
                       ghost done: set<Index>, ghost seen: nat) returns (next: Option<Index>, ghost done': set<Index>)
    requires AlongActive(e, k, table0, types0, change, restart, done, seen, Some(i))
    modifies e`table, e`types, e`limbo, e`exact
    ensures AlongActive(e, k, table0, types0, change, restart, done', seen + 1, next) && e.exact == old(e.exact)
  {
    hide SoundAt, TimersAt, TimerOK, Without, RetimedPart, NoDup, StandsAt, SystemTimed, DonePrefix, NextIn, Retimed;
    ListFacts(e, k, Active);
    TimedApart(table0, types0, e.exact, k);
    DonePrefixStep(done, SystemTimed(table0, k, Timed), SystemTimed(table0, k, Active), types0[k].active,
        e.types[k].active, seen, i);
    StandsAtStep(types0[k].active, e.types[k].active, seen, i, SystemTimed(table0, k, Active));
    CursorFacts(e, k, Active, i, table0, types0, true, change, restart, done, []);
    NotDone(done, SystemTimed(table0, k, Timed), SystemTimed(table0, k, Active), types0[k].active, e.types[k].active,
        seen, i);
    next := NextIn(e.types[k].active, i);
    done' := done;
    if e.table[i].sysTimer {
      RetimeActive(e, k, i, restart, table0, types0, change, done);
      done' := done + {i};
    }
    StandsAtLast(types0[k].active, e.types[k].active, seen + 1, next, SystemTimed(table0, k, Active));
  }

  /** The walk of the active list. */
  method WalkActive(e: Engine, k: TypeId, restart: nat, ghost table0: Table, ghost types0: Types, ghost change: int)
      returns (ghost done: set<Index>)
    requires Midway(e, k, table0, types0, true, change, restart, SystemTimed(table0, k, Timed), [])
               && e.types[k].active == types0[k].active
    modifies e`table, e`types, e`limbo, e`exact
    ensures Midway(e, k, table0, types0, true, change, restart, done, []) && e.exact == old(e.exact)
    ensures done == SystemTimed(table0, k, Timed) + SystemTimed(table0, k, Active)
  {
    hide SoundAt, TimersAt, TimerOK, Without, RetimedPart, NoDup, StandsAt, SystemTimed, DonePrefix, Retimed;
    done := SystemTimed(table0, k, Timed);
    var cur := First(e.types[k].active);
    ghost var seen := 0;
    WantedListed(table0, types0, e.exact, k, Active);
    PrefixStart(done, SystemTimed(table0, k, Active), types0[k].active);
    StandsAtStart(types0[k].active, SystemTimed(table0, k, Active));
    StandsAtLast(types0[k].active, types0[k].active, 0, cur, SystemTimed(table0, k, Active));
    while cur.Some?
      invariant AlongActive(e, k, table0, types0, change, restart, done, seen, cur) && e.exact == old(e.exact)
      decreases |types0[k].active| - seen
    {
      cur, done := AdvanceActive(e, k, cur.value, restart, table0, types0, change, done, seen);
      seen := seen + 1;
    }
    DonePrefixEnd(done, SystemTimed(table0, k, Timed), SystemTimed(table0, k, Active), types0[k].active);
  }

  /** The local list goes back to the timed list, one by one. */
  method PutAllBack(e: Engine, k: TypeId, on: bool, local: seq<Index>, ghost table0: Table, ghost types0: Types,
                    ghost change: int, ghost restart: nat,
                    ghost done: set<Index>)
    requires Midway(e, k, table0, types0, on, change, restart, done, local)
    modifies e`types, e`limbo
    ensures Midway(e, k, table0, types0, on, change, restart, done, [])
    ensures e.types[k].active == old(e.types)[k].active
  {
    hide SoundAt, TimersAt, TimerOK, RetimedPart, NoDup, Retimed;
    var list := local;
    while list != []
      invariant Midway(e, k, table0, types0, on, change, restart, done, list)
      invariant e.types[k].active == old(e.types)[k].active
      decreases |list|
    {
      list := PutBack(e, k, on, list, table0, types0, change, restart, done);
    }
  }

  lemma StartRetiming(e: Engine, k: TypeId, on: bool, change: int, restart: nat)
    requires e.Inv() && k in {DECLARE_USER_ACTIVITY, NETWORK_ACCESS}
    ensures Midway(e, k, e.table, e.types, on, change, restart, {}, []) && !e.types[k].notValidOnBatt
  {
    SoundConfig(e.table, e.types, e.limbo, e.exact);
    assert TypeOK(k, e.types[k]);
    hide SoundAt, TimersAt, HouseAt, DerivesAt;
    ExactIsCounted(e.table, e.types, e.limbo, e.exact, k);
    TimersAllToOne(e.table, e.types, e.now, k);
    assert e.types[k := e.types[k]] == e.types;
  }

  lemma AllRetimed(table0: Table, types0: Types, exact: set<TypeId>, table: Table, k: TypeId, on: bool, change: int,
                   restart: nat, now: nat, done: set<Index>)
    requires SoundAt(table0, types0, {}, exact)
    requires RetimedPart(table0, table, k, on, change, restart, now, done)
    requires done == SystemTimed(table0, k, Timed) + if on then SystemTimed(table0, k, Active) else {}
    ensures RetimedSo(table0, table, k, on, change, restart, now)
  {
    forall j | j in table && j !in done && table0[j].kassert == k
        ensures Retimed(table0[j], on, change, restart, now) == table0[j] {
      InItsList(table0, types0, {}, exact, j);
    }
  }

  /** Retiming moves assertions between the two live lists only. */
  lemma RetimedLive(table0: Table, types0: Types, table: Table, types: Types, exact: set<TypeId>, k: TypeId, on: bool,
                    change: int, restart: nat, now: nat)
    requires SoundAt(table0, types0, {}, exact) && SoundAt(table, types, {}, exact)
    requires RetimedSo(table0, table, k, on, change, restart, now)
    ensures types[k].HasLive() <==> types0[k].HasLive()
  {
    assert ListsOK(table0, {}, k, types0[k]) && ListsOK(table, {}, k, types[k]);
    if types[k].HasLive() {
      var j := if types[k].timed != [] then types[k].timed[0] else types[k].active[0];
      assert j in types[k].timed || j in types[k].active;
      InItsList(table0, types0, {}, exact, j);
    }
    if types0[k].HasLive() {
      var j := if types0[k].timed != [] then types0[k].timed[0] else types0[k].active[0];
      assert j in types0[k].timed || j in types0[k].active;
      InItsList(table, types, {}, exact, j);
    }
  }

  lemma HouseRetimed(table0: Table, table: Table, suspendedPids: set<Pid>, proxy: Option<Index>, powerd: Pid,
                     nextIndex: nat,
                     k: TypeId, on: bool, change: int, restart: nat, now: nat)
    requires HouseAt(table0, {}, suspendedPids, proxy, powerd, nextIndex) && k != INT_PREVENT_DISPLAY_SLEEP
    requires RetimedSo(table0, table, k, on, change, restart, now)
    ensures HouseAt(table, {}, suspendedPids, proxy, powerd, nextIndex)
  {
  }

  /** The lists part of a retiming. */
  method RetimeLists(e: Engine, k: TypeId, on: bool, change: int, restart: nat, ghost table0: Table,
                     ghost types0: Types)
    requires Midway(e, k, table0, types0, on, change, restart, {}, []) && types0 == e.types && e.limbo == {}
    modifies e`table, e`types, e`limbo, e`exact
    ensures e.Sound() && e.Timers(-1) && e.limbo == {} && e.exact == old(e.exact)
    ensures RetimedSo(table0, e.table, k, on, change, restart, e.now)
    ensures |types0| == TYPE_COUNT && e.types == types0[k := e.types[k]] && SameConfig(types0[k], e.types[k])
  {
    hide SoundAt, TimersAt, TimerOK, RetimedPart, RetimedSo, NoDup, SystemTimed, Retimed;
    var local;
    ghost var done;
    local, done := WalkTimed(e, k, on, change, table0, types0, restart);
    PutAllBack(e, k, on, local, table0, types0, change, restart, done);
    if on {
      done := WalkActive(e, k, restart, table0, types0, change);
    }
    AllRetimed(table0, types0, e.exact, e.table, k, on, change, restart, e.now, done);
    ghost var r1 := e.types[k];
    assert e.limbo == {};
    e.UpdateAssertionTimer(k);
    UpdateSeqTwice(types0, k, r1, e.types[k]);
  }

  /** Retime type `k` and run its release handler. */
  method Retime(e: Engine, k: TypeId, on: bool, change: int, restart: nat)
    requires e.Inv() && k in {DECLARE_USER_ACTIVITY, NETWORK_ACCESS}
    modifies e`table, e`types, e`limbo, e`exact, e`ker, e`overrides, e`agg
    ensures e.Inv() && e.exact == old(e.exact)
    ensures RetimedSo(old(e.table), e.table, k, on, change, restart, e.now)
    ensures e.types == old(e.types)[k := e.types[k]] && SameConfig(old(e.types)[k], e.types[k])
  {
    hide SoundAt, TimersAt, TimerOK, RetimedPart, RetimedSo, NoDup, SystemTimed, Retimed, HouseAt, DerivesAt, ReadyAt,
         ViewOf, Handle, ConfigOK;
    ghost var table0, types0 := e.table, e.types;
    StartRetiming(e, k, on, change, restart);
    SoundConfig(e.table, e.types, e.limbo, e.exact);
    RetimeLists(e, k, on, change, restart, table0, types0);
    RetimedLive(table0, types0, e.table, e.types, e.exact, k, on, change, restart, e.now);
    HouseRetimed(table0, e.table, e.suspendedPids + e.suspending, e.proxy, e.powerd, e.nextIndex, k, on, change,
        restart, e.now);
    SoundConfig(e.table, e.types, e.limbo, e.exact);
    BecomesReady(types0, e.types, e.onBatt, e.DerivedState(), k, Release);
    e.FinishHandler(k, Release);
  }

  /** The display-sleep setting changed. */
  method EvalAllUserActivity(e: Engine, minutes: nat)
    requires e.Inv()
    modifies e`table, e`types, e`limbo, e`exact, e`ker, e`overrides, e`agg, e`displayTimer
    ensures e.Inv() && e.exact == old(e.exact) && e.displayTimer == minutes && AllSameConfig(old(e.types), e.types)
    ensures minutes == old(e.displayTimer) ==> e.table == old(e.table) && e.types == old(e.types)
    ensures minutes != old(e.displayTimer) ==>
              RetimedSo(old(e.table), e.table, DECLARE_USER_ACTIVITY, minutes != 0,
                  DisplayChange(minutes, old(e.displayTimer)),
                        e.now + (minutes * 60) % TWO_32, e.now)
  {
    hide SoundAt, TimersAt, TimerOK, RetimedSo, HouseAt, DerivesAt;
    if e.displayTimer == minutes { return; }
    var change := DisplayChange(minutes, e.displayTimer);
    e.displayTimer := minutes;
    Retime(e, DECLARE_USER_ACTIVITY, e.displayTimer != 0, change, e.now + (e.displayTimer * 60) % TWO_32);
  }

  /** The idle-sleep setting changed. */
  method EvalAllNetworkAccess(e: Engine, minutes: nat)
    requires e.Inv()
    modifies e`table, e`types, e`limbo, e`exact, e`ker, e`overrides, e`agg, e`idleTimer
    ensures e.Inv() && e.exact == old(e.exact) && e.idleTimer == minutes && AllSameConfig(old(e.types), e.types)
    ensures var change := IdleChange(minutes, old(e.idleTimer));
            if change == 0 then e.table == old(e.table) && e.types == old(e.types)
            else RetimedSo(old(e.table), e.table, NETWORK_ACCESS, minutes != 0, change, e.now + (minutes * 60) % TWO_64,
                e.now)
  {
    hide SoundAt, TimersAt, TimerOK, RetimedSo, HouseAt, DerivesAt;
    var change := IdleChange(minutes, e.idleTimer);
    e.idleTimer := minutes;
    if change == 0 { return; }
    Retime(e, NETWORK_ACCESS, e.idleTimer != 0, change, e.now + (e.idleTimer * 60) % TWO_64);
  }

  /** What a reader of the lists sees: with the setting off no live system-timed assertion has a deadline, with it on
      every one has, the list stays sorted, and none of the type's live assertions is lost or gained. */
  lemma RetimedLists(table0: Table, types0: Types, table: Table, types: Types, exact: set<TypeId>, k: TypeId, on: bool,
                     change: int, restart: nat, now: nat)
    requires SoundAt(table0, types0, {}, exact) && SoundAt(table, types, {}, exact)
    requires RetimedSo(table0, table, k, on, change, restart, now)
    ensures Sorted(table, types[k].timed) && NoDup(types[k].timed) && NoDup(types[k].active)
    ensures forall j :: j in types[k].timed || j in types[k].active <==> j in types0[k].timed || j in types0[k].active
    ensures forall j :: j in types[k].timed && !on ==> !table[j].sysTimer
    ensures forall j :: j in types[k].active && on ==> !table[j].sysTimer
  {
    assert ListsOK(table0, {}, k, types0[k]) && ListsOK(table, {}, k, types[k]);
    forall j | j in table0 && table0[j].kassert == k
      ensures PlaceOf(table[j]) in {Timed, Active} <==> PlaceOf(table0[j]) in {Timed, Active}
    {
    }
  }

  // ---- declaring user and network activity ---------------------------------------------

  /** Seconds a user-activity assertion is given. */
  function DisplaySeconds(minutes: nat): nat {
    (minutes * 60) % TWO_32
  }

  /** Seconds a network-access assertion is given. */
  function IdleSeconds(minutes: nat): nat {
    (minutes * 60) % TWO_64
  }

  /** What a declaration asks for: the time of the setting takes the place of the client's, and the assertion is to
      be released when it is over.  An idle setting of zero (`force` is false for that one) leaves the client's
      time and action.  The limited-power key is nothing to types that count no flags. */
  function Asked(given: Props, secs: nat, force: bool): Props {
    var p := given.(limitedPower := None);
    if force || secs != 0 then p.(timeout := Some(secs as real), action := Some(ReleaseIt)) else p
  }

  /** The request for a new assertion of type `k`. */
  function AskedAnew(q: Request, given: Props, k: TypeId, secs: nat, force: bool): Request {
    var props := Asked(given, secs, force);
    q.(name := Some(Fixed(k)), level := if given.level.Some? then given.level.value else On,
       timeout := if props.timeout.Some? then props.timeout.value else 0.0,
       limitedPower := given.limitedPower == Some(true), onBehalfOf := given.onBehalfOf,
       action := if props.action.Some? then props.action.value else TimeoutAction.TurnOff)
  }

  /** The caller named an assertion of type `k` that it owns. */
  predicate Extends(table: Table, pid: Pid, id: nat, k: TypeId) {
    var i := IndexFromId(id);
    id != 0 && i in table && table[i].pid == pid && table[i].kassert == k
  }

  /** The record of an assertion extended by a declaration.  Its level property is set before anything is refused. */
  function Extended(types: Types, a: Assertion, props: Props, refused: bool, now: nat): Assertion
    requires |types| == TYPE_COUNT
  {
    var b := a.(level := On);
    if refused then b else Updated(types, b, props, a.kassert, now)
  }

  /** An extension does not combine level off with a deadline. */
  predicate Declarable(table: Table, pid: Pid, id: nat, k: TypeId, props: Props) {
    Extends(table, pid, id, k) ==>
        table[IndexFromId(id)].name == Fixed(k) && !(props.level == Some(Off) && props.timeout.Some?)
  }

  lemma PlainType(table: Table, types: Types, limbo: set<Index>, exact: set<TypeId>, k: TypeId)
    requires SoundAt(table, types, limbo, exact) && k in {DECLARE_USER_ACTIVITY, NETWORK_ACCESS}
    ensures !types[k].autoTimed && !types[k].notValidOnBatt && exact - {k} == exact
  {
    SoundConfig(table, types, limbo, exact);
    assert TypeOK(k, types[k]);
    ExactIsCounted(table, types, limbo, exact, k);
  }

  lemma NotTheProxy(e: Engine, i: Index)
    requires e.Inv() && i in e.table && e.table[i].kassert in {DECLARE_USER_ACTIVITY, NETWORK_ACCESS}
    ensures e.proxy != Some(i)
  {
  }

  /** The caller's assertion is switched on and given the time of the setting again. */
  method Extend(e: Engine, pid: Pid, id: nat, k: TypeId, props: Props) returns (ret: IOReturn)
    requires e.Inv() && k in {DECLARE_USER_ACTIVITY, NETWORK_ACCESS} && props.limitedPower.None?
    requires Extends(e.table, pid, id, k) && Declarable(e.table, pid, id, k, props)
    modifies e`table, e`types, e`limbo, e`exact, e`ker, e`overrides, e`agg, e`nextIndex, e`proxy
    ensures e.Inv() && e.exact == old(e.exact) && e.proxy == old(e.proxy)
    ensures var i := IndexFromId(id); var a := old(e.table)[i]; var refused := Refused(e.suspendedPids, a);
            && ret == (if refused then NotPermitted else Success)
            && e.table == old(e.table)[i := Extended(old(e.types), a, props, refused, e.now)]
    ensures AllSameConfig(old(e.types), e.types)
  {
    hide SoundAt, TimersAt, HouseAt, DerivesAt, ViewOf, Handle, Updated, OthersKept, Missed, AllSameConfig;
    var i := IndexFromId(id);
    PlainType(e.table, e.types, e.limbo, e.exact, k);
    NotTheProxy(e, i);
    ghost var table0, exact0 := e.table, e.exact;
    e.Annotate(i, e.table[i].(level := On));
    ghost var table1, types1 := e.table, e.types;
    ret := e.DoSetProperties(pid, id, props, -1);
    SameIsSame(types1);
    NothingMissed(types1, WithProps(table1[i], props, types1[k].notValidOnBatt), PlanFor(table1[i].inactive, props), k,
        exact0);
    UpdateTwice(table0, i, table1[i], e.table[i]);
  }

  /** A new assertion whose deadline follows the setting. */
  method CreateFollowing(e: Engine, pid: Pid, k: TypeId, q: Request) returns (ret: IOReturn, id: nat)
    requires e.Inv() && k in {DECLARE_USER_ACTIVITY, NETWORK_ACCESS} && q.name == Some(Fixed(k)) && q.age <= e.now
    modifies e`table, e`types, e`limbo, e`exact, e`ker, e`overrides, e`agg, e`nextIndex
    ensures e.Inv() && e.exact == old(e.exact)
    ensures ret == if pid in e.suspendedPids then InternalError else if !HasFree(old(e.table)) then NoMemory
              else Success
    ensures ret.Success? ==>
              var i := IndexFromId(id);
              && i !in old(e.table) && i < MAX_ASSERTIONS && id == IdFromIndex(i)
              && e.table == old(e.table)[i := Raised(old(e.types)[k], NewAssertion(pid, Fixed(k), q), k,
                   e.now - q.age).(sysTimer := true)]
    ensures !ret.Success? ==> e.table == old(e.table) && e.types == old(e.types)
    ensures AllSameConfig(old(e.types), e.types)
  {
    hide SoundAt, TimersAt, HouseAt, DerivesAt, ViewOf, Handle, HasFree, Raised, AllSameConfig;
    ghost var table0, types0 := e.table, e.types;
    ret, id := e.DoCreate(pid, q, -1);
    SameIsSame(types0);
    if ret.Success? {
      var i := IndexFromId(id);
      OneConfigured(types0, types0, e.types, k);
      RaisedFacts(types0[k], NewAssertion(pid, Fixed(k), q), k, e.now - q.age, e.powerd);
      NotTheProxy(e, i);
      ghost var table1 := e.table;
      e.Annotate(i, e.table[i].(sysTimer := true));
      UpdateTwice(table0, i, table1[i], e.table[i]);
    }
  }

  /** An assertion of type `k` of the caller, live, with the deadline the setting gives it, to be released then. */
  ghost predicate FreshlyActive(table: Table, i: Index, pid: Pid, k: TypeId, secs: nat) {
    && i in table && table[i].pid == pid && table[i].kassert == k && !table[i].inactive && !table[i].suspended
    && (table[i].timed <==> secs != 0) && (secs != 0 ==> table[i].timeout == table[i].createTime + secs)
    && table[i].action.ReleaseIt?
  }

  lemma DeclaredLive(types: Types, a: Assertion, given: Props, secs: nat, force: bool, now: nat)
    requires |types| == TYPE_COUNT && !types[a.kassert].autoTimed && OneBit(a) && !a.suspended
    requires given.level != Some(Off) && (force || secs != 0)
    ensures var b := Extended(types, a, Asked(given, secs, force), false, now);
            && b.pid == a.pid && b.kassert == a.kassert && !b.inactive && !b.suspended && b.createTime == now
            && (b.timed <==> secs != 0) && (secs != 0 ==> b.timeout == now + secs) && b.action.ReleaseIt?
  {
    hide PlanFor, WithProps;
    var props := Asked(given, secs, force);
    PlanExtend(a.inactive, props);
    WithPropsFacts(a.(level := On), props, types[a.kassert].notValidOnBatt, true);
    WithPropsRead(a.(level := On), props, types[a.kassert].notValidOnBatt);
  }

  lemma PlanExtend(inactive: bool, props: Props)
    requires props.level != Some(Off) && props.timeout.Some?
    ensures PlanFor(inactive, props) == if inactive then Plan.TurnItOn else Plan.Retime
  {
  }

  lemma WithPropsRead(a: Assertion, props: Props, flagged: bool)
    requires props.timeout.Some?
    ensures WithProps(a, props, flagged).askedTimeout == props.timeout.value
    ensures props.action.Some? ==> WithProps(a, props, flagged).action == props.action.value
    ensures !a.level.Off? && props.level != Some(Off) ==> !WithProps(a, props, flagged).level.Off?
  {
  }

  lemma CreatedLive(r: AssertionType, pid: Pid, q: Request, given: Props, k: TypeId, secs: nat, force: bool,
                    created: nat)
    requires !r.autoTimed && given.level != Some(Off) && (force || secs != 0)
    ensures var b := Raised(r, NewAssertion(pid, Fixed(k), AskedAnew(q, given, k, secs, force)), k, created);
            && b.pid == pid && b.kassert == k && !b.inactive && !b.suspended && b.createTime == created
            && (b.timed <==> secs != 0) && (secs != 0 ==> b.timeout == created + secs) && b.action.ReleaseIt?
  {
  }

  lemma Unsuspended(e: Engine, i: Index)
    requires e.Inv() && i in e.table
    ensures OneBit(e.table[i]) && (e.table[i].suspended ==> Refused(e.suspendedPids, e.table[i]))
  {
    InItsList(e.table, e.types, e.limbo, e.exact, i);
    assert e.suspendedPids + e.suspending == e.suspendedPids;
    hide SoundAt, TimersAt, DerivesAt;
  }

  /** Result of a declaration: the assertion named is extended or refused; without one, a new one is created
      with the system-timed mark, or nothing changes. */
  ghost predicate DeclaredSo(table0: Table, types0: Types, table: Table, suspendedPids: set<Pid>, now: nat, pid: Pid,
                             id: nat, k: TypeId,
                             q: Request, given: Props, secs: nat, force: bool, ret: IOReturn, id': nat)
  {
    |types0| == TYPE_COUNT &&
    if Extends(table0, pid, id, k) then
      var i := IndexFromId(id); var refused := Refused(suspendedPids, table0[i]);
      && ret == (if refused then NotPermitted else Success) && id' == id
      && table == table0[i := Extended(types0, table0[i], Asked(given, secs, force), refused,
           now)]
    else if pid in suspendedPids then ret == InternalError && table == table0
    else if !HasFree(table0) then ret == NoMemory && table == table0
    else
      var i := IndexFromId(id');
      && ret == Success && i !in table0 && i < MAX_ASSERTIONS && id' == IdFromIndex(i) && q.age <= now
      && table == table0[i := Raised(types0[k], NewAssertion(pid, Fixed(k), AskedAnew(q, given, k, secs, force)), k,
           now - q.age).(sysTimer := true)]
  }

  /** Extend the caller's assertion, or create one whose deadline follows the setting. */
  method Declare(e: Engine, pid: Pid, id: nat, k: TypeId, q: Request, given: Props, secs: nat, force: bool)
      returns (ret: IOReturn, id': nat)
    requires e.Inv() && k in {DECLARE_USER_ACTIVITY, NETWORK_ACCESS} && q.age <= e.now
    requires Declarable(e.table, pid, id, k, Asked(given, secs, force))
    modifies e`table, e`types, e`limbo, e`exact, e`ker, e`overrides, e`agg, e`nextIndex, e`proxy
    ensures e.Inv() && e.exact == old(e.exact) && e.proxy == old(e.proxy) && AllSameConfig(old(e.types), e.types)
    ensures DeclaredSo(old(e.table), old(e.types), e.table, e.suspendedPids, e.now, pid, id, k, q, given, secs, force,
              ret, id')
    ensures ret.Success? && given.level != Some(Off) && (force || secs != 0) ==>
              FreshlyActive(e.table, IndexFromId(id'), pid, k, secs)
  {
    hide SoundAt, TimersAt, HouseAt, DerivesAt, ViewOf, Handle, HasFree, Raised, Extended, AllSameConfig;
    ghost var table0, types0 := e.table, e.types;
    PlainType(e.table, e.types, e.limbo, e.exact, k);
    var found, i := e.LookupAssertion(pid, id);
    if id != 0 && found.Success? && e.table[i].kassert == k {
      Unsuspended(e, i);
      ret := Extend(e, pid, id, k, Asked(given, secs, force));
      if given.level != Some(Off) && (force || secs != 0) && ret.Success? {
        DeclaredLive(types0, table0[i], given, secs, force, e.now);
      }
      return ret, id;
    }
    ret, id' := CreateFollowing(e, pid, k, AskedAnew(q, given, k, secs, force));
    if given.level != Some(Off) && (force || secs != 0) {
      CreatedLive(types0[k], pid, q, given, k, secs, force, e.now - q.age);
    }
  }

  /** _io_pm_declare_user_active: the deadline is the display setting's, none when that is zero. */
  method DeclareUserActive(e: Engine, pid: Pid, id: nat, q: Request, given: Props) returns (ret: IOReturn, id': nat)
    requires e.Inv() && q.age <= e.now
    requires Declarable(e.table, pid, id, DECLARE_USER_ACTIVITY, Asked(given, DisplaySeconds(e.displayTimer), true))
    modifies e`table, e`types, e`limbo, e`exact, e`ker, e`overrides, e`agg, e`nextIndex, e`proxy
    ensures e.Inv() && e.exact == old(e.exact) && e.proxy == old(e.proxy) && AllSameConfig(old(e.types), e.types)
    ensures DeclaredSo(old(e.table), old(e.types), e.table, e.suspendedPids, e.now, pid, id, DECLARE_USER_ACTIVITY, q,
              given,
                       DisplaySeconds(e.displayTimer), true, ret, id')
    ensures ret.Success? && given.level != Some(Off) ==>
              FreshlyActive(e.table, IndexFromId(id'), pid, DECLARE_USER_ACTIVITY, DisplaySeconds(e.displayTimer))
  {
    hide SoundAt, TimersAt, HouseAt, DerivesAt, DeclaredSo, AllSameConfig, FreshlyActive, Extends;
    var secs := DisplaySeconds(e.displayTimer);
    ret, id' := Declare(e, pid, id, DECLARE_USER_ACTIVITY, q, given, secs, true);
  }

  /** _io_pm_declare_network_client_active: the deadline is the idle setting's, the client's when that is zero. */
  method DeclareNetworkClient(e: Engine, pid: Pid, id: nat, q: Request, given: Props) returns (ret: IOReturn, id': nat)
    requires e.Inv() && q.age <= e.now
    requires Declarable(e.table, pid, id, NETWORK_ACCESS, Asked(given, IdleSeconds(e.idleTimer), false))
    modifies e`table, e`types, e`limbo, e`exact, e`ker, e`overrides, e`agg, e`nextIndex, e`proxy
    ensures e.Inv() && e.exact == old(e.exact) && e.proxy == old(e.proxy) && AllSameConfig(old(e.types), e.types)
    ensures DeclaredSo(old(e.table), old(e.types), e.table, e.suspendedPids, e.now, pid, id, NETWORK_ACCESS, q, given,
                       IdleSeconds(e.idleTimer), false, ret, id')
    ensures ret.Success? && given.level != Some(Off) && IdleSeconds(e.idleTimer) != 0 ==>
              FreshlyActive(e.table, IndexFromId(id'), pid, NETWORK_ACCESS, IdleSeconds(e.idleTimer))
  {
    hide SoundAt, TimersAt, HouseAt, DerivesAt, DeclaredSo, AllSameConfig, FreshlyActive, Extends;
    var secs := IdleSeconds(e.idleTimer);
    ret, id' := Declare(e, pid, id, NETWORK_ACCESS, q, given, secs, false);
  }
}
