/**
 handleAssertionSuspend and handleAssertionResume: the assertions a process owns, or that were
 raised on its behalf, leave their lists for the suspended list of their type and come back.
 */
module Suspension {
  import opened Common
  import opened EffectMirror
  import opened AssertionLists
  import opened AssertionEngine
  import ProcessExit

  /** What a suspension of the process takes. */
  ghost function Taken(table: Table, pid: Pid): set<Index> {
    set i | i in table && !table[i].suspended && Concerns(table[i], pid)
  }

  /** What a resumption of the process brings back. */
  ghost function Held(table: Table, pid: Pid): set<Index> {
    set i | i in table && table[i].suspended && Concerns(table[i], pid)
  }

  /** The assertions in `done` were suspended at time `now`; nothing else changed but powerd's proxy. */
  ghost predicate SuspendedSo(table0: Table, table: Table, done: set<Index>, now: nat, proxy: Option<Index>) {
    && (forall j :: j in done ==> j in table0 && j in table && table[j] == SuspendedForm(table0[j], now))
    && (forall j :: j !in done && proxy != Some(j) ==>
         (j in table <==> j in table0) && (j in table ==> table[j] == table0[j]))
    && (proxy.Some? ==> proxy.value !in done)
  }

  /** The assertions in `done` were resumed at time `now`; nothing else changed. */
  ghost predicate ResumedSo(table0: Table, table: Table, done: set<Index>, now: nat) {
    && table.Keys == table0.Keys && done <= table.Keys
    && forall j :: j in table ==> table[j] == if j in done then ResumedForm(table0[j], now) else table0[j]
  }

  ghost predicate NoneFreeBelow(table: Table, t: nat, pid: Pid) {
    forall j :: j in table && table[j].kassert < t && Concerns(table[j], pid) ==> table[j].suspended
  }

  ghost predicate NoneHeldBelow(table: Table, t: nat, pid: Pid) {
    forall j :: j in table && table[j].kassert < t && Concerns(table[j], pid) ==> !table[j].suspended
  }

  lemma SuspendedSoStep(table0: Table, types1: Types, table1: Table, done: set<Index>, now: nat, proxy1: Option<Index>,
                        table: Table, types: Types, proxy: Option<Index>, k: TypeId, i: Index, pid: Pid)
    requires SuspendedSo(table0, table1, done, now, proxy1) && done <= Taken(table0, pid)
    requires proxy1.Some? ==> proxy1.value in table1 && proxy1.value !in Taken(table0, pid)
    requires i in table1 && !table1[i].suspended && proxy1 != Some(i) && Concerns(table1[i], pid)
    requires SuspendStep(table1, types1, proxy1, table, types, proxy, k, i, now)
               && (proxy.Some? ==> proxy.value in table)
    ensures i !in done && SuspendedSo(table0, table, done + {i}, now, proxy) && done + {i} <= Taken(table0, pid)
    ensures proxy.Some? ==> proxy.value !in Taken(table0, pid)
  {
    assert proxy1.None? && proxy.Some? ==> proxy.value !in table0;
  }

  /** The state before the suspension. */
  datatype Start = Start(table: Table, types: Types, exact: set<TypeId>, proxy: Option<Index>, can: bool)

  /** One of the assertions in `done` is a client's display assertion that was not switched off. */
  ghost predicate DisplayAmong(table: Table, done: set<Index>, powerd: Pid) {
    exists j :: j in done && j in table && table[j].kassert == PREVENT_DISPLAY_SLEEP && !table[j].inactive
        && table[j].pid != powerd
  }

  /** The display is handed over as soon as one of those is suspended, and not before. */
  ghost predicate Handed(e: Engine, s: Start, done: set<Index>)
    reads e
  {
    && (s.can ==> e.CanHandOff()) && (s.can && DisplayAmong(s.table, done, e.powerd) ==> e.HandedOff())
    && ProcessExit.Quiet(DisplayAmong(s.table, done, e.powerd), s.proxy, s.table, e.proxy, e.table)
  }

  lemma DisplayAmongStep(table0: Table, table: Table, done: set<Index>, now: nat, proxy: Option<Index>, powerd: Pid,
                         i: Index,
                         k: TypeId, pid: Pid)
    requires SuspendedSo(table0, table, done, now, proxy) && done <= Taken(table0, pid) && proxy != Some(i)
    requires i in table && !table[i].suspended && table[i].kassert == k
    ensures DisplayAmong(table0, done + {i}, powerd) <==>
              DisplayAmong(table0, done, powerd)
              || (k == PREVENT_DISPLAY_SLEEP && !table[i].inactive && table[i].pid != powerd)
  {
    assert i !in done && i in done + {i};
    if DisplayAmong(table0, done, powerd) {
      var j :| j in done && j in table0 && table0[j].kassert == PREVENT_DISPLAY_SLEEP && !table0[j].inactive
               && table0[j].pid != powerd;
      assert j in done + {i};
    }
    if DisplayAmong(table0, done + {i}, powerd) && !DisplayAmong(table0, done, powerd) {
      var j :| j in done + {i} && j in table0 && table0[j].kassert == PREVENT_DISPLAY_SLEEP && !table0[j].inactive
               && table0[j].pid != powerd;
      assert j == i;
    }
  }

  /** No type was configured differently, and a proxy raised meanwhile took nobody's place. */
  ghost predicate Apart(s: Start, types: Types, proxy: Option<Index>) {
    AllSameConfig(s.types, types) && ProxyFrom(s.proxy, proxy, s.table.Keys)
  }

  lemma ApartStep(s: Start, done: set<Index>, now: nat, table1: Table, types1: Types, proxy1: Option<Index>,
                  table: Table, types: Types, proxy: Option<Index>, k: TypeId, i: Index)
    requires Apart(s, types1, proxy1) && SuspendedSo(s.table, table1, done, now, proxy1)
    requires proxy1.Some? ==> proxy1.value in table1
    requires SuspendStep(table1, types1, proxy1, table, types, proxy, k, i, now)
    ensures Apart(s, types, proxy)
  {
    assert s.table.Keys <= table1.Keys;
  }

  /** State while the lists of type `k` are walked. */
  ghost predicate Suspending(e: Engine, k: TypeId, pid: Pid, s: Start, done: set<Index>)
    reads e
  {
    && e.Base(k) && e.Ready(k, Release) && e.limbo == {} && e.suspending == {pid} && pid != e.powerd && pid != 0
    && e.exact == s.exact
    && SuspendedSo(s.table, e.table, done, e.now, e.proxy) && done <= Taken(s.table, pid)
    && (e.proxy.Some? ==> e.proxy.value !in Taken(s.table, pid)) && Apart(s, e.types, e.proxy) && Handed(e, s, done)
  }

  lemma CursorFacts(e: Engine, k: TypeId, p: Place, i: Index, pid: Pid, s: Start, done: set<Index>)
    requires Suspending(e, k, pid, s, done) && i in e.types[k].ListAt(p) && p != Suspended
    ensures i in e.table && e.table[i].kassert == k && !e.table[i].suspended && NoDup(e.types[k].ListAt(p))
    ensures i in Taken(s.table, pid) <==> Concerns(e.table[i], pid)
    ensures e.proxy == Some(i) ==> !Concerns(e.table[i], pid)
    ensures forall q :: e.types[k].Unlinked(i).ListAt(q) == if q == p then Without(e.types[k].ListAt(p), i)
              else e.types[k].ListAt(q)
  {
    hide TimersAt, DerivesAt, ReadyAt, Without;
    assert ListsOK(e.table, e.limbo, k, e.types[k]);
    hide SoundAt;
    ProcessExit.AtCursor(e.table, e.types, e.limbo, e.exact, k, p, i);
  }

  /** The callback of the suspension walk. */
  method SuspendIfConcerned(e: Engine, k: TypeId, p: Place, i: Index, pid: Pid, ghost s: Start, ghost done: set<Index>)
    returns (ghost done': set<Index>)
    requires Suspending(e, k, pid, s, done) && i in e.types[k].ListAt(p) && p != Suspended
    modifies e`table, e`types, e`limbo, e`exact, e`ker, e`overrides, e`agg, e`nextIndex, e`proxy
    ensures Suspending(e, k, pid, s, done') && done <= done'
    ensures forall q :: q != Suspended ==>
              e.types[k].ListAt(q) == if q == p && i in Taken(s.table, pid) then Without(old(e.types)[k].ListAt(p), i)
              else old(e.types)[k].ListAt(q)
    ensures OthersSame(old(e.types), e.types, k)
  {
    hide SoundAt, TimersAt, HouseAt, DerivesAt, ReadyAt, ViewOf, Handle, Without, SuspendStep, SuspendedSo, Taken,
         Apart, DisplayAmong, HasFree, ProcessExit.Quiet;
    done' := done;
    CursorFacts(e, k, p, i, pid, s, done);
    ProxyFacts(e.table, e.limbo, e.suspendedPids + e.suspending, e.proxy, e.powerd, e.nextIndex);
    if e.table[i].pid == pid || e.table[i].causing == pid {
      ghost var table1, types1, proxy1 := e.table, e.types, e.proxy;
      e.SuspendAssertion(i, k);
      ProxyFacts(e.table, e.limbo, e.suspendedPids + e.suspending, e.proxy, e.powerd, e.nextIndex);
      SuspendedSoStep(s.table, types1, table1, done, e.now, proxy1, e.table, e.types, e.proxy, k, i, pid);
      ApartStep(s, done, e.now, table1, types1, proxy1, e.table, e.types, e.proxy, k, i);
      DisplayAmongStep(s.table, table1, done, e.now, proxy1, e.powerd, i, k, pid);
      ProcessExit.QuietStep(DisplayAmong(s.table, done, e.powerd), DisplayAmong(s.table, done + {i}, e.powerd), s.proxy,
          s.table, proxy1, table1, e.proxy, e.table, i);
      SuspendStepLists(table1, types1, proxy1, e.table, e.types, e.proxy, k, i, e.now);
      done' := done + {i};
    }
  }

  lemma SuspendStepLists(table0: Table, types0: Types, proxy0: Option<Index>, table: Table, types: Types,
                         proxy: Option<Index>,
                         k: TypeId, i: Index, now: nat)
    requires SuspendStep(table0, types0, proxy0, table, types, proxy, k, i, now)
    ensures OthersSame(types0, types, k)
    ensures forall q :: q != Suspended ==> types[k].ListAt(q) == types0[k].Unlinked(i).ListAt(q)
  {
  }

  /** A walk of list `p` of type `k` that started from `types0` stands at `cur`. */
  ghost predicate Along(e: Engine, k: TypeId, p: Place, pid: Pid, s: Start, types0: Types, seen: nat,
                        cur: Option<Index>, done: set<Index>)
    reads e
  {
    && Suspending(e, k, pid, s, done) && p != Suspended
    && OthersSame(types0, e.types, k)
    && StandsAt(types0[k].ListAt(p), e.types[k].ListAt(p), seen, cur, Taken(s.table, pid))
    && (forall q :: q != p && q != Suspended ==> e.types[k].ListAt(q) == types0[k].ListAt(q))
    && seen <= |types0[k].ListAt(p)| && (seen == |types0[k].ListAt(p)| ==> cur.None?)
  }

  method Advance(e: Engine, k: TypeId, p: Place, i: Index, pid: Pid, ghost s: Start, ghost types0: Types,
                 ghost seen: nat,
                 ghost done: set<Index>) returns (next: Option<Index>, ghost done': set<Index>)
    requires Along(e, k, p, pid, s, types0, seen, Some(i), done)
    modifies e`table, e`types, e`limbo, e`exact, e`ker, e`overrides, e`agg, e`nextIndex, e`proxy
    ensures Along(e, k, p, pid, s, types0, seen + 1, next, done') && done <= done'
  {
    hide SoundAt, TimersAt, DerivesAt, HouseAt, ReadyAt, ViewOf, Handle, Without, StandsAt, Except, NextIn, Taken,
         First, SuspendedSo, NoDup, ConfigOK, AllSameConfig;
    ListFacts(e, k, p);
    StandsAtStep(types0[k].ListAt(p), e.types[k].ListAt(p), seen, i, Taken(s.table, pid));
    next := NextIn(e.types[k].ListAt(p), i);
    ghost var types1 := e.types;
    done' := SuspendIfConcerned(e, k, p, i, pid, s, done);
    OthersSameTwice(types0, types1, e.types, k);
    StandsAtLast(types0[k].ListAt(p), e.types[k].ListAt(p), seen + 1, next, Taken(s.table, pid));
  }

  lemma ListFacts(e: Engine, k: TypeId, p: Place)
    requires e.Sound()
    ensures NoDup(e.types[k].ListAt(p))
  {
    assert ListsOK(e.table, e.limbo, k, e.types[k]);
  }

  /** One list of type `k`, walked from its head. */
  method WalkList(e: Engine, k: TypeId, p: Place, head: Option<Index>, pid: Pid, ghost s: Start, ghost done: set<Index>)
    returns (ghost done': set<Index>)
    requires Suspending(e, k, pid, s, done) && p != Suspended && head == First(e.types[k].ListAt(p))
    modifies e`table, e`types, e`limbo, e`exact, e`ker, e`overrides, e`agg, e`nextIndex, e`proxy
    ensures Suspending(e, k, pid, s, done') && done <= done'
    ensures forall q :: q != Suspended ==>
              e.types[k].ListAt(q) == if q == p then Except(old(e.types)[k].ListAt(p), Taken(s.table, pid))
              else old(e.types)[k].ListAt(q)
    ensures OthersSame(old(e.types), e.types, k)
  {
    hide SoundAt, TimersAt, DerivesAt, HouseAt, ReadyAt, ViewOf, Handle, StandsAt, Except, Taken, First, SuspendedSo;
    done' := done;
    var cur := head;
    ghost var types0, seen := e.types, 0;
    StandsAtStart(e.types[k].ListAt(p), Taken(s.table, pid));
    StandsAtLast(e.types[k].ListAt(p), e.types[k].ListAt(p), 0, head, Taken(s.table, pid));
    while cur.Some?
      invariant Along(e, k, p, pid, s, types0, seen, cur, done') && done <= done'
      decreases |types0[k].ListAt(p)| - seen
    {
      cur, done' := Advance(e, k, p, cur.value, pid, s, types0, seen, done');
      seen := seen + 1;
    }
    StandsAtEnd(types0[k].ListAt(p), e.types[k].ListAt(p), seen, Taken(s.table, pid));
  }

  /** The lists that are walked, from heads read before the first callback runs. */
  method WalkHeads(e: Engine, k: TypeId, heads: Place -> Option<Index>, pid: Pid, ghost s: Start,
                   ghost done: set<Index>)
    returns (ghost done': set<Index>)
    requires Suspending(e, k, pid, s, done)
    requires forall q :: heads(q) == First(e.types[k].ListAt(q))
    modifies e`table, e`types, e`limbo, e`exact, e`ker, e`overrides, e`agg, e`nextIndex, e`proxy
    ensures Suspending(e, k, pid, s, done') && done <= done'
    ensures forall q :: q != Suspended ==>
              e.types[k].ListAt(q) == Except(old(e.types)[k].ListAt(q), Taken(s.table, pid))
    ensures OthersSame(old(e.types), e.types, k)
  {
    hide Suspending, SoundAt, TimersAt, DerivesAt, HouseAt, ReadyAt, Except, First, OthersSame, Taken;
    ghost var types0 := e.types;
    done' := WalkList(e, k, Timed, heads(Timed), pid, s, done);
    ghost var types1 := e.types;
    done' := WalkList(e, k, Active, heads(Active), pid, s, done');
    ghost var types2 := e.types;
    done' := WalkList(e, k, Inactive, heads(Inactive), pid, s, done');
    OthersSameTwice(types0, types1, types2, k);
    OthersSameTwice(types0, types2, e.types, k);
  }

  /** State between types. */
  ghost predicate SuspendedTo(e: Engine, t: nat, pid: Pid, s: Start, done: set<Index>)
    reads e
  {
    && e.Base(-1) && e.limbo == {} && e.suspending == {pid} && pid != e.powerd && pid != 0 && e.exact == s.exact
    && SuspendedSo(s.table, e.table, done, e.now, e.proxy) && done <= Taken(s.table, pid)
    && (e.proxy.Some? ==> e.proxy.value !in Taken(s.table, pid)) && Apart(s, e.types, e.proxy) && Handed(e, s, done)
    && NoneFreeBelow(e.table, t, pid)
  }

  lemma StartWalk(e: Engine, k: TypeId, pid: Pid, s: Start, done: set<Index>)
    requires SuspendedTo(e, k, pid, s, done)
    ensures Suspending(e, k, pid, s, done)
  {
    hide SoundAt, TimersAt, DerivesAt, ReadyAt, HouseAt, SuspendedSo, ViewOf, Handle;
    e.MirrorReady(k, Release);
  }

  lemma DoneOrSame(table0: Table, table: Table, done: set<Index>, now: nat, proxy: Option<Index>, j: Index, pid: Pid)
    requires SuspendedSo(table0, table, done, now, proxy) && j in table && proxy != Some(j)
    ensures table[j].suspended || (j !in done && j in table0 && table[j] == table0[j]
              && (Concerns(table[j], pid) ==> j in Taken(table0, pid)))
  {
  }

  lemma NotDoneSame(table0: Table, table: Table, done: set<Index>, now: nat, proxy: Option<Index>, j: Index)
    requires SuspendedSo(table0, table, done, now, proxy) && j !in done && j in table0 && proxy != Some(j)
    ensures j in table && table[j] == table0[j]
  {
  }

  /** Once its lists are filtered, no assertion of type `k` that concerns the process is free any more. */
  lemma AllWalked(e: Engine, k: TypeId, pid: Pid, s: Start, done: set<Index>, types0: Types,
                  table1: Table, done1: set<Index>, proxy1: Option<Index>)
    requires Suspending(e, k, pid, s, done) && |types0| == TYPE_COUNT
    requires forall q :: q != Suspended ==> e.types[k].ListAt(q) == Except(types0[k].ListAt(q), Taken(s.table, pid))
    requires SuspendedSo(s.table, table1, done1, e.now, proxy1) && done1 <= done && NoneFreeBelow(table1, k, pid)
    requires proxy1.Some? ==> proxy1.value !in Taken(s.table, pid)
    ensures NoneFreeBelow(e.table, k + 1, pid)
  {
    hide SoundAt, TimersAt, DerivesAt, ReadyAt, SuspendedSo, HouseAt, Taken, IsProxy;
    forall j | j in e.table && e.table[j].kassert < k + 1 && Concerns(e.table[j], pid) ensures e.table[j].suspended {
      ProxyConcerns(e, j, pid);
      DoneOrSame(s.table, e.table, done, e.now, e.proxy, j, pid);
      if !e.table[j].suspended && e.table[j].kassert < k {
        NotDoneSame(s.table, table1, done1, e.now, proxy1, j);
      }
      ProcessExit.OnSomeList(e.table, e.types, e.limbo, e.exact, j);
    }
  }

  lemma ProxyConcerns(e: Engine, j: Index, pid: Pid)
    requires e.House() && j in e.table && pid != e.powerd && pid != 0
    ensures Concerns(e.table[j], pid) ==> e.proxy != Some(j)
  {
  }

  method SuspendType(e: Engine, k: TypeId, pid: Pid, ghost s: Start, ghost done: set<Index>)
      returns (ghost done': set<Index>)
    requires SuspendedTo(e, k, pid, s, done)
    modifies e`table, e`types, e`limbo, e`exact, e`ker, e`overrides, e`agg, e`nextIndex, e`proxy
    ensures SuspendedTo(e, k + 1, pid, s, done')
  {
    hide SoundAt, TimersAt, DerivesAt, HouseAt, ReadyAt, Except, OthersSame, ViewOf, Handle, SuspendedSo, Taken,
         NoneFreeBelow;
    var r := e.types[k];
    ghost var types0, table1, proxy1 := e.types, e.table, e.proxy;
    StartWalk(e, k, pid, s, done);
    done' := WalkHeads(e, k, p => First(r.ListAt(p)), pid, s, done);
    AllWalked(e, k, pid, s, done', types0, table1, done, proxy1);
    ReleaseIsEval(e.types, e.onBatt, e.DerivedState(), k);
    e.FinishHandler(k, Eval);
  }

  lemma ReleaseIsEval(types: Types, onBatt: bool, d: Derived, k: TypeId)
    requires ReadyAt(types, onBatt, d, k, Release)
    ensures ReadyAt(types, onBatt, d, k, Eval)
  {
  }

  /** A known process that is not suspended yet is suspended: everything that concerns it is set aside with the
      time it had left, and no other assertion changes, except that powerd's proxy may be raised for the display. */
  method HandleSuspend(e: Engine, pid: Pid, known: bool)
    requires e.Inv() && pid != e.powerd && pid != 0
    modifies e`table, e`types, e`limbo, e`exact, e`ker, e`overrides, e`agg, e`nextIndex, e`proxy, e`suspendedPids,
        e`suspending
    ensures e.Inv() && e.exact == old(e.exact)
    ensures !known || pid in old(e.suspendedPids) ==> e.table == old(e.table) && e.suspendedPids == old(e.suspendedPids)
    ensures known && pid !in old(e.suspendedPids) ==>
              && e.suspendedPids == old(e.suspendedPids) + {pid}
              && SuspendedSo(old(e.table), e.table, Taken(old(e.table), pid), e.now, e.proxy)
    ensures ProxyFrom(old(e.proxy), e.proxy, old(e.table).Keys) && AllSameConfig(old(e.types), e.types)
    ensures known && pid !in old(e.suspendedPids) && old(e.CanHandOff()) ==>
              DisplayAmong(old(e.table), Taken(old(e.table), pid), e.powerd) ==> e.HandedOff()
    ensures !known || pid in old(e.suspendedPids) ==> e.proxy == old(e.proxy)
    ensures known && pid !in old(e.suspendedPids) ==>
              ProcessExit.Quiet(DisplayAmong(old(e.table), Taken(old(e.table), pid), e.powerd), old(e.proxy),
                  old(e.table), e.proxy, e.table)
  {
    hide SoundAt, TimersAt, DerivesAt, HouseAt, ReadyAt, ViewOf, Handle, SuspendedSo, Taken, NoneFreeBelow,
         AllSameConfig;
    SameIsSame(e.types);
    if !known || pid in e.suspendedPids { return; }
    ghost var s, done := Start(e.table, e.types, e.exact, e.proxy, e.CanHandOff()), {};
    BeforeSuspend(e, pid);
    e.suspending := {pid};
    for t := 0 to TYPE_COUNT
      invariant SuspendedTo(e, t, pid, s, done) && e.suspendedPids == old(e.suspendedPids)
    {
      done := SuspendType(e, t, pid, s, done);
    }
    AllTaken(e.table, s.table, done, e.now, e.proxy, pid);
    e.suspendedPids := e.suspendedPids + {pid};
    e.suspending := {};
    assert e.suspendedPids + e.suspending == e.suspendedPids;
  }

  lemma BeforeSuspend(e: Engine, pid: Pid)
    requires e.Inv() && pid != e.powerd && pid != 0
    ensures HouseAt(e.table, e.limbo, e.suspendedPids + {pid}, e.proxy, e.powerd, e.nextIndex)
    ensures SuspendedSo(e.table, e.table, {}, e.now, e.proxy) && NoneFreeBelow(e.table, 0, pid)
    ensures e.proxy.Some? ==> e.proxy.value in e.table && e.proxy.value !in Taken(e.table, pid)
  {
    hide SoundAt, TimersAt, DerivesAt;
  }

  lemma AllTaken(table: Table, table0: Table, done: set<Index>, now: nat, proxy: Option<Index>, pid: Pid)
    requires SuspendedSo(table0, table, done, now, proxy) && done <= Taken(table0, pid)
               && NoneFreeBelow(table, TYPE_COUNT, pid)
    requires proxy.Some? ==> proxy.value !in Taken(table0, pid)
    ensures done == Taken(table0, pid)
  {
  }

  // ---- resuming ------------------------------------------------------------------------

  /** The types that keep assertions out on battery now. */
  ghost function Flagged(types: Types): (r: set<TypeId>)
    requires |types| == TYPE_COUNT
    ensures forall t: TypeId :: t in r <==> types[t].notValidOnBatt
  {
    set t: TypeId | types[t].notValidOnBatt
  }

  /** The types whose counter misses one of the assertions in `done` when these are resumed. */
  ghost function LostBy(table: Table, flagged: set<TypeId>, done: set<Index>): (r: set<TypeId>)
    ensures forall t: TypeId :: t in r <==>
              t !in flagged && exists j ::
                  j in done && j in table && table[j].kassert == t && !table[j].level.Off? && table[j].validOnBatt
  {
    set t: TypeId | t !in flagged && exists j ::
        j in done && j in table && table[j].kassert == t && !table[j].level.Off? && table[j].validOnBatt
  }

  lemma LostByStep(table: Table, types: Types, exact: set<TypeId>, done: set<Index>, i: Index)
    requires |types| == TYPE_COUNT && i in table
    ensures exact - LostBy(table, Flagged(types), done) - MissedOnResume(types[table[i].kassert], table[i])
         == exact - LostBy(table, Flagged(types), done + {i})
  {
    var f, k := Flagged(types), table[i].kassert;
    forall t: TypeId
      ensures t in LostBy(table, f, done + {i}) <==>
                t in LostBy(table, f, done) || t in MissedOnResume(types[k], table[i])
    {
      if t in LostBy(table, f, done) {
        var j :| j in done && j in table && table[j].kassert == t && !table[j].level.Off? && table[j].validOnBatt;
        assert j in done + {i};
      }
      if t in MissedOnResume(types[k], table[i]) {
        assert i in done + {i};
      }
    }
  }

  lemma NothingLost(table: Table, flagged: set<TypeId>, exact: set<TypeId>)
    ensures exact - LostBy(table, flagged, {}) == exact
  {
    assert LostBy(table, flagged, {}) == {};
  }

  /** The counters of types that count no flags stay. */
  ghost predicate UnflaggedKept(first: Types, types: Types) {
    |first| == |types| == TYPE_COUNT && forall t: TypeId :: !first[t].notValidOnBatt ==>
        types[t].validCnt == first[t].validCnt
  }

  lemma UnflaggedStep(first: Types, types1: Types, types: Types, k: TypeId, a: Assertion)
    requires UnflaggedKept(first, types1) && AllSameConfig(first, types1) && |types| == TYPE_COUNT
               && types == types1[k := types[k]]
    requires types[k].validCnt == if a.level.Off? then types1[k].validCnt else types1[k].MoreValid(a).validCnt
    ensures UnflaggedKept(first, types)
  {
  }

  lemma FlagsKept(first: Types, types: Types)
    requires AllSameConfig(first, types)
    ensures Flagged(types) == Flagged(first)
  {
    assert forall t: TypeId :: types[t].notValidOnBatt == first[t].notValidOnBatt;
  }

  /** State while the suspended list of type `k` is walked. */
  ghost predicate Resuming(e: Engine, k: TypeId, pid: Pid, table0: Table, exact0: set<TypeId>, first: Types,
                           done: set<Index>)
    reads e
  {
    && e.Base(k) && e.limbo == {} && e.suspending == {}
    && |first| == TYPE_COUNT && e.exact == exact0 - LostBy(table0, Flagged(first), done)
    && AllSameConfig(first, e.types) && UnflaggedKept(first, e.types)
    && ResumedSo(table0, e.table, done, e.now) && done <= Held(table0, pid)
  }

  lemma ResumedSoStep(table0: Table, table1: Table, done: set<Index>, now: nat, i: Index, pid: Pid)
    requires ResumedSo(table0, table1, done, now) && done <= Held(table0, pid)
    requires i in table1 && table1[i].suspended && Concerns(table1[i], pid)
    ensures i in table0 && !ResumedForm(table1[i], now).suspended && table1[i] == table0[i]
    ensures ResumedSo(table0, table1[i := ResumedForm(table1[i], now)], done + {i}, now)
              && done + {i} <= Held(table0, pid)
  {
    ResumedFree(now);
    hide ResumedForm;
  }

  lemma ResumedFree(now: nat)
    ensures forall a: Assertion :: !ResumedForm(a, now).suspended
  {
  }

  lemma HeldFacts(e: Engine, k: TypeId, i: Index, pid: Pid, table0: Table, exact0: set<TypeId>, first: Types,
                  done: set<Index>)
    requires Resuming(e, k, pid, table0, exact0, first, done) && i in e.types[k].suspended
    ensures i in e.table && e.table[i].kassert == k && e.table[i].suspended && e.proxy != Some(i)
    ensures i in Held(table0, pid) <==> Concerns(e.table[i], pid)
  {
    hide TimersAt, DerivesAt;
    ResumedFree(e.now);
    hide ResumedForm;
    assert ListsOK(e.table, e.limbo, k, e.types[k]);
  }

  /** The callback of the resumption walk. */
  method ResumeIfConcerned(e: Engine, k: TypeId, i: Index, pid: Pid, ghost table0: Table, ghost exact0: set<TypeId>,
                           ghost first: Types, ghost done: set<Index>)
    returns (ghost done': set<Index>)
    requires Resuming(e, k, pid, table0, exact0, first, done) && i in e.types[k].suspended
    modifies e`table, e`types, e`limbo, e`exact
    ensures Resuming(e, k, pid, table0, exact0, first, done') && done <= done'
    ensures e.types == old(e.types)[k := e.types[k]]
    ensures e.types[k].suspended == if i in Held(table0, pid) then Without(old(e.types)[k].suspended, i)
              else old(e.types)[k].suspended
  {
    hide SoundAt, TimersAt, HouseAt, DerivesAt, ReadyAt, ViewOf, Handle, Without, ResumedSo, Held, ConfigOK,
         ResumedForm, LostBy, Flagged, AllSameConfig, MissedOnResume;
    done' := done;
    HeldFacts(e, k, i, pid, table0, exact0, first, done);
    if e.table[i].pid == pid || e.table[i].causing == pid {
      ghost var table1, types1 := e.table, e.types;
      SoundConfig(e.table, e.types, e.limbo, e.exact);
      ResumedSoStep(table0, e.table, done, e.now, i, pid);
      FlagsKept(first, e.types);
      LostByStep(table0, e.types, exact0, done, i);
      e.ResumeAssertion(i, k);
      OneConfigured(first, types1, e.types, k);
      UnflaggedStep(first, types1, e.types, k, table1[i]);
      SoundConfig(e.table, e.types, e.limbo, e.exact);
      BecomesPending(types1, e.types, e.onBatt, e.DerivedState(), k);
      HouseStep(table1, e.table, e.limbo, e.suspendedPids + e.suspending, e.proxy, e.powerd, e.nextIndex, i);
      done' := done + {i};
    }
  }

  /** A walk of the suspended list of type `k` that started from `types0` stands at `cur`. */
  ghost predicate AlongHeld(e: Engine, k: TypeId, pid: Pid, table0: Table, exact0: set<TypeId>, first: Types,
                            types0: Types, seen: nat, cur: Option<Index>, done: set<Index>)
    reads e
  {
    && Resuming(e, k, pid, table0, exact0, first, done) && |types0| == TYPE_COUNT && e.types == types0[k := e.types[k]]
    && StandsAt(types0[k].suspended, e.types[k].suspended, seen, cur, Held(table0, pid))
    && seen <= |types0[k].suspended| && (seen == |types0[k].suspended| ==> cur.None?)
  }

  lemma SuspendedListFacts(e: Engine, k: TypeId, pid: Pid, table0: Table, exact0: set<TypeId>, first: Types,
                           done: set<Index>)
    requires Resuming(e, k, pid, table0, exact0, first, done)
    ensures |e.types| == TYPE_COUNT && NoDup(e.types[k].suspended)
  {
    ListFacts(e, k, Suspended);
  }

  method AdvanceHeld(e: Engine, k: TypeId, i: Index, pid: Pid, ghost table0: Table, ghost exact0: set<TypeId>,
                     ghost first: Types, ghost types0: Types, ghost seen: nat,
                     ghost done: set<Index>) returns (next: Option<Index>, ghost done': set<Index>)
    requires AlongHeld(e, k, pid, table0, exact0, first, types0, seen, Some(i), done)
    modifies e`table, e`types, e`limbo, e`exact
    ensures AlongHeld(e, k, pid, table0, exact0, first, types0, seen + 1, next, done') && done <= done'
  {
    hide Resuming, StandsAt, Except, NextIn, Held, First, NoDup, Without;
    SuspendedListFacts(e, k, pid, table0, exact0, first, done);
    StandsAtStep(types0[k].suspended, e.types[k].suspended, seen, i, Held(table0, pid));
    next := NextIn(e.types[k].suspended, i);
    ghost var r1 := e.types[k];
    done' := ResumeIfConcerned(e, k, i, pid, table0, exact0, first, done);
    UpdateSeqTwice(types0, k, r1, e.types[k]);
    StandsAtLast(types0[k].suspended, e.types[k].suspended, seen + 1, next, Held(table0, pid));
  }

  method WalkHeld(e: Engine, k: TypeId, pid: Pid, ghost table0: Table, ghost exact0: set<TypeId>, ghost first: Types,
                  ghost done: set<Index>) returns (ghost done': set<Index>)
    requires Resuming(e, k, pid, table0, exact0, first, done)
    modifies e`table, e`types, e`limbo, e`exact
    ensures Resuming(e, k, pid, table0, exact0, first, done') && done <= done'
    ensures e.types == old(e.types)[k := e.types[k]]
              && e.types[k].suspended == Except(old(e.types)[k].suspended, Held(table0, pid))
  {
    hide SoundAt, TimersAt, DerivesAt, HouseAt, ReadyAt, ViewOf, Handle, StandsAt, Except, Held, First, ResumedSo,
         LostBy, Flagged, AllSameConfig;
    done' := done;
    var cur := First(e.types[k].suspended);
    ghost var types0, seen := e.types, 0;
    assert e.types == types0[k := e.types[k]];
    StandsAtStart(e.types[k].suspended, Held(table0, pid));
    StandsAtLast(e.types[k].suspended, e.types[k].suspended, 0, cur, Held(table0, pid));
    while cur.Some?
      invariant AlongHeld(e, k, pid, table0, exact0, first, types0, seen, cur, done') && done <= done'
      decreases |types0[k].suspended| - seen
    {
      cur, done' := AdvanceHeld(e, k, cur.value, pid, table0, exact0, first, types0, seen, done');
      seen := seen + 1;
    }
    StandsAtEnd(types0[k].suspended, e.types[k].suspended, seen, Held(table0, pid));
  }

  ghost predicate ResumedTo(e: Engine, t: nat, pid: Pid, table0: Table, exact0: set<TypeId>, first: Types,
                            done: set<Index>)
    reads e
  {
    && e.Inv() && |first| == TYPE_COUNT && e.exact == exact0 - LostBy(table0, Flagged(first), done)
    && AllSameConfig(first, e.types) && UnflaggedKept(first, e.types)
    && ResumedSo(table0, e.table, done, e.now) && done <= Held(table0, pid) && NoneHeldBelow(e.table, t, pid)
  }

  lemma BackOrSame(table0: Table, table: Table, done: set<Index>, now: nat, j: Index, pid: Pid)
    requires ResumedSo(table0, table, done, now) && j in table
    ensures !table[j].suspended || (j !in done && j in table0 && table[j] == table0[j]
              && (Concerns(table[j], pid) ==> j in Held(table0, pid)))
  {
    ResumedFree(now);
    hide ResumedForm;
  }

  lemma NotBackSame(table0: Table, table: Table, done: set<Index>, now: nat, j: Index)
    requires ResumedSo(table0, table, done, now) && j !in done && j in table0
    ensures j in table && table[j] == table0[j]
  {
  }

  lemma AllHeldWalked(e: Engine, k: TypeId, pid: Pid, table0: Table, exact0: set<TypeId>, first: Types,
                      done: set<Index>, types0: Types, table1: Table, done1: set<Index>)
    requires Resuming(e, k, pid, table0, exact0, first, done) && |types0| == TYPE_COUNT
    requires e.types[k].suspended == Except(types0[k].suspended, Held(table0, pid))
    requires ResumedSo(table0, table1, done1, e.now) && done1 <= done && NoneHeldBelow(table1, k, pid)
    ensures NoneHeldBelow(e.table, k + 1, pid)
  {
    hide SoundAt, TimersAt, DerivesAt, ReadyAt, HouseAt, ResumedSo, Held, ResumedForm, LostBy, Flagged, AllSameConfig;
    forall j | j in e.table && e.table[j].kassert < k + 1 && Concerns(e.table[j], pid) ensures !e.table[j].suspended {
      InItsList(e.table, e.types, e.limbo, e.exact, j);
      BackOrSame(table0, e.table, done, e.now, j, pid);
      if e.table[j].suspended && e.table[j].kassert < k {
        NotBackSame(table0, table1, done1, e.now, j);
      }
    }
  }

  method ResumeType(e: Engine, k: TypeId, pid: Pid, ghost table0: Table, ghost exact0: set<TypeId>, ghost first: Types,
                    ghost done: set<Index>) returns (ghost done': set<Index>)
    requires ResumedTo(e, k, pid, table0, exact0, first, done)
    modifies e`table, e`types, e`limbo, e`exact, e`ker, e`overrides, e`agg
    ensures ResumedTo(e, k + 1, pid, table0, exact0, first, done')
  {
    hide SoundAt, TimersAt, DerivesAt, HouseAt, ReadyAt, Except, ViewOf, Handle, ResumedSo, Held, NoneHeldBelow, LostBy,
         Flagged, AllSameConfig;
    ghost var types0, table1 := e.types, e.table;
    e.MirrorReady(k, Release);
    done' := WalkHeld(e, k, pid, table0, exact0, first, done);
    AllHeldWalked(e, k, pid, table0, exact0, first, done', types0, table1, done);
    PendingReady(e, k);
    e.FinishHandler(k, Eval);
  }

  lemma PendingReady(e: Engine, k: TypeId)
    requires e.Sound() && e.Derives(k)
    ensures e.Ready(k, Eval)
  {
    SoundConfig(e.table, e.types, e.limbo, e.exact);
    assert e.types[k := e.types[k]] == e.types;
    EvalReady(e.types, e.types, e.onBatt, e.DerivedState(), k);
  }

  /** A suspended process is resumed: everything suspended that concerns it comes back, timed assertions with the
      time they had left, and no other assertion changes. */
  method HandleResume(e: Engine, pid: Pid)
    requires e.Inv()
    modifies e`table, e`types, e`limbo, e`exact, e`ker, e`overrides, e`agg, e`suspendedPids
    ensures e.Inv()
    ensures pid !in old(e.suspendedPids) ==> e.table == old(e.table)
    ensures e.suspendedPids == old(e.suspendedPids) - {pid}
    ensures pid in old(e.suspendedPids) ==> ResumedSo(old(e.table), e.table, Held(old(e.table), pid), e.now)
    ensures AllSameConfig(old(e.types), e.types) && UnflaggedKept(old(e.types), e.types)
    ensures e.exact == if pid !in old(e.suspendedPids) then old(e.exact)
                       else old(e.exact) - LostBy(old(e.table), Flagged(old(e.types)), Held(old(e.table), pid))
  {
    hide SoundAt, TimersAt, DerivesAt, HouseAt, ReadyAt, ViewOf, Handle, ResumedSo, Held, NoneHeldBelow, LostBy,
         Flagged, AllSameConfig;
    SameIsSame(e.types);
    if pid !in e.suspendedPids { return; }
    ghost var table0, exact0, first, done := e.table, e.exact, e.types, {};
    BeforeResume(e.table, e.now, pid);
    NothingLost(table0, Flagged(first), exact0);
    for t := 0 to TYPE_COUNT
      invariant ResumedTo(e, t, pid, table0, exact0, first, done) && e.suspendedPids == old(e.suspendedPids)
    {
      done := ResumeType(e, t, pid, table0, exact0, first, done);
    }
    AllHeld(e.table, table0, done, e.now, pid);
    HouseWithout(e, pid);
    e.suspendedPids := e.suspendedPids - {pid};
  }

  lemma BeforeResume(table: Table, now: nat, pid: Pid)
    ensures ResumedSo(table, table, {}, now) && NoneHeldBelow(table, 0, pid)
  {
  }

  lemma AllHeld(table: Table, table0: Table, done: set<Index>, now: nat, pid: Pid)
    requires ResumedSo(table0, table, done, now) && done <= Held(table0, pid) && NoneHeldBelow(table, TYPE_COUNT, pid)
    ensures done == Held(table0, pid)
  {
  }

  lemma HouseWithout(e: Engine, pid: Pid)
    requires e.House() && e.suspending == {} && NoneHeldBelow(e.table, TYPE_COUNT, pid)
    ensures HouseAt(e.table, e.limbo, e.suspendedPids - {pid} + e.suspending, e.proxy, e.powerd, e.nextIndex)
  {
  }
}
