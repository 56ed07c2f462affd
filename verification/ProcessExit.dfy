/**
 HandleProcessExit: every assertion of a dead process is released, type by type, while the
 four lists of the type are walked with the next element saved before each callback.
 */
module ProcessExit {
  import opened Common
  import opened EffectMirror
  import opened AssertionLists
  import opened AssertionEngine

  predicate OwnedBy(table: Table, i: Index, dead: Pid) {
    i in table && table[i].pid == dead
  }

  ghost function Owned(table: Table, pid: Pid): set<Index> {
    set i | i in table && table[i].pid == pid
  }

  /** Only assertions of the dead process were touched, and those in limbo are among them. */
  ghost predicate OnlyDead(table0: Table, table: Table, limbo: set<Index>, dead: Pid, proxy: Option<Index>) {
    && (forall j :: j in limbo ==> OwnedBy(table, j, dead) && OwnedBy(table0, j, dead))
    && (forall j :: j in table && j !in limbo && proxy != Some(j) ==> j in table0 && table[j] == table0[j])
    && (forall j :: j in table0 && table0[j].pid != dead && proxy != Some(j) ==> j in table)
  }

  lemma OnlyDeadStep(table0: Table, table1: Table, table: Table, limbo: set<Index>, dead: Pid, proxy1: Option<Index>,
                     proxy: Option<Index>, i: Index)
    requires OnlyDead(table0, table1, limbo, dead, proxy1) && i in table1 && i !in limbo && proxy1 != Some(i)
               && OwnedBy(table1, i, dead)
    requires OthersKept(table1, table, i, proxy) && i in table && table[i].pid == dead && proxy != Some(i)
    requires (proxy1.Some? ==> proxy == proxy1) && (proxy.Some? ==> proxy.value !in limbo)
    ensures OnlyDead(table0, table, limbo + {i}, dead, proxy)
  {
  }

  /** No assertion of the process is left in any type below `t`. */
  ghost predicate NoneBelow(table: Table, t: nat, dead: Pid) {
    forall j :: j in table && table[j].kassert < t ==> table[j].pid != dead
  }

  // ---- counting down -------------------------------------------------------------------

  /** A release counts every flagged assertion down that is not inactive, also a suspended one. */
  predicate CountsDown(a: Assertion) {
    !a.inactive && a.validOnBatt
  }

  /** Those of the process in a type. */
  ghost function Off(table: Table, dead: Pid, t: TypeId): set<Index> {
    set j | j in table && table[j].pid == dead && table[j].kassert == t && CountsDown(table[j])
  }

  /** A counter after `n` steps down.  It stops at zero. */
  function Down(count: nat, n: nat): nat {
    if count > n then count - n else 0
  }

  /** How many of the released ones are counted down. */
  function Steps(table: Table, released: seq<Index>): nat {
    if released == [] then 0
    else (if released[0] in table && CountsDown(table[released[0]]) then 1 else 0) + Steps(table, released[1..])
  }

  ghost function Among(table: Table, released: seq<Index>): set<Index> {
    set j | j in released && j in table && CountsDown(table[j])
  }

  lemma {:induction false} StepsIsSize(table: Table, released: seq<Index>)
    requires NoDup(released)
    ensures Steps(table, released) == |Among(table, released)|
  {
    if released == [] {
      assert Among(table, released) == {};
    } else {
      var i, rest := released[0], released[1..];
      assert NoDup(rest) && i !in rest;
      StepsIsSize(table, rest);
      assert released == [i] + rest;
      if i in table && CountsDown(table[i]) {
        assert Among(table, released) == Among(table, rest) + {i};
      } else {
        assert Among(table, released) == Among(table, rest);
      }
    }
  }

  /** The types whose counter is wrong after the exit: a flagged suspended assertion of the process is counted down
      a second time while one of somebody else still counts. */
  ghost function LostAtExit(table: Table, pid: Pid): set<TypeId> {
    set t: TypeId | OwnsFlaggedSuspended(table, pid, t) && OthersCounted(table, pid, t)
  }

  ghost predicate OwnsFlaggedSuspended(table: Table, pid: Pid, t: TypeId) {
    exists j :: OwnedBy(table, j, pid) && table[j].kassert == t && table[j].suspended && table[j].validOnBatt
  }

  ghost predicate OthersCounted(table: Table, pid: Pid, t: TypeId) {
    exists j :: j in table && table[j].pid != pid && table[j].kassert == t && Counted(table[j])
  }

  /** The table is the old one without the process's assertions, in the types that count. */
  ghost predicate Purged(table0: Table, table: Table, dead: Pid) {
    && (forall j :: j in table ==> table[j].pid != dead)
    && (forall j :: j in table && table[j].kassert in BATTERY_TYPES ==> j in table0 && table[j] == table0[j])
    && forall j :: j in table0 && table0[j].kassert in BATTERY_TYPES && table0[j].pid != dead ==>
         j in table && table[j] == table0[j]
  }

  /** What the process has among the counted ones, and what is counted down although it is not. */
  ghost function Mine(table: Table, dead: Pid, t: TypeId): set<Index> {
    set j | j in table && table[j].pid == dead && table[j].kassert == t && Counted(table[j])
  }

  ghost function Twice(table: Table, dead: Pid, t: TypeId): set<Index> {
    set j | j in table && table[j].pid == dead && table[j].kassert == t && table[j].suspended && table[j].validOnBatt
  }

  lemma OffSplit(table: Table, dead: Pid, t: TypeId)
    requires forall j :: j in table ==> OneBit(table[j])
    ensures |Off(table, dead, t)| == |Mine(table, dead, t)| + |Twice(table, dead, t)|
    ensures Twice(table, dead, t) == {} <==> !OwnsFlaggedSuspended(table, dead, t)
  {
    assert Off(table, dead, t) == Mine(table, dead, t) + Twice(table, dead, t);
    assert Mine(table, dead, t) !! Twice(table, dead, t);
    if OwnsFlaggedSuspended(table, dead, t) {
      var j :| OwnedBy(table, j, dead) && table[j].kassert == t && table[j].suspended && table[j].validOnBatt;
      assert j in Twice(table, dead, t);
    } else {
      forall j ensures j !in Twice(table, dead, t) {
        assert !OwnedBy(table, j, dead) || !(table[j].kassert == t && table[j].suspended && table[j].validOnBatt);
      }
    }
  }

  lemma CountedSplit(table0: Table, table: Table, dead: Pid, t: TypeId)
    requires Purged(table0, table, dead) && t in BATTERY_TYPES
    ensures |ValidSet(table0, {}, t)| == |Mine(table0, dead, t)| + |ValidSet(table, {}, t)|
    ensures ValidSet(table, {}, t) == {} <==> !OthersCounted(table0, dead, t)
  {
    hide Purged;
    LeftCounted(table0, table, dead, t);
    assert ValidSet(table0, {}, t) == Mine(table0, dead, t) + ValidSet(table, {}, t);
    assert Mine(table0, dead, t) !! ValidSet(table, {}, t);
    if OthersCounted(table0, dead, t) {
      var j :| j in table0 && table0[j].pid != dead && table0[j].kassert == t && Counted(table0[j]);
      assert j in ValidSet(table, {}, t);
    }
  }

  lemma LeftCounted(table0: Table, table: Table, dead: Pid, t: TypeId)
    requires Purged(table0, table, dead) && t in BATTERY_TYPES
    ensures forall j :: j in ValidSet(table, {}, t) <==>
              j in table0 && table0[j].pid != dead && table0[j].kassert == t && Counted(table0[j])
  {
  }

  /** A counter that was exact is right after the exit if and only if its type is not among those. */
  lemma ExitCounts(table0: Table, table: Table, dead: Pid, t: TypeId, count: nat)
    requires Purged(table0, table, dead) && t in BATTERY_TYPES && forall j :: j in table0 ==> OneBit(table0[j])
    requires count == |ValidSet(table0, {}, t)|
    ensures Down(count, |Off(table0, dead, t)|) == |ValidSet(table, {}, t)| <==> t !in LostAtExit(table0, dead)
  {
    hide Purged, ValidSet, Off, Mine, Twice, OwnsFlaggedSuspended, OthersCounted;
    OffSplit(table0, dead, t);
    CountedSplit(table0, table, dead, t);
  }

  /** The assertions of everyone else. */
  ghost function Survivors(table: Table, dead: Pid): set<Index> {
    set j | j in table && table[j].pid != dead
  }

  /** powerd's proxy during the walk of type `k`: only the display type's walk may raise a new one. */
  ghost predicate ProxyInWalk(k: TypeId, proxy0: Option<Index>, proxy: Option<Index>, table0: Table) {
    (k != PREVENT_DISPLAY_SLEEP ==> proxy == proxy0) && ProxyFrom(proxy0, proxy, table0.Keys)
  }

  /** The membership facts a callback needs about the assertion at the cursor. */
  lemma AtCursor(table: Table, types: Types, limbo: set<Index>, exact: set<TypeId>, k: TypeId, p: Place, i: Index)
    requires SoundAt(table, types, limbo, exact) && i in types[k].ListAt(p)
    ensures i in table && i !in limbo && table[i].kassert == k && NoDup(types[k].ListAt(p))
    ensures forall q :: types[k].Unlinked(i).ListAt(q) == if q == p then Without(types[k].ListAt(p), i)
              else types[k].ListAt(q)
  {
    assert ListsOK(table, limbo, k, types[k]);
  }

  /** Every linked assertion of type `k` is on one of its lists. */
  lemma OnSomeList(table: Table, types: Types, limbo: set<Index>, exact: set<TypeId>, i: Index)
    requires SoundAt(table, types, limbo, exact) && i in table && i !in limbo
    ensures i in types[table[i].kassert].ListAt(PlaceOf(table[i]))
  {
    assert ListsOK(table, limbo, table[i].kassert, types[table[i].kassert]);
  }

  /** A display assertion of the process that was not switched off is among those released. */
  ghost predicate AnyLive(table0: Table, released: seq<Index>) {
    exists j :: j in released && j in table0 && !table0[j].inactive
  }

  /** What was done so far while the lists of one type are walked; `table0` is the table before the walk. */
  ghost predicate Removed(table0: Table, table: Table, limbo: set<Index>, dead: Pid, proxy: Option<Index>,
                          released: seq<Index>)
  {
    && OnlyDead(table0, table, limbo, dead, proxy)
    && NoDup(released) && (forall j :: j in released <==> j in limbo)
    && (forall j :: j in table0 ==> j in table)
    && (proxy.Some? ==> !OwnedBy(table0, proxy.value, dead))
  }

  lemma RemovedStart(table: Table, dead: Pid, proxy: Option<Index>)
    requires proxy.Some? ==> !OwnedBy(table, proxy.value, dead)
    ensures Removed(table, table, {}, dead, proxy, [])
    ensures !AnyLive(table, [])
  {
  }

  lemma RemovedStep(table0: Table, table1: Table, limbo: set<Index>, dead: Pid, proxy1: Option<Index>,
                    released: seq<Index>, table: Table, proxy: Option<Index>, i: Index)
    requires Removed(table0, table1, limbo, dead, proxy1, released)
    requires i in table1 && i !in limbo && proxy1 != Some(i) && OwnedBy(table1, i, dead)
    requires OthersKept(table1, table, i, proxy) && i in table && table[i].pid == dead && proxy != Some(i)
    requires (proxy1.Some? ==> proxy == proxy1) && (proxy.Some? ==> proxy.value in table && proxy.value !in limbo)
    requires proxy.Some? && proxy1.None? ==> proxy.value !in table1
    ensures Removed(table0, table, limbo + {i}, dead, proxy, [i] + released)
    ensures i in table0 && table0[i] == table1[i]
    ensures AnyLive(table0, [i] + released) <==> AnyLive(table0, released) || !table1[i].inactive
  {
    OnlyDeadStep(table0, table1, table, limbo, dead, proxy1, proxy, i);
    assert table0[i] == table1[i];
    assert i !in released;
    var r := [i] + released;
    assert forall x :: 0 < x < |r| ==> r[x] == released[x - 1];
    assert i in r;
    if AnyLive(table0, released) {
      var j :| j in released && j in table0 && !table0[j].inactive;
      assert j in r;
    }
  }

  /** Whether powerd could hand the display over before the walk, and its proxy then. */
  datatype Outset = Outset(free: bool, proxy: Option<Index>)

  /** Unless the display was handed over, powerd's proxy is what it was. */
  ghost predicate Quiet(handed: bool, proxy0: Option<Index>, table0: Table, proxy: Option<Index>, table: Table) {
    !handed ==>
      && proxy == proxy0
      && (proxy.Some? ==> proxy.value in table0 && proxy.value in table && table[proxy.value] == table0[proxy.value])
  }

  lemma QuietStep(h: bool, h': bool, proxy0: Option<Index>, table0: Table, proxy1: Option<Index>, table1: Table,
                  proxy: Option<Index>, table: Table, i: Index)
    requires Quiet(h, proxy0, table0, proxy1, table1) && (h ==> h') && proxy1 != Some(i) && i in table
    requires !h' ==> proxy == proxy1 && table == table1[i := table[i]]
    ensures Quiet(h', proxy0, table0, proxy, table)
  {
  }

  lemma QuietTwice(h: bool, h': bool, h'': bool, proxy0: Option<Index>, table0: Table, proxy1: Option<Index>,
                   table1: Table, proxy: Option<Index>, table2: Table, limbo: set<Index>)
    requires Quiet(h, proxy0, table0, proxy1, table1) && Quiet(h', proxy1, table1, proxy, table2)
    requires (h || h' ==> h'') && (proxy.Some? ==> proxy.value !in limbo)
    ensures Quiet(h'', proxy0, table0, proxy, table2 - limbo)
  {
  }

  /** State while the lists of type `k` are walked. */
  ghost predicate Releasing(e: Engine, k: TypeId, dead: Pid, table0: Table, cnt: nat, was: Outset,
                            released: seq<Index>)
    reads e
  {
    && e.Base(k) && e.Ready(k, Release) && dead != e.powerd
    && Removed(table0, e.table, e.limbo, dead, Touched(k, e.proxy), released)
    && (forall j :: j in released ==> j in table0 && table0[j].kassert == k)
    && |e.types| == TYPE_COUNT && e.types[k].validCnt == Down(cnt, Steps(table0, released))
    && (was.free ==> e.CanHandOff())
    && (was.free && k == PREVENT_DISPLAY_SLEEP && AnyLive(table0, released) ==> e.HandedOff())
    && Quiet(k == PREVENT_DISPLAY_SLEEP && AnyLive(table0, released), was.proxy, table0, e.proxy, e.table)
  }

  /** The proxy the walk of type `k` may touch. */
  function Touched(k: TypeId, proxy: Option<Index>): Option<Index> {
    if k == PREVENT_DISPLAY_SLEEP then proxy else None
  }

  lemma CursorFacts(e: Engine, k: TypeId, p: Place, i: Index, dead: Pid, released: seq<Index>, table0: Table,
                    cnt: nat, was: Outset)
    requires Releasing(e, k, dead, table0, cnt, was, released) && i in e.types[k].ListAt(p)
    ensures i in e.table && i !in e.limbo && e.table[i].kassert == k
    ensures OwnedBy(table0, i, dead) <==> e.table[i].pid == dead
    ensures OwnedBy(table0, i, dead) ==> e.proxy != Some(i)
    ensures Touched(k, e.proxy) != Some(i)
    ensures forall q :: e.types[k].Unlinked(i).ListAt(q) == if q == p then Without(e.types[k].ListAt(p), i)
              else e.types[k].ListAt(q)
  {
    hide SoundAt, TimersAt, DerivesAt, ReadyAt, Without;
    AtCursor(e.table, e.types, e.limbo, e.exact, k, p, i);
  }

  /** What a release leaves for the next step of the walk. */
  lemma TouchedKept(e: Engine, k: TypeId, table1: Table, i: Index, proxy1: Option<Index>)
    requires e.House() && i in e.table && OthersKept(table1, e.table, i, e.proxy) && e.proxy != Some(i)
    requires k != PREVENT_DISPLAY_SLEEP ==> e.table == table1[i := e.table[i]]
    requires proxy1.Some? ==> e.proxy == proxy1
    requires proxy1.None? && e.proxy.Some? ==> e.proxy.value !in table1
    ensures Touched(k, e.proxy).Some? && Touched(k, proxy1).None? ==> Touched(k, e.proxy).value !in table1
    ensures OthersKept(table1, e.table, i, Touched(k, e.proxy)) && Touched(k, e.proxy) != Some(i)
    ensures Touched(k, proxy1).Some? ==> Touched(k, e.proxy) == Touched(k, proxy1)
    ensures Touched(k, e.proxy).Some? ==> Touched(k, e.proxy).value in e.table && Touched(k, e.proxy).value !in e.limbo
  {
  }

  /** The callback of the walk. */
  method ReleaseIfDead(e: Engine, k: TypeId, p: Place, i: Index, dead: Pid, released: seq<Index>,
                       ghost table0: Table, ghost cnt: nat, ghost was: Outset) returns (r: seq<Index>)
    requires Releasing(e, k, dead, table0, cnt, was, released) && i in e.types[k].ListAt(p)
    modifies e`table, e`types, e`limbo, e`exact, e`ker, e`overrides, e`agg, e`nextIndex, e`proxy
    ensures Releasing(e, k, dead, table0, cnt, was, r)
    ensures ProxyInWalk(k, old(e.proxy), e.proxy, table0)
    ensures forall q :: e.types[k].ListAt(q) == if q == p && i in Owned(table0, dead)
              then Without(old(e.types)[k].ListAt(p), i) else old(e.types)[k].ListAt(q)
    ensures OthersSame(old(e.types), e.types, k)
  {
    hide SoundAt, TimersAt, DerivesAt, HouseAt, ReadyAt, ViewOf, Handle, IsProxy, Without, Removed, AnyLive, OthersKept,
         HasFree, Touched, Down, Steps, CountsDown, CountWithout, Quiet;
    r := released;
    CursorFacts(e, k, p, i, dead, released, table0, cnt, was);
    if e.table[i].pid == dead {
      ghost var table1, proxy1, limbo1, r1 := e.table, e.proxy, e.limbo, e.types[k];
      e.ReleaseAssertion(i, k);
      r := [i] + released;
      TouchedKept(e, k, table1, i, proxy1);
      RemovedKeys(table0, table1, limbo1, dead, Touched(k, proxy1), released);
      RemovedStep(table0, table1, limbo1, dead, Touched(k, proxy1), released, e.table, Touched(k, e.proxy), i);
      OneStep(table0, i, released, cnt, r1);
      QuietStep(k == PREVENT_DISPLAY_SLEEP && AnyLive(table0, released), k == PREVENT_DISPLAY_SLEEP
          && AnyLive(table0, r),
          was.proxy, table0, proxy1, table1, e.proxy, e.table, i);
    }
  }

  /** One more release is one more step down, if it counts down. */
  lemma OneStep(table: Table, i: Index, released: seq<Index>, cnt: nat, r: AssertionType)
    requires i in table && r.validCnt == Down(cnt, Steps(table, released))
    ensures CountWithout(r, table[i]) == Down(cnt, Steps(table, [i] + released))
  {
    assert ([i] + released)[1..] == released;
  }

  lemma RemovedKeys(table0: Table, table: Table, limbo: set<Index>, dead: Pid, proxy: Option<Index>,
                    released: seq<Index>)
    requires Removed(table0, table, limbo, dead, proxy, released)
    ensures table0.Keys <= table.Keys
  {
  }

  lemma ListNoDup(e: Engine, k: TypeId, p: Place)
    requires e.Sound()
    ensures NoDup(e.types[k].ListAt(p))
  {
    assert ListsOK(e.table, e.limbo, k, e.types[k]);
  }

  /** A walk of list `p` of type `k` that started from `types0` and `proxy0` stands at `cur`. */
  ghost predicate Along(e: Engine, k: TypeId, p: Place, dead: Pid, table0: Table, cnt: nat, was: Outset,
                        types0: Types, proxy0: Option<Index>, seen: nat, cur: Option<Index>, released: seq<Index>)
    reads e
  {
    && Releasing(e, k, dead, table0, cnt, was, released)
    && OthersSame(types0, e.types, k)
    && StandsAt(types0[k].ListAt(p), e.types[k].ListAt(p), seen, cur, Owned(table0, dead))
    && (forall q :: q != p ==> e.types[k].ListAt(q) == types0[k].ListAt(q))
    && ProxyInWalk(k, proxy0, e.proxy, table0)
    && seen <= |types0[k].ListAt(p)| && (seen == |types0[k].ListAt(p)| ==> cur.None?)
  }

  /** Save the next element, then run the callback. */
  method Advance(e: Engine, k: TypeId, p: Place, i: Index, dead: Pid, released: seq<Index>, ghost table0: Table,
                 ghost cnt: nat,
                 ghost was: Outset, ghost types0: Types, ghost proxy0: Option<Index>, ghost seen: nat)
                     returns (next: Option<Index>, r: seq<Index>)
    requires Along(e, k, p, dead, table0, cnt, was, types0, proxy0, seen, Some(i), released)
    modifies e`table, e`types, e`limbo, e`exact, e`ker, e`overrides, e`agg, e`nextIndex, e`proxy
    ensures Along(e, k, p, dead, table0, cnt, was, types0, proxy0, seen + 1, next, r)
  {
    hide SoundAt, TimersAt, DerivesAt, HouseAt, ReadyAt, ViewOf, Handle, IsProxy, Without, Removed, AnyLive, HasFree,
         Touched, StandsAt, Except, NextIn, Owned, First, NoDup, ConfigOK, AllSameConfig;
    ListNoDup(e, k, p);
    StandsAtStep(types0[k].ListAt(p), e.types[k].ListAt(p), seen, i, Owned(table0, dead));
    next := NextIn(e.types[k].ListAt(p), i);
    ghost var types1 := e.types;
    r := ReleaseIfDead(e, k, p, i, dead, released, table0, cnt, was);
    OthersSameTwice(types0, types1, e.types, k);
    StandsAtLast(types0[k].ListAt(p), e.types[k].ListAt(p), seen + 1, next, Owned(table0, dead));
  }

  /** One list of type `k`, walked from its head. */
  method WalkList(e: Engine, k: TypeId, p: Place, head: Option<Index>, dead: Pid, released: seq<Index>,
                  ghost table0: Table, ghost cnt: nat, ghost was: Outset) returns (r: seq<Index>)
    requires Releasing(e, k, dead, table0, cnt, was, released) && head == First(e.types[k].ListAt(p))
    modifies e`table, e`types, e`limbo, e`exact, e`ker, e`overrides, e`agg, e`nextIndex, e`proxy
    ensures Releasing(e, k, dead, table0, cnt, was, r)
    ensures ProxyInWalk(k, old(e.proxy), e.proxy, table0)
    ensures forall q :: e.types[k].ListAt(q) == if q == p then Except(old(e.types)[k].ListAt(p), Owned(table0, dead))
              else old(e.types)[k].ListAt(q)
    ensures OthersSame(old(e.types), e.types, k)
  {
    hide SoundAt, TimersAt, DerivesAt, HouseAt, ReadyAt, ViewOf, Handle, IsProxy, Removed, AnyLive, HasFree, StandsAt,
         Except, Owned, First;
    r := released;
    var cur := head;
    ghost var types0, proxy0, seen := e.types, e.proxy, 0;
    StandsAtStart(e.types[k].ListAt(p), Owned(table0, dead));
    StandsAtLast(e.types[k].ListAt(p), e.types[k].ListAt(p), 0, head, Owned(table0, dead));
    while cur.Some?
      invariant Along(e, k, p, dead, table0, cnt, was, types0, proxy0, seen, cur, r)
      decreases |types0[k].ListAt(p)| - seen
    {
      cur, r := Advance(e, k, p, cur.value, dead, r, table0, cnt, was, types0, proxy0, seen);
      seen := seen + 1;
    }
    StandsAtEnd(types0[k].ListAt(p), e.types[k].ListAt(p), seen, Owned(table0, dead));
  }

  /** No linked assertion of type `k` belongs to the process. */
  ghost predicate NoneLinked(table: Table, limbo: set<Index>, k: TypeId, dead: Pid) {
    forall j :: j in table && j !in limbo && table[j].kassert == k ==> table[j].pid != dead
  }

  /** Once its four lists are filtered, type `k` has nothing of the process left. */
  lemma AllWalked(e: Engine, k: TypeId, dead: Pid, released: seq<Index>, table0: Table, cnt: nat, was: Outset,
                  types0: Types)
    requires Releasing(e, k, dead, table0, cnt, was, released) && |types0| == TYPE_COUNT
    requires forall q :: e.types[k].ListAt(q) == Except(types0[k].ListAt(q), Owned(table0, dead))
    ensures NoneLinked(e.table, e.limbo, k, dead)
    ensures (exists j :: OwnedBy(table0, j, dead) && table0[j].kassert == k && !table0[j].inactive) ==>
              AnyLive(table0, released)
  {
    hide SoundAt, TimersAt, DerivesAt, ReadyAt, ViewOf, Handle;
    forall j | j in e.table && j !in e.limbo && e.table[j].kassert == k ensures e.table[j].pid != dead {
      OnSomeList(e.table, e.types, e.limbo, e.exact, j);
    }
    if j :| OwnedBy(table0, j, dead) && table0[j].kassert == k && !table0[j].inactive {
      assert j in e.table;
      assert j in released;
    }
  }

  /** All four lists of type `k`, from heads read before the first callback runs. */
  method WalkHeads(e: Engine, k: TypeId, heads: Place -> Option<Index>, dead: Pid, ghost table0: Table,
                   ghost cnt: nat, ghost was: Outset)
    returns (released: seq<Index>)
    requires Releasing(e, k, dead, table0, cnt, was, [])
    requires forall q :: heads(q) == First(e.types[k].ListAt(q))
    modifies e`table, e`types, e`limbo, e`exact, e`ker, e`overrides, e`agg, e`nextIndex, e`proxy
    ensures Releasing(e, k, dead, table0, cnt, was, released)
    ensures ProxyInWalk(k, old(e.proxy), e.proxy, table0)
    ensures forall q :: e.types[k].ListAt(q) == Except(old(e.types)[k].ListAt(q), Owned(table0, dead))
    ensures OthersSame(old(e.types), e.types, k)
  {
    hide Releasing, SoundAt, TimersAt, DerivesAt, HouseAt, ReadyAt, Except, First, OthersSame;
    ghost var types0 := e.types;
    released := WalkList(e, k, Timed, heads(Timed), dead, [], table0, cnt, was);
    ghost var types1 := e.types;
    released := WalkList(e, k, Active, heads(Active), dead, released, table0, cnt, was);
    ghost var types2 := e.types;
    released := WalkList(e, k, Inactive, heads(Inactive), dead, released, table0, cnt, was);
    ghost var types3 := e.types;
    released := WalkList(e, k, Suspended, heads(Suspended), dead, released, table0, cnt, was);
    OthersSameTwice(types0, types1, types2, k);
    OthersSameTwice(types0, types2, types3, k);
    OthersSameTwice(types0, types3, e.types, k);
  }

  /** releaseAssertionMemory for everything released. */
  method DropReleased(e: Engine, released: seq<Index>)
    requires e.Base(-1) && NoDup(released) && forall j :: j in released <==> j in e.limbo
    modifies e`table, e`limbo
    ensures e.Base(-1) && e.limbo == {} && e.table == old(e.table) - old(e.limbo)
    ensures old(e.HandedOff()) ==> e.HandedOff()
  {
    hide SoundAt, TimersAt, DerivesAt, ViewOf;
    var list := released;
    while list != []
      invariant e.Base(-1) && NoDup(list) && (forall j :: j in list <==> j in e.limbo)
      invariant e.limbo <= old(e.limbo) && e.table == old(e.table) - (old(e.limbo) - e.limbo)
      invariant old(e.HandedOff()) ==> e.HandedOff()
    {
      var i := list[0];
      SoundFacts(e.table, e.types, e.limbo, e.exact, i);
      assert list == [i] + list[1..];
      assert i !in list[1..];
      e.DropEntry(i, -1);
      list := list[1..];
    }
    assert old(e.limbo) - e.limbo == old(e.limbo);
  }

  ghost predicate LiveDisplay(table: Table, pid: Pid) {
    exists j :: OwnedBy(table, j, pid) && table[j].kassert == PREVENT_DISPLAY_SLEEP && !table[j].inactive
  }

  lemma StartWalk(e: Engine, k: TypeId, dead: Pid)
    requires e.Inv() && dead != e.powerd
    ensures Releasing(e, k, dead, e.table, e.types[k].validCnt, Outset(e.CanHandOff(), e.proxy), [])
  {
    hide SoundAt, TimersAt, DerivesAt, ReadyAt, HasFree, ViewOf, Handle;
    RemovedStart(e.table, dead, Touched(k, e.proxy));
    e.MirrorReady(k, Release);
  }

  /** Outcome of the walk of type `k`, relative to the state before it. */
  ghost predicate Walked(e: Engine, k: TypeId, dead: Pid, table0: Table, types0: Types, proxy0: Option<Index>,
                         was: Outset,
                         released: seq<Index>)
    reads e
  {
    && Removed(table0, e.table, e.limbo, dead, Touched(k, e.proxy), released)
    && NoneLinked(e.table, e.limbo, k, dead)
    && ProxyInWalk(k, proxy0, e.proxy, table0)
    && OthersSame(types0, e.types, k)
    && (forall j :: j in released ==> j in table0 && table0[j].kassert == k)
    && e.types[k].validCnt == Down(types0[k].validCnt, |Off(table0, dead, k)|)
    && (forall q :: e.types[k].ListAt(q) == Except(types0[k].ListAt(q), Owned(table0, dead)))
    && (was.free ==> e.CanHandOff())
    && (k == PREVENT_DISPLAY_SLEEP && was.free && LiveDisplay(table0, dead) ==> e.HandedOff())
    && Quiet(k == PREVENT_DISPLAY_SLEEP && LiveDisplay(table0, dead), was.proxy, table0, e.proxy, e.table)
  }

  lemma RemovedFacts(table0: Table, table: Table, limbo: set<Index>, dead: Pid, proxy: Option<Index>,
                     released: seq<Index>)
    requires Removed(table0, table, limbo, dead, proxy, released)
    ensures NoDup(released) && forall j :: j in released <==> j in limbo
  {
  }

  /** Once the walk is done the released ones are all the process had in the type. */
  lemma ReleasedOff(table0: Table, table: Table, limbo: set<Index>, dead: Pid, proxy: Option<Index>,
                    released: seq<Index>,
                    k: TypeId)
    requires Removed(table0, table, limbo, dead, proxy, released) && NoneLinked(table, limbo, k, dead)
    requires forall j :: j in released ==> j in table0 && table0[j].kassert == k
    ensures Steps(table0, released) == |Off(table0, dead, k)|
  {
    StepsIsSize(table0, released);
    assert Among(table0, released) == Off(table0, dead, k);
  }

  lemma AnyLiveIs(table0: Table, table: Table, limbo: set<Index>, dead: Pid, proxy: Option<Index>,
                  released: seq<Index>, k: TypeId)
    requires Removed(table0, table, limbo, dead, proxy, released)
    requires forall j :: j in released ==> j in table0 && table0[j].kassert == k
    ensures k == PREVENT_DISPLAY_SLEEP && AnyLive(table0, released) ==> LiveDisplay(table0, dead)
  {
    if AnyLive(table0, released) {
      var j :| j in released && j in table0 && !table0[j].inactive;
      assert OwnedBy(table0, j, dead);
    }
  }

  lemma WalkDone(e: Engine, k: TypeId, dead: Pid, table0: Table, types0: Types, proxy0: Option<Index>, was: Outset,
                 released: seq<Index>)
    requires |types0| == TYPE_COUNT && Releasing(e, k, dead, table0, types0[k].validCnt, was, released)
    requires ProxyInWalk(k, proxy0, e.proxy, table0)
    requires OthersSame(types0, e.types, k)
    requires forall q :: e.types[k].ListAt(q) == Except(types0[k].ListAt(q), Owned(table0, dead))
    ensures Walked(e, k, dead, table0, types0, proxy0, was, released)
    ensures e.Base(k) && e.Ready(k, Release) && NoDup(released) && forall j :: j in released <==> j in e.limbo
  {
    hide SoundAt, TimersAt, DerivesAt, HouseAt, ReadyAt, Except, NoneLinked, AnyLive, HasFree, ViewOf, Handle, Removed,
         Off, Steps;
    AllWalked(e, k, dead, released, table0, types0[k].validCnt, was, types0);
    AnyLiveIs(table0, e.table, e.limbo, dead, Touched(k, e.proxy), released, k);
    ReleasedOff(table0, e.table, e.limbo, dead, Touched(k, e.proxy), released, k);
    RemovedFacts(table0, e.table, e.limbo, dead, Touched(k, e.proxy), released);
  }

  /** Walk the lists of one type, then run its release handler. */
  method WalkAndHandle(e: Engine, k: TypeId, dead: Pid) returns (released: seq<Index>)
    requires e.Inv() && dead != e.powerd
    modifies e`table, e`types, e`limbo, e`exact, e`ker, e`overrides, e`agg, e`nextIndex, e`proxy
    ensures e.Base(-1) && NoDup(released) && (forall j :: j in released <==> j in e.limbo)
    ensures Walked(e, k, dead, old(e.table), old(e.types), old(e.proxy), Outset(old(e.CanHandOff()), old(e.proxy)),
              released)
  {
    hide SoundAt, TimersAt, DerivesAt, HouseAt, ReadyAt, Except, OthersSame, ViewOf, Handle, Removed, NoneLinked,
         LiveDisplay, HasFree;
    var r := e.types[k];
    ghost var table0, types0, proxy0, was := e.table, e.types, e.proxy, Outset(e.CanHandOff(), e.proxy);
    StartWalk(e, k, dead);
    released := WalkHeads(e, k, p => First(r.ListAt(p)), dead, table0, types0[k].validCnt, was);
    WalkDone(e, k, dead, table0, types0, proxy0, was, released);
    e.FinishHandler(k, Release);
  }

  /** The state before the operation. */
  datatype Start = Start(table: Table, types: Types, exact: set<TypeId>, proxy: Option<Index>, can: bool)

  /** State between types: everything below `t` is done. */
  ghost predicate ExitedTo(e: Engine, t: nat, dead: Pid, s: Start)
    reads e
  {
    && e.Inv() && dead != e.powerd && OnlyDead(s.table, e.table, {}, dead, e.proxy) && NoneBelow(e.table, t, dead)
    && CountedTo(s, e.table, e.types, t, dead)
    && ProxyFrom(s.proxy, e.proxy, Survivors(s.table, dead))
    && (s.can ==> e.CanHandOff())
    && (t > PREVENT_DISPLAY_SLEEP && s.can && LiveDisplay(s.table, dead) ==> e.HandedOff())
    && Quiet(t > PREVENT_DISPLAY_SLEEP && LiveDisplay(s.table, dead), s.proxy, s.table, e.proxy, e.table)
    && ListsFiltered(s.table, s.types, e.types, t, dead) && AllSameConfig(s.types, e.types)
  }

  /** The counters of the types below `t` went down, and the process still has what it had in the others. */
  ghost predicate CountedTo(s: Start, table: Table, types: Types, t: nat, dead: Pid) {
    && |s.types| == |types| == TYPE_COUNT
    && (forall u: TypeId :: u in BATTERY_TYPES && u < t ==>
          types[u].validCnt == Down(s.types[u].validCnt, |Off(s.table, dead, u)|))
    && forall j :: j in s.table && s.table[j].pid == dead && s.table[j].kassert >= t ==>
         j in table && table[j] == s.table[j]
  }

  lemma CountedStep(s: Start, table1: Table, types1: Types, table2: Table, limbo: set<Index>, types: Types, k: TypeId,
                    dead: Pid,
                    proxy1: Option<Index>, proxy: Option<Index>, released: seq<Index>)
    requires CountedTo(s, table1, types1, k, dead) && OthersSame(types1, types, k)
    requires ListsFiltered(s.table, s.types, types1, k, dead)
    requires OnlyDead(s.table, table1, {}, dead, proxy1) && (proxy1.Some? ==> !OwnedBy(table1, proxy1.value, dead))
    requires Removed(table1, table2, limbo, dead, proxy, released)
    requires forall j :: j in released ==> j in table1 && table1[j].kassert == k
    requires types[k].validCnt == Down(types1[k].validCnt, |Off(table1, dead, k)|)
    ensures CountedTo(s, table2 - limbo, types, k + 1, dead)
  {
    hide Down, Off, Removed, OnlyDead;
    SameOff(s.table, table1, dead, k, proxy1);
    LimboOnly(table1, table2, limbo, dead, proxy, released, k);
  }

  lemma SameOff(table0: Table, table1: Table, dead: Pid, k: TypeId, proxy1: Option<Index>)
    requires OnlyDead(table0, table1, {}, dead, proxy1) && (proxy1.Some? ==> !OwnedBy(table1, proxy1.value, dead))
    requires forall j :: j in table0 && table0[j].pid == dead && table0[j].kassert >= k ==>
               j in table1 && table1[j] == table0[j]
    ensures Off(table1, dead, k) == Off(table0, dead, k)
  {
  }

  /** What the process has in later types is not touched. */
  lemma LimboOnly(table1: Table, table2: Table, limbo: set<Index>, dead: Pid, proxy: Option<Index>,
                  released: seq<Index>,
                  k: TypeId)
    requires Removed(table1, table2, limbo, dead, proxy, released)
    requires forall j :: j in released ==> j in table1 && table1[j].kassert == k
    ensures forall j :: j in table1 && table1[j].pid == dead && table1[j].kassert > k ==>
              j in table2 && j !in limbo && table2[j] == table1[j]
  {
  }

  /** Lists of the types below `t` hold the survivors in their old order, the others are as before.
      The type of powerd's proxy is left out, because the hand-off may add to it. */
  ghost predicate ListsFiltered(table0: Table, types0: Types, types: Types, t: nat, dead: Pid) {
    |types0| == |types| == TYPE_COUNT &&
    forall u: TypeId :: u != INT_PREVENT_DISPLAY_SLEEP ==>
      if u < t then forall q :: types[u].ListAt(q) == Except(types0[u].ListAt(q), Owned(table0, dead))
          else types[u] == types0[u]
  }

  lemma ListsFilteredStep(table0: Table, types0: Types, table1: Table, types1: Types, exact1: set<TypeId>, types: Types,
                          k: TypeId, dead: Pid, proxy1: Option<Index>)
    requires ListsFiltered(table0, types0, types1, k, dead) && OthersSame(types1, types, k)
    requires OnlyDead(table0, table1, {}, dead, proxy1) && SoundAt(table1, types1, {}, exact1)
    requires proxy1.Some? ==> proxy1.value in table1 && table1[proxy1.value].kassert == INT_PREVENT_DISPLAY_SLEEP
    requires forall q :: types[k].ListAt(q) == Except(types1[k].ListAt(q), Owned(table1, dead))
    ensures ListsFiltered(table0, types0, types, k + 1, dead)
  {
    if k != INT_PREVENT_DISPLAY_SLEEP {
      forall q
          ensures Except(types1[k].ListAt(q), Owned(table1, dead)) == Except(types1[k].ListAt(q), Owned(table0, dead)) {
        forall j | j in types1[k].ListAt(q) ensures OwnedBy(table1, j, dead) <==> OwnedBy(table0, j, dead) {
          AtCursor(table1, types1, {}, exact1, k, q, j);
        }
        ExceptSame(types1[k].ListAt(q), Owned(table1, dead), Owned(table0, dead));
      }
    }
  }

  /** Releasing and dropping the assertions of type `k`. */
  lemma ExitedStep(table0: Table, table1: Table, table2: Table, limbo: set<Index>, table: Table, k: TypeId, dead: Pid,
                   powerd: Pid, proxy1: Option<Index>, proxy: Option<Index>, released: seq<Index>)
    requires OnlyDead(table0, table1, {}, dead, proxy1) && NoneBelow(table1, k, dead)
    requires Removed(table1, table2, limbo, dead, Touched(k, proxy), released) && NoneLinked(table2, limbo, k, dead)
    requires table == table2 - limbo
    requires ProxyInWalk(k, proxy1, proxy, table1)
    requires proxy.Some? ==> OwnedBy(table, proxy.value, powerd) && dead != powerd
    requires proxy1.Some? ==> OwnedBy(table1, proxy1.value, powerd)
    ensures OnlyDead(table0, table, {}, dead, proxy) && NoneBelow(table, k + 1, dead)
    ensures k != PREVENT_DISPLAY_SLEEP && proxy.Some? ==>
              proxy.value in table1 && table[proxy.value] == table1[proxy.value]
  {
    hide NoDup;
    ExitedOnly(table0, table1, table2, limbo, table, k, dead, powerd, proxy1, proxy);
  }

  lemma ExitedOnly(table0: Table, table1: Table, table2: Table, limbo: set<Index>, table: Table, k: TypeId, dead: Pid,
                   powerd: Pid,
                   proxy1: Option<Index>, proxy: Option<Index>)
    requires OnlyDead(table0, table1, {}, dead, proxy1) && OnlyDead(table1, table2, limbo, dead, Touched(k, proxy))
    requires table == table2 - limbo && ProxyInWalk(k, proxy1, proxy, table1)
    requires proxy.Some? ==> OwnedBy(table, proxy.value, powerd) && dead != powerd
    ensures OnlyDead(table0, table, {}, dead, proxy)
  {
  }

  /** A proxy raised while type `k` is walked takes no survivor's place. */
  lemma ProxyStep(table0: Table, table1: Table, dead: Pid, k: TypeId, proxy0: Option<Index>, proxy1: Option<Index>,
                  proxy: Option<Index>)
    requires OnlyDead(table0, table1, {}, dead, proxy1)
    requires ProxyFrom(proxy0, proxy1, Survivors(table0, dead)) && ProxyInWalk(k, proxy1, proxy, table1)
    ensures ProxyFrom(proxy0, proxy, Survivors(table0, dead))
  {
  }

  /** The display assertions of the process are still there when their type comes up. */
  lemma LiveDisplayStill(table0: Table, types0: Types, exact0: set<TypeId>, table1: Table, types1: Types,
                         exact1: set<TypeId>, dead: Pid, proxy1: Option<Index>)
    requires SoundAt(table0, types0, {}, exact0) && SoundAt(table1, types1, {}, exact1)
    requires types1[PREVENT_DISPLAY_SLEEP] == types0[PREVENT_DISPLAY_SLEEP]
               && OnlyDead(table0, table1, {}, dead, proxy1)
    requires proxy1.Some? ==> proxy1.value in table1 && table1[proxy1.value].kassert == INT_PREVENT_DISPLAY_SLEEP
    ensures LiveDisplay(table0, dead) ==> LiveDisplay(table1, dead)
  {
    if LiveDisplay(table0, dead) {
      var j :| OwnedBy(table0, j, dead) && table0[j].kassert == PREVENT_DISPLAY_SLEEP && !table0[j].inactive;
      OnSomeList(table0, types0, {}, exact0, j);
      AtCursor(table1, types1, {}, exact1, PREVENT_DISPLAY_SLEEP, PlaceOf(table0[j]), j);
      assert OwnedBy(table1, j, dead);
    }
  }

  /** Release everything of the process in type `k`. */
  method ReleaseType(e: Engine, k: TypeId, dead: Pid, ghost s: Start)
    requires ExitedTo(e, k, dead, s) && SoundAt(s.table, s.types, {}, s.exact)
    modifies e`table, e`types, e`limbo, e`exact, e`ker, e`overrides, e`agg, e`nextIndex, e`proxy
    ensures ExitedTo(e, k + 1, dead, s)
  {
    hide SoundAt, TimersAt, DerivesAt, HouseAt, Except, ListsFiltered, ViewOf, Handle, Removed, OnlyDead, NoneLinked,
         LiveDisplay, HasFree, NoneBelow, CountedTo, Off, Down, Survivors, AllSameConfig, ProxyFrom, Quiet;
    ghost var table1, types1, exact1, proxy1 := e.table, e.types, e.exact, e.proxy;
    ProxyFacts(e.table, e.limbo, e.suspendedPids + e.suspending, e.proxy, e.powerd, e.nextIndex);
    StillThere(e, k, dead, s);
    var released := WalkAndHandle(e, k, dead);
    ghost var table2, limbo2 := e.table, e.limbo;
    DropReleased(e, released);
    ProxyFacts(e.table, e.limbo, e.suspendedPids + e.suspending, e.proxy, e.powerd, e.nextIndex);
    HasFreeSame(table2, e.table);
    ExitedStep(s.table, table1, table2, limbo2, e.table, k, dead, e.powerd, proxy1, e.proxy, released);
    CountedStep(s, table1, types1, table2, limbo2, e.types, k, dead, proxy1, Touched(k, e.proxy), released);
    ProxyStep(s.table, table1, dead, k, s.proxy, proxy1, e.proxy);
    ListsFilteredStep(s.table, s.types, table1, types1, exact1, e.types, k, dead, proxy1);
    ConfigStep(s.types, types1, e.types, k);
    QuietTwice(k > PREVENT_DISPLAY_SLEEP && LiveDisplay(s.table, dead),
        k == PREVENT_DISPLAY_SLEEP && LiveDisplay(table1, dead),
        k + 1 > PREVENT_DISPLAY_SLEEP && LiveDisplay(s.table, dead), s.proxy, s.table, proxy1, table1, e.proxy, table2,
        limbo2);
  }

  lemma ConfigStep(types0: Types, types1: Types, types: Types, k: TypeId)
    requires AllSameConfig(types0, types1) && OthersSame(types1, types, k)
    ensures AllSameConfig(types0, types)
  {
  }

  lemma StillThere(e: Engine, k: TypeId, dead: Pid, s: Start)
    requires ExitedTo(e, k, dead, s) && SoundAt(s.table, s.types, {}, s.exact)
    ensures k == PREVENT_DISPLAY_SLEEP ==> (LiveDisplay(s.table, dead) <==> LiveDisplay(e.table, dead))
  {
    hide SoundAt, TimersAt, DerivesAt, Except, OnlyDead, LiveDisplay, HasFree, NoneBelow, CountedTo, Survivors,
         AllSameConfig, ProxyFrom, Quiet;
    if k == PREVENT_DISPLAY_SLEEP {
      LiveDisplayStill(s.table, s.types, s.exact, e.table, e.types, e.exact, dead, e.proxy);
      LiveDisplayBefore(s.table, e.table, dead, e.proxy);
    }
  }

  lemma LiveDisplayBefore(table0: Table, table1: Table, dead: Pid, proxy1: Option<Index>)
    requires OnlyDead(table0, table1, {}, dead, proxy1)
    requires proxy1.Some? ==> proxy1.value in table1 && table1[proxy1.value].kassert == INT_PREVENT_DISPLAY_SLEEP
    ensures LiveDisplay(table1, dead) ==> LiveDisplay(table0, dead)
  {
    if LiveDisplay(table1, dead) {
      var j :| OwnedBy(table1, j, dead) && table1[j].kassert == PREVENT_DISPLAY_SLEEP && !table1[j].inactive;
      assert OwnedBy(table0, j, dead);
    }
  }

  /** A process has exited: none of its assertions is left, and every other assertion is as it was,
      except that powerd's proxy may have been raised for the display. */
  method HandleProcessExit(e: Engine, dead: Pid)
    requires e.Inv() && dead != e.powerd
    modifies e`table, e`types, e`limbo, e`exact, e`ker, e`overrides, e`agg, e`nextIndex, e`proxy
    ensures e.Inv()
    ensures forall i :: i in e.table ==> e.table[i].pid != dead
    ensures forall t: TypeId, q :: forall i :: i in e.types[t].ListAt(q) ==> i in e.table && e.table[i].pid != dead
    ensures OnlyDead(old(e.table), e.table, {}, dead, e.proxy)
    ensures ListsFiltered(old(e.table), old(e.types), e.types, TYPE_COUNT, dead) && AllSameConfig(old(e.types), e.types)
    ensures ProxyFrom(old(e.proxy), e.proxy, Survivors(old(e.table), dead))
    ensures e.exact == old(e.exact) - LostAtExit(old(e.table), dead)
    ensures forall t: TypeId :: t in BATTERY_TYPES ==>
              e.types[t].validCnt == Down(old(e.types)[t].validCnt, |Off(old(e.table), dead, t)|)
    ensures old(e.CanHandOff()) && LiveDisplay(old(e.table), dead) ==> e.HandedOff()
    ensures Quiet(LiveDisplay(old(e.table), dead), old(e.proxy), old(e.table), e.proxy, e.table)
  {
    hide SoundAt, TimersAt, DerivesAt, HouseAt, Except, ListsFiltered, ViewOf, Handle, OnlyDead, LiveDisplay, HasFree,
         LostAtExit, Survivors, AllSameConfig, ProxyFrom, Quiet;
    ghost var s := Start(e.table, e.types, e.exact, e.proxy, e.CanHandOff());
    BeforeExit(e, dead);
    ProxyFacts(e.table, e.limbo, e.suspendedPids + e.suspending, e.proxy, e.powerd, e.nextIndex);
    for t := 0 to TYPE_COUNT
      invariant ExitedTo(e, t, dead, s)
    {
      ReleaseType(e, t, dead, s);
    }
    AfterExit(e, dead);
    ExactAfterExit(e, dead, s);
    e.exact := s.exact - LostAtExit(s.table, dead);
  }

  /** The counters that were exact and are not lost are exact again. */
  lemma ExactAfterExit(e: Engine, dead: Pid, s: Start)
    requires ExitedTo(e, TYPE_COUNT, dead, s) && SoundAt(s.table, s.types, {}, s.exact)
    requires s.proxy.Some? ==> s.proxy.value in s.table && s.table[s.proxy.value].kassert == INT_PREVENT_DISPLAY_SLEEP
    ensures SoundAt(e.table, e.types, e.limbo, s.exact - LostAtExit(s.table, dead))
    ensures forall t: TypeId :: t in BATTERY_TYPES ==>
              e.types[t].validCnt == Down(s.types[t].validCnt, |Off(s.table, dead, t)|)
  {
    hide TimersAt, DerivesAt, Except, ListsFiltered, AllSameConfig, HasFree, LiveDisplay, LostAtExit, Off, Down,
         ListsOK;
    ExitPurges(e, dead, s);
    forall t: TypeId | t in s.exact && t !in LostAtExit(s.table, dead)
        ensures CountOK(e.table, e.limbo, t, e.types[t]) {
      ExactIsCounted(s.table, s.types, {}, s.exact, t);
      ExitCounts(s.table, e.table, dead, t, s.types[t].validCnt);
    }
  }

  lemma ExitPurges(e: Engine, dead: Pid, s: Start)
    requires ExitedTo(e, TYPE_COUNT, dead, s)
    requires s.proxy.Some? ==> s.proxy.value in s.table && s.table[s.proxy.value].kassert == INT_PREVENT_DISPLAY_SLEEP
    ensures Purged(s.table, e.table, dead)
  {
    hide SoundAt, TimersAt, DerivesAt, Except, ListsFiltered, AllSameConfig, HasFree, LiveDisplay, CountedTo;
    assert e.proxy.Some? ==> e.proxy.value in e.table && e.table[e.proxy.value].kassert == INT_PREVENT_DISPLAY_SLEEP;
    forall j | j in s.table && s.table[j].kassert in BATTERY_TYPES && s.table[j].pid != dead
      ensures j in e.table && e.table[j] == s.table[j]
    {
      assert e.proxy == Some(j) ==> j in Survivors(s.table, dead);
    }
  }

  lemma BeforeExit(e: Engine, dead: Pid)
    requires e.Inv() && dead != e.powerd
    ensures ExitedTo(e, 0, dead, Start(e.table, e.types, e.exact, e.proxy, e.CanHandOff()))
    ensures SoundAt(e.table, e.types, {}, e.exact)
  {
    hide SoundAt, TimersAt, DerivesAt, HouseAt, Except, IsProxy;
    ProxyFacts(e.table, e.limbo, e.suspendedPids + e.suspending, e.proxy, e.powerd, e.nextIndex);
  }

  lemma AfterExit(e: Engine, dead: Pid)
    requires e.Sound() && e.limbo == {} && NoneBelow(e.table, TYPE_COUNT, dead)
    ensures forall i :: i in e.table ==> e.table[i].pid != dead
    ensures forall t: TypeId, q :: forall i :: i in e.types[t].ListAt(q) ==> i in e.table && e.table[i].pid != dead
  {
    hide SoundAt;
    forall t: TypeId, q, i | i in e.types[t].ListAt(q) ensures i in e.table && e.table[i].pid != dead {
      AtCursor(e.table, e.types, e.limbo, e.exact, t, q, i);
    }
  }
}
