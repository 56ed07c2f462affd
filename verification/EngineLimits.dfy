/**
 What follows from the engine's invariants for the display, and the places where the
 valid-on-battery counter and the lists part company.
 */
module EngineLimits {
  import opened Common
  import opened EffectMirror
  import opened AssertionLists
  import opened AssertionEngine
  import opened Reconfiguration
  import opened EngineSteps
  import EngineRun

  lemma ProxyIsOn(e: Engine)
    requires e.Sound() && e.House() && e.HandedOff()
    ensures SlotOf(e.types[INT_PREVENT_DISPLAY_SLEEP], e.onBatt).on
  {
    InItsList(e.table, e.types, e.limbo, e.exact, e.proxy.value);
    assert TypeOK(INT_PREVENT_DISPLAY_SLEEP, e.types[INT_PREVENT_DISPLAY_SLEEP]);
  }

  /** Once powerd's proxy is raised the display bit is set, before the release handler of the display type has
      run (when that type still awaits it) as well as afterwards: the bit is never down in between. */
  lemma NoDisplayGap(e: Engine, p: int)
    requires p == PREVENT_DISPLAY_SLEEP || p == -1
    requires e.Sound() && e.House() && e.HandedOff() && e.Derives(p)
    ensures e.types[INT_PREVENT_DISPLAY_SLEEP].effect != NoEffect ==> PreventDisplaySleepBit in e.ker
  {
    ProxyIsOn(e);
    var x := INT_PREVENT_DISPLAY_SLEEP;
    assert TypeOK(x, e.types[x]);
    hide SoundAt, HouseAt;
    if e.types[x].effect != NoEffect {
      var v := if p == -1 then e.View() else Cached(e.View(), e.DerivedState(), PREVENT_DISPLAY_SLEEP);
      assert v[x].on && v[x].effect == BitEffect(PreventDisplaySleepBit);
      assert EffectOn(v, BitEffect(PreventDisplaySleepBit));
    }
  }

  /** Counter of a type after forwardPropertiesToAssertion changed the limited-power flag. */
  function FlagCounted(validCnt: nat, on: bool): nat {
    if on then validCnt + 1 else if validCnt > 0 then validCnt - 1 else 0
  }

  /** The property update counts inactive and suspended assertions too.  The counter still matches exactly when
      the assertion is live, or its flag goes off while the counter is zero. */
  lemma LimitedPowerCounts(table: Table, k: TypeId, validCnt: nat, i: Index, on: bool)
    requires i in table && table[i].kassert == k && OneBit(table[i]) && on != table[i].validOnBatt
    requires validCnt == |ValidSet(table, {}, k)|
    ensures var matches := FlagCounted(validCnt, on) == |ValidSet(table[i := table[i].(validOnBatt := on)], {}, k)|;
            matches <==> PlaceOf(table[i]) in {Timed, Active} || (!on && validCnt == 0)
  {
    var a := table[i].(validOnBatt := on);
    if PlaceOf(table[i]) in {Timed, Active} {
      ValidBitSet(table, {}, i, a, k);
    } else {
      NotCounted(table, i, a, k);
    }
    hide ValidSet;
  }

  /** Linking a live assertion under a type counts it right exactly when its flag is clear or the type counts
      flags now.  Interactive push does not while keep-alive is on. */
  lemma RelinkCounts(table: Table, r: AssertionType, i: Index, a: Assertion)
    requires i !in table && OneBit(a) && PlaceOf(a) in {Timed, Active}
    requires r.validCnt == |ValidSet(table, {}, a.kassert)|
    ensures var matches := r.MoreValid(a).validCnt == |ValidSet(table[i := a], {}, a.kassert)|; matches <==>
              !Uncounted(r, a)
  {
    var before, after := ValidSet(table, {}, a.kassert), ValidSet(table[i := a], {}, a.kassert);
    assert after == if a.validOnBatt then before + {i} else before;
  }

  lemma NotCounted(table: Table, i: Index, a: Assertion, k: TypeId)
    requires i in table && PlaceOf(table[i]) !in {Timed, Active} && PlaceOf(a) !in {Timed, Active}
    ensures ValidSet(table[i := a], {}, k) == ValidSet(table, {}, k)
  {
  }

  /** A release takes a suspended assertion for an active one.  The counter still matches exactly when the
      assertion is not valid on battery or the counter is already zero. */
  lemma SuspendedReleaseCounts(table: Table, k: TypeId, r: AssertionType, i: Index)
    requires i in table && table[i].kassert == k && OneBit(table[i]) && table[i].suspended
    requires r.validCnt == |ValidSet(table, {}, k)|
    ensures var matches := r.LessValid(table[i]).validCnt == |ValidSet(table - {i}, {}, k)|;
            matches <==> !(table[i].validOnBatt && r.validCnt > 0)
  {
    assert ValidSet(table - {i}, {}, k) == ValidSet(table, {}, k);
  }

  // ---- a run in which interactive push is forgotten on battery -------------------------

  /** One live valid-on-battery assertion of interactive push, of process 7. */
  predicate PushHeld(s: State, j: Index) {
    && j in s.table && s.table[j].pid == 7 && s.table[j].kassert == INTERACTIVE_PUSH && OneBit(s.table[j])
    && Counted(s.table[j])
    && s.table[j].causing == 0 && |s.types| == TYPE_COUNT && s.onBatt && s.suspendedPids == {} && s.powerd != 7
  }

  predicate PushRequest(q: Request) {
    q.name == Some(InteractivePushServiceTask) && q.level.On? && q.limitedPower && q.onBehalfOf.None? && q.age == 0
  }

  lemma PushRecord(s: State, q: Request)
    requires PushRequest(q) && s.interactiveAlias == INTERACTIVE_PUSH && Possible(s, Create(7, q))
               && s.types[INTERACTIVE_PUSH].notValidOnBatt
    ensures var a := NewRecord(s, Create(7, q));
            a.pid == 7 && a.kassert == INTERACTIVE_PUSH && OneBit(a) && Counted(a) && a.causing == 0
  {
    hide EffectiveTimeout;
  }

  lemma PushRaised(s: State, s': State, q: Request, j: Index)
    requires InvAt(s) && InvAt(s') && Stepped(s, Create(7, q), s') && PushRequest(q)
    requires s.table == map[] && s.suspendedPids == {} && s.powerd != 7 && s.onBatt && s.proxy.None?
    requires s.interactiveAlias == INTERACTIVE_PUSH && s.types[INTERACTIVE_PUSH].notValidOnBatt
               && INTERACTIVE_PUSH in s.exact
    requires j in s'.table && s'.table[j].pid == 7
    ensures PushHeld(s', j) && s'.types[INTERACTIVE_PUSH].validCnt == 1
  {
    hide InvAt, HandsOff, AllSameConfig, Staying, ProxyFrom, NewRecord, Become, TypesAfter, BackgroundAfter, Miscounts,
         Counters;
    var ev := Create(7, q);
    SizeOf(s);
    SizeOf(s');
    PushPossible(s, q);
    PushRecord(s, q);
    var i :| i !in s.table && s'.table.Keys == s.table.Keys + {i} && s'.table[i] == NewRecord(s, ev);
    assert j == i;
    PushCounted(s, s', q, j);
  }

  lemma PushPossible(s: State, q: Request)
    requires |s.types| == TYPE_COUNT && s.table == map[] && s.suspendedPids == {} && PushRequest(q)
    ensures Possible(s, Create(7, q)) && Creates(s, Create(7, q))
  {
    assert 0 !in s.table;
  }

  lemma PushCounted(s: State, s': State, q: Request, j: Index)
    requires InvAt(s') && Stepped(s, Create(7, q), s') && Possible(s, Create(7, q)) && INTERACTIVE_PUSH in s.exact
    requires s'.table.Keys == {j} && s'.table[j].kassert == INTERACTIVE_PUSH && Counted(s'.table[j])
    ensures s'.types[INTERACTIVE_PUSH].validCnt == 1
  {
    hide TimersAt, HouseAt, DerivesAt, HandsOff, AllSameConfig, Staying, ProxyFrom, Become, Appear, TypesAfter, Scalars,
         Counters, Possible;
    assert ValidSet(s'.table, {}, INTERACTIVE_PUSH) == {j};
    ExactIsCounted(s'.table, s'.types, {}, s'.exact, INTERACTIVE_PUSH);
  }

  lemma NotOurProxy(s: State, j: Index)
    requires InvAt(s) && PushHeld(s, j)
    ensures s.proxy != Some(j)
  {
    hide SoundAt, TimersAt, DerivesAt;
  }

  lemma ConfiguredFacts(s: State, s': State, k: TypeId, w: Surroundings)
    requires Stepped(s, Configured(k, w), s')
    ensures s'.types == TypesAfter(s, Configured(k, w)) && s'.onBatt == s.onBatt && s'.suspendedPids == s.suspendedPids
              && s'.powerd == s.powerd
  {
    hide TypesAfter, BackgroundAfter, PushAlias, InteractiveAlias, HandsOff, AllSameConfig, Staying, ProxyFrom, Become,
         Appear;
  }

  lemma PushConfigured(s: State, s': State, w: Surroundings, j: Index)
    requires InvAt(s) && Stepped(s, Configured(INTERACTIVE_PUSH, w), s') && PushHeld(s, j)
    ensures PushHeld(s', j) && s'.types[INTERACTIVE_PUSH].validCnt == s.types[INTERACTIVE_PUSH].validCnt
    ensures w.keepAlive ==> !s'.types[INTERACTIVE_PUSH].notValidOnBatt
    ensures !w.keepAlive && !w.sleepServiceWake ==> s'.types[INTERACTIVE_PUSH].notValidOnBatt
  {
    hide InvAt, Stepped;
    NotOurProxy(s, j);
    ConfiguredFacts(s, s', INTERACTIVE_PUSH, w);
    EntryAfter(s, Configured(INTERACTIVE_PUSH, w), s', j);
  }

  /** A client asks for a minute. */
  function AskMinute(): Props {
    Props(None, Some(60.0), None, None, None)
  }

  lemma PushUpdated(types: Types, a: Assertion, k: TypeId, now: nat)
    requires |types| == TYPE_COUNT && OneBit(a) && Counted(a) && a.kassert == INTERACTIVE_PUSH
               && !types[INTERACTIVE_PUSH].notValidOnBatt
    ensures PlanFor(a.inactive, AskMinute()) == Plan.Retime
    ensures var b := Updated(types, a, AskMinute(), k, now);
            b.pid == a.pid && b.kassert == a.kassert && OneBit(b) && Counted(b) && b.causing == a.causing
    ensures INTERACTIVE_PUSH in Missed(types, WithProps(a, AskMinute(), types[INTERACTIVE_PUSH].notValidOnBatt),
              Plan.Retime, k)
  {
    hide EffectiveTimeout;
  }

  lemma UpdateFacts(s: State, s': State, id: nat, props: Props)
    requires Stepped(s, SetProperties(7, id, props), s') && Possible(s, SetProperties(7, id, props))
               && IndexFromId(id) in s.table
    ensures s'.onBatt == s.onBatt && s'.suspendedPids == s.suspendedPids && s'.powerd == s.powerd
              && |s'.types| == TYPE_COUNT
    ensures forall t :: t in Miscounts(s, SetProperties(7, id, props)) ==>
              s'.types[t].validCnt == CountAfterMiss(s.types[t], PlanFor(s.table[IndexFromId(id)].inactive, props))
  {
    hide HandsOff, Staying, ProxyFrom, Become, Appear, Miscounts, PlanFor, CountAfterMiss, Possible;
  }

  /** With keep-alive on, a client's new timeout takes the assertion off the count and does not put it back. */
  lemma PushRetimed(s: State, s': State, id: nat)
    requires InvAt(s) && Stepped(s, SetProperties(7, id, AskMinute()), s') && PushHeld(s, IndexFromId(id))
    requires !s.types[INTERACTIVE_PUSH].notValidOnBatt && s.types[INTERACTIVE_PUSH].validCnt == 1
    ensures PushHeld(s', IndexFromId(id)) && s'.types[INTERACTIVE_PUSH].validCnt == 0
  {
    hide InvAt, Stepped, Updated, Missed, WithProps, PlanFor;
    var i := IndexFromId(id);
    NotOurProxy(s, i);
    PushUpdated(s.types, s.table[i], s.Resolve(s.table[i].name), s.now);
    UpdateFacts(s, s', id, AskMinute());
    EntryAfter(s, SetProperties(7, id, AskMinute()), s', i);
  }

  /** Raised on battery and valid there, then keep-alive comes on, the client gives a new timeout, keep-alive goes
      off: the type is one that keeps assertions out on battery again, its counter is zero although the live
      assertion is valid on battery, and so the type reads as inactive. */
  lemma PushForgotten(s0: State, s1: State, s2: State, s3: State, s4: State, q: Request, id: nat, on: Surroundings,
                      off: Surroundings)
    requires InvAt(s0) && InvAt(s1) && InvAt(s2) && InvAt(s3) && InvAt(s4)
    requires Stepped(s0, Create(7, q), s1) && PushRequest(q) && IndexFromId(id) in s1.table
               && s1.table[IndexFromId(id)].pid == 7
    requires Stepped(s1, Configured(INTERACTIVE_PUSH, on), s2) && on.keepAlive
    requires Stepped(s2, SetProperties(7, id, AskMinute()), s3)
    requires Stepped(s3, Configured(INTERACTIVE_PUSH, off), s4) && !off.keepAlive && !off.sleepServiceWake
    requires s0.table == map[] && s0.suspendedPids == {} && s0.powerd != 7 && s0.onBatt && s0.proxy.None?
    requires s0.interactiveAlias == INTERACTIVE_PUSH && s0.types[INTERACTIVE_PUSH].notValidOnBatt
               && INTERACTIVE_PUSH in s0.exact
    ensures PushHeld(s4, IndexFromId(id)) && s4.onBatt && s4.types[INTERACTIVE_PUSH].notValidOnBatt
    ensures s4.types[INTERACTIVE_PUSH].validCnt == 0 && !s4.types[INTERACTIVE_PUSH].IsOn(s4.onBatt)
  {
    hide InvAt, Stepped;
    PushRaised(s0, s1, q, IndexFromId(id));
    PushConfigured(s1, s2, on, IndexFromId(id));
    PushRetimed(s2, s3, id);
    PushConfigured(s3, s4, off, IndexFromId(id));
  }

  /** The engine really gets there. */
  method ForgetPush(q: Request, w: Surroundings, off: Surroundings) returns (e: Engine, id: nat)
    requires PushRequest(q) && !w.sleepServiceWake && !w.keepAlive && !off.keepAlive && !off.sleepServiceWake
    ensures e.Inv() && PushHeld(StateOf(e), IndexFromId(id))
    ensures e.types[INTERACTIVE_PUSH].notValidOnBatt && !e.types[INTERACTIVE_PUSH].IsOn(e.onBatt)
  {
    hide SoundAt, TimersAt, HouseAt, DerivesAt, ViewOf, InvAt, Stepped, NamesAt;
    ghost var trace;
    e, trace := EngineRun.RunFromBoot(1, 0, true, 0, 0, w, []);
    ghost var s0 := StateOf(e);
    trace := EngineRun.Run(e, [Create(7, q)]);
    ghost var s1 := StateOf(e);
    assert Stepped(trace[0], [Create(7, q)][0], trace[0 + 1]);
    id := FindPush(e, s0, q);
    var on := w.(keepAlive := true);
    var events :=
        [Configured(INTERACTIVE_PUSH, on), SetProperties(7, id, AskMinute()), Configured(INTERACTIVE_PUSH, off)];
    trace := EngineRun.Run(e, events);
    assert forall n :: 0 <= n < 3 ==> Stepped(trace[n], events[n], trace[n + 1]);
    BootFlags(w);
    PushForgotten(s0, s1, trace[1], trace[2], trace[3], q, id, on, off);
  }

  lemma BootFlags(w: Surroundings)
    requires !w.sleepServiceWake && !w.keepAlive
    ensures InitialTypes(w, true)[INTERACTIVE_PUSH].notValidOnBatt
  {
  }

  /** The id of the one assertion there is. */
  method FindPush(e: Engine, ghost s: State, q: Request) returns (id: nat)
    requires InvAt(s) && e.Inv() && Stepped(s, Create(7, q), StateOf(e)) && PushRequest(q)
    requires s.table == map[] && s.suspendedPids == {} && s.proxy.None?
    ensures IndexFromId(id) in e.table && e.table[IndexFromId(id)].pid == 7
  {
    hide SoundAt, TimersAt, DerivesAt, HouseAt, HandsOff, AllSameConfig, Staying, ProxyFrom, EffectiveTimeout;
    assert 0 !in s.table;
    assert HasFree(s.table) && Creates(s, Create(7, q));
    assert exists i :: i in e.table && e.table[i].pid == 7;
    var i :| i in e.table && e.table[i].pid == 7;
    BelowLimit(e, i);
    IdRoundTrip(i);
    id := IdFromIndex(i);
  }

  lemma BelowLimit(e: Engine, i: Index)
    requires e.Inv() && i in e.table
    ensures i < MAX_ASSERTIONS
  {
    SoundFacts(e.table, e.types, e.limbo, e.exact, i);
  }
}
