/**
 What holds in every run of the assertion engine: the invariants in plain words, the display hand-off, and
 suspension with anything in between.
 */
module EngineHistory {
  import opened Common
  import opened EffectMirror
  import opened AssertionLists
  import opened AssertionEngine
  import opened Reconfiguration
  import opened EngineSteps
  import EngineCounters
  import EngineRun
  import Retiming

  // ---- every state ---------------------------------------------------------------------

  /** Every id names one assertion, on exactly one list of exactly one type, as its state bits say. */
  ghost predicate Partitioned(s: State) {
    && |s.types| == TYPE_COUNT
    && (forall i :: i in s.table ==> i < MAX_ASSERTIONS && OneBit(s.table[i]))
    && (forall t: TypeId, p, i :: i in s.types[t].ListAt(p) <==>
         i in s.table && s.table[i].kassert == t && PlaceOf(s.table[i]) == p)
    && (forall t: TypeId, p :: NoDup(s.types[t].ListAt(p)))
    && (forall t: TypeId :: Sorted(s.table, s.types[t].timed))
  }

  /** Every deadline that has passed has its timer due or a timeout run queued. */
  ghost predicate Watched(s: State)
    requires |s.types| == TYPE_COUNT
  {
    forall i :: i in s.table && s.table[i].timed && s.table[i].timeout <= s.now ==>
      var timer := s.types[s.table[i].kassert].timer;
      timer.runs > 0 || (timer.created && timer.armed.Some? && timer.armed.value <= s.now)
  }

  /** The derived state is what a recomputation over the lists gives. */
  ghost predicate Recomputed(s: State)
    requires |s.types| == TYPE_COUNT
  {
    Mirrored(ViewOf(s.types, s.onBatt), s.derived)
  }

  lemma InvPartitions(s: State)
    requires InvAt(s)
    ensures Partitioned(s)
  {
    hide TimersAt, HouseAt, DerivesAt, ViewOf;
    forall t: TypeId, p
      ensures NoDup(s.types[t].ListAt(p)) && Sorted(s.table, s.types[t].timed)
      ensures forall i :: i in s.types[t].ListAt(p) <==>
                i in s.table && s.table[i].kassert == t && PlaceOf(s.table[i]) == p
    {
      assert ListsOK(s.table, {}, t, s.types[t]);
    }
  }

  lemma InvWatches(s: State)
    requires InvAt(s)
    ensures Watched(s)
  {
    hide HouseAt, DerivesAt, ViewOf;
    forall i | i in s.table && s.table[i].timed && s.table[i].timeout <= s.now
      ensures var timer := s.types[s.table[i].kassert].timer;
              timer.runs > 0 || (timer.created && timer.armed.Some? && timer.armed.value <= s.now)
    {
      var k := s.table[i].kassert;
      InItsList(s.table, s.types, {}, s.exact, i);
      TimedFacts(s.table, s.types, {}, s.exact, k);
      TimersOne(s.table, s.types, s.now, k);
      var x :| 0 <= x < |s.types[k].timed| && s.types[k].timed[x] == i;
    }
  }

  /** Whatever happens, in whatever order: the lists partition the assertions, the derived state is what a
      recomputation over the lists gives, and no deadline is forgotten, in every state of the run. */
  lemma SafeThroughout(trace: seq<State>, events: seq<Event>, n: nat)
    requires Runs(trace, events) && n <= |events|
    ensures Partitioned(trace[n]) && Watched(trace[n]) && Recomputed(trace[n])
  {
    hide Stepped, SoundAt, TimersAt, HouseAt;
    InvPartitions(trace[n]);
    InvWatches(trace[n]);
    hide Partitioned, Watched, Mirrored;
  }

  // ---- the display hand-off ------------------------------------------------------------

  lemma ProxyIsOn(s: State)
    requires InvAt(s) && s.HandedOff()
    ensures SlotOf(s.types[INT_PREVENT_DISPLAY_SLEEP], s.onBatt).on
  {
    InItsList(s.table, s.types, {}, s.exact, s.proxy.value);
    assert TypeOK(INT_PREVENT_DISPLAY_SLEEP, s.types[INT_PREVENT_DISPLAY_SLEEP]);
  }

  lemma OnSetsDisplayBit(s: State, k: TypeId)
    requires InvAt(s) && k in {PREVENT_DISPLAY_SLEEP, INT_PREVENT_DISPLAY_SLEEP}
    requires SlotOf(s.types[k], s.onBatt).on && s.types[k].effect != NoEffect
    ensures PreventDisplaySleepBit in s.derived.ker
  {
    assert TypeOK(k, s.types[k]);
    hide SoundAt, TimersAt, HouseAt;
    var v := ViewOf(s.types, s.onBatt);
    assert v[k].on && v[k].effect == BitEffect(PreventDisplaySleepBit);
    assert EffectOn(v, BitEffect(PreventDisplaySleepBit));
  }

  lemma LiveIsOn(s: State)
    requires InvAt(s) && s.types[PREVENT_DISPLAY_SLEEP].HasLive()
    ensures SlotOf(s.types[PREVENT_DISPLAY_SLEEP], s.onBatt).on
  {
    assert TypeOK(PREVENT_DISPLAY_SLEEP, s.types[PREVENT_DISPLAY_SLEEP]);
  }

  /** A client's display assertion is released, switched off, suspended, times out or goes with its process: the
      display bit was set before, as long as the type had a live assertion, and it is still set after the release
      handler has run, whatever else the type had. */
  lemma DisplayStaysOn(s: State, ev: Event, s': State)
    requires InvAt(s) && InvAt(s') && Stepped(s, ev, s') && Possible(s, ev) && HandsOff(s, ev) && s.CanHandOff()
    requires s.types[PREVENT_DISPLAY_SLEEP].effect != NoEffect && s.types[INT_PREVENT_DISPLAY_SLEEP].effect != NoEffect
    ensures s.types[PREVENT_DISPLAY_SLEEP].HasLive() ==> PreventDisplaySleepBit in s.derived.ker
    ensures PreventDisplaySleepBit in s'.derived.ker && s'.HandedOff()
  {
    hide InvAt, Become, Appear, ProxyFrom, Staying, Miscounts, Scalars;
    if s.types[PREVENT_DISPLAY_SLEEP].HasLive() {
      LiveIsOn(s);
      OnSetsDisplayBit(s, PREVENT_DISPLAY_SLEEP);
    }
    ProxyIsOn(s');
    assert SameConfig(TypesAfter(s, ev)[INT_PREVENT_DISPLAY_SLEEP], s'.types[INT_PREVENT_DISPLAY_SLEEP]);
    OnSetsDisplayBit(s', INT_PREVENT_DISPLAY_SLEEP);
  }

  /** The event takes live assertions away, or updates one. */
  predicate TakesAway(ev: Event) {
    ev.ReleaseOne? || ev.SetProperties? || ev.TimerGoesOff? || ev.RunStarts? || ev.ProcessExits? || ev.ProcessSuspends?
  }

  /** The event switches an assertion on. */
  predicate SwitchesOn(s: State, ev: Event) {
    && ev.SetProperties? && Named(s, ev.pid, ev.id) && !Refused(s.suspendedPids, s.table[IndexFromId(ev.id)])
    && PlanFor(s.table[IndexFromId(ev.id)].inactive, ev.props).TurnItOn?
  }

  /** The display bit is set exactly when some live assertion is linked to it: no type that is kept out on battery
      is. */
  lemma DisplayBitMeans(s: State)
    requires InvAt(s)
    ensures |s.types| == TYPE_COUNT
    ensures PreventDisplaySleepBit in s.derived.ker <==> exists i :: EngineCounters.Asserts(s, i, PrevDisplaySlp)
  {
    hide InvAt, EngineCounters.CounterRight;
    SizeOf(s);
    EngineCounters.MirrorOf(s);
    var v := ViewOf(s.types, s.onBatt);
    assert BitEffect(PreventDisplaySleepBit) == PrevDisplaySlp;
    forall t: TypeId | v[t].effect == PrevDisplaySlp
      ensures v[t].on <==> exists i :: EngineCounters.Asserts(s, i, PrevDisplaySlp) && s.table[i].kassert == t
    {
      NotKeptOut(s, t);
      EngineCounters.OnFromAssertions(s, t);
    }
    if i :| EngineCounters.Asserts(s, i, PrevDisplaySlp) {
      EffectOfLive(s, i);
    }
  }

  lemma NotKeptOut(s: State, t: TypeId)
    requires InvAt(s) && |s.types| == TYPE_COUNT && s.types[t].effect == PrevDisplaySlp
    ensures !s.types[t].notValidOnBatt
  {
    hide TimersAt, HouseAt, DerivesAt;
    assert TypeOK(t, s.types[t]);
  }

  lemma EffectOfLive(s: State, i: Index)
    requires |s.types| == TYPE_COUNT && EngineCounters.Asserts(s, i, PrevDisplaySlp)
    ensures i in s.table && ViewOf(s.types, s.onBatt)[s.table[i].kassert].effect == PrevDisplaySlp
  {
  }

  /** What an event that only takes away leaves live was live before, under the same type. */
  lemma LiveBefore(s: State, ev: Event, j: Index, a: Assertion)
    requires |s.types| == TYPE_COUNT && OneBit(a) && TakesAway(ev) && !SwitchesOn(s, ev) && j in s.table
               && s.table[j] == a && (ev.SetProperties? ==> !LevelOffWithTimeout(ev.props))
    requires a.suspended ==> Refused(s.suspendedPids, a)
    ensures After(s, ev, j, a).Some? && PlaceOf(After(s, ev, j, a).value) in {Timed, Active} ==>
              PlaceOf(a) in {Timed, Active} && After(s, ev, j, a).value.kassert == a.kassert
  {
    hide WithProps, PlanFor;
    if ev.SetProperties? {
      PlanFacts(a.inactive, ev.props);
      WithPropsFacts(a, ev.props, s.types[a.kassert].notValidOnBatt, true);
    }
  }

  /** Nobody's live display assertion goes, is switched off, expires or is suspended, and nothing is switched on:
      then powerd's proxy is treated like any other assertion, and the display bit does not come on. */
  lemma DisplayStaysOff(s: State, ev: Event, s': State)
    requires InvAt(s) && InvAt(s') && Possible(s, ev) && Stepped(s, ev, s') && TakesAway(ev) && !HandsOff(s, ev)
    ensures s'.proxy == s.proxy
    ensures s.proxy.Some? ==>
              && s.proxy.value in s.table && s.proxy.value in s'.table
              && After(s, ev, s.proxy.value, s.table[s.proxy.value]) == Some(s'.table[s.proxy.value])
    ensures PreventDisplaySleepBit in s'.derived.ker && !SwitchesOn(s, ev) ==> PreventDisplaySleepBit in s.derived.ker
  {
    hide InvAt, Possible, Stepped, After, TakesAway, SwitchesOn, HandsOff, EngineCounters.Asserts;
    QuietStep(s, ev, s');
    DisplayBitMeans(s);
    DisplayBitMeans(s');
    if PreventDisplaySleepBit in s'.derived.ker && !SwitchesOn(s, ev) {
      var i :| EngineCounters.Asserts(s', i, PrevDisplaySlp);
      LiveStays(s, ev, s', i);
    }
  }

  lemma QuietStep(s: State, ev: Event, s': State)
    requires InvAt(s) && InvAt(s') && Possible(s, ev) && Stepped(s, ev, s') && TakesAway(ev) && !HandsOff(s, ev)
    ensures s'.proxy == s.proxy
    ensures s.proxy.Some? ==>
              && s.proxy.value in s.table && s.proxy.value in s'.table
              && After(s, ev, s.proxy.value, s.table[s.proxy.value]) == Some(s'.table[s.proxy.value])
  {
    hide SoundAt, TimersAt, DerivesAt, Possible, Appear, ProxyFrom, Staying, Miscounts, Scalars, Counters, HandsOff,
         AllSameConfig, After;
  }

  lemma LiveStays(s: State, ev: Event, s': State, i: Index)
    requires InvAt(s) && Possible(s, ev) && Stepped(s, ev, s') && TakesAway(ev) && !HandsOff(s, ev)
    requires !SwitchesOn(s, ev) && |s.types| == |s'.types| == TYPE_COUNT
               && EngineCounters.Asserts(s', i, PrevDisplaySlp)
    ensures EngineCounters.Asserts(s, i, PrevDisplaySlp)
  {
    hide InvAt, Possible, ProxyFrom, Staying, Miscounts, Scalars, Counters, HandsOff, After, SwitchesOn;
    assert i in s.table;
    EngineCounters.AllOneBit(s);
    EngineCounters.SuspendedRefused(s);
    assert ev.SetProperties? ==> !LevelOffWithTimeout(ev.props) by { UpdateAllowed(s, ev); }
    LiveBefore(s, ev, i, s.table[i]);
    NotKeptOutNow(s);
    assert SameConfig(TypesAfter(s, ev)[s.table[i].kassert], s'.types[s.table[i].kassert]);
  }

  lemma UpdateAllowed(s: State, ev: Event)
    requires Possible(s, ev)
    ensures ev.SetProperties? ==> !LevelOffWithTimeout(ev.props)
  {
  }

  lemma NotKeptOutNow(s: State)
    requires InvAt(s) && |s.types| == TYPE_COUNT
    ensures forall t: TypeId :: s.types[t].effect == PrevDisplaySlp ==> !s.types[t].notValidOnBatt
  {
    hide InvAt;
    forall t: TypeId | s.types[t].effect == PrevDisplaySlp ensures !s.types[t].notValidOnBatt {
      NotKeptOut(s, t);
    }
  }

  // ---- suspension with anything in between ---------------------------------------------

  /** The event resumes an assertion. */
  predicate Resumes(s: State, ev: Event, a: Assertion) {
    ev.ProcessResumes? && ev.pid in s.suspendedPids && Concerns(a, ev.pid)
  }

  /** The event declares activity on assertion `i`. */
  predicate Declares(s: State, ev: Event, i: Index) {
    && Possible(s, ev) && (ev.DeclareActive? || ev.DeclareNetwork?)
    && Retiming.Extends(s.table, ev.pid, ev.id, DeclaredType(ev)) && IndexFromId(ev.id) == i
  }

  /** References and the level aside, the record is the one it was. */
  predicate Untouched(a: Assertion, b: Assertion) {
    b == a.(retain := b.retain, level := b.level)
  }

  /** What is suspended stays as it is, deadline and remainder included, until it is resumed or released; only a
      declaration sets its level, although the declaration itself is refused. */
  lemma SuspendedStays(s: State, ev: Event, s': State, i: Index)
    requires InvAt(s) && Stepped(s, ev, s') && i in s.table && s.table[i].suspended
    requires !Resumes(s, ev, s.table[i]) && After(s, ev, i, s.table[i]).Some?
    ensures i in s'.table && s'.table[i].suspended && Untouched(s.table[i], s'.table[i])
    ensures s'.table[i].level == if Declares(s, ev, i) then On else s.table[i].level
  {
    hide TimersAt, DerivesAt, After, Possible, Stepped;
    InItsList(s.table, s.types, {}, s.exact, i);
    hide SoundAt;
    EntryAfter(s, ev, s', i);
    SuspendedAfter(s, ev, i, s.table[i]);
  }

  lemma SuspendedAfter(s: State, ev: Event, i: Index, a: Assertion)
    requires |s.types| == TYPE_COUNT && a.suspended && OneBit(a) && Refused(s.suspendedPids, a) && !Resumes(s, ev, a)
               && i in s.table && s.table[i] == a
    ensures After(s, ev, i, a).Some? ==>
              var b := After(s, ev, i, a).value;
              && b.suspended && Untouched(a, b)
              && (Possible(s, ev) ==> b.level == if Declares(s, ev, i) then On else a.level)
  {
    hide Updated, PushCap, Retiming.DisplayChange, Retiming.IdleChange, Retiming.Shifted, DeclaredProps, Possible;
  }

  /** Events `first` to `end` neither resume nor release the suspended assertion. */
  ghost predicate LeftSuspended(trace: seq<State>, events: seq<Event>, i: Index, first: nat, end: nat)
    requires |trace| == |events| + 1 && end <= |events|
  {
    forall m :: first <= m < end ==>
      |trace[m].types| == TYPE_COUNT && i in trace[m].table && !Resumes(trace[m], events[m], trace[m].table[i])
      && After(trace[m], events[m], i, trace[m].table[i]).Some?
  }

  /** Some event from `first` up to `end` declares activity on the assertion. */
  ghost predicate Declared(trace: seq<State>, events: seq<Event>, i: Index, first: nat, end: nat)
    requires |trace| == |events| + 1 && end <= |events|
  {
    exists m :: first <= m < end && Declares(trace[m], events[m], i)
  }

  lemma {:induction false} SuspendedThroughout(trace: seq<State>, events: seq<Event>, i: Index, first: nat, end: nat)
    requires Runs(trace, events) && first <= end <= |events| && i in trace[first].table
               && trace[first].table[i].suspended
    requires LeftSuspended(trace, events, i, first, end)
    ensures i in trace[end].table && trace[end].table[i].suspended
              && Untouched(trace[first].table[i], trace[end].table[i])
    ensures trace[end].table[i].level
              == if Declared(trace, events, i, first, end) then On else trace[first].table[i].level
    decreases end
  {
    hide InvAt, NamesAt, Stepped, Resumes, Declares;
    if first < end {
      assert LeftSuspended(trace, events, i, first, end - 1);
      SuspendedThroughout(trace, events, i, first, end - 1);
      assert Stepped(trace[end - 1], events[end - 1], trace[end - 1 + 1]);
      SuspendedStays(trace[end - 1], events[end - 1], trace[end], i);
      assert Declared(trace, events, i, first, end)
        <==> Declared(trace, events, i, first, end - 1) || Declares(trace[end - 1], events[end - 1], i);
    }
  }

  /** The record of an assertion after a suspension at `t0` and a resumption at `t1`, declared in between or not:
      inactive exactly when it was switched off and not declared; otherwise timed again exactly when time was left,
      with just that time, and active when none was; nothing but its references is changed besides. */
  predicate BackFrom(a: Assertion, b: Assertion, declared: bool, t0: nat, t1: nat) {
    var left := if a.timeout > t0 then a.timeout - t0 else a.resumeIn;
    && b == a.(timed := b.timed, inactive := b.inactive, suspended := false, timeout := b.timeout, retain := b.retain,
               level := b.level, resumeIn := b.resumeIn)
    && OneBit(b) && b.level == (if declared then On else a.level)
    && (b.inactive <==> a.level.Off? && !declared)
    && (b.timed <==> !b.inactive && left != 0)
    && (b.timed ==> b.timeout - t1 == left && b.resumeIn == 0)
    && (!b.timed ==> b.timeout == a.timeout && b.resumeIn == left)
  }

  /** A process that owns assertion `i`, or that `i` was raised for, is suspended by the first event of a run; the
      last event resumes `i`, and whatever happens in between neither resumes nor releases it.  Then the whole
      record is given by the one before and by whether anyone declared activity on it in between. */
  lemma RoundTrip(trace: seq<State>, events: seq<Event>, i: Index)
    requires Runs(trace, events) && |events| >= 2
    requires events[0].ProcessSuspends? && events[0].known && Possible(trace[0], events[0])
               && events[0].pid !in trace[0].suspendedPids
    requires i in trace[0].table && Concerns(trace[0].table[i], events[0].pid) && !trace[0].table[i].suspended
    requires LeftSuspended(trace, events, i, 1, |events| - 1)
    requires i in trace[|events| - 1].table
               && Resumes(trace[|events| - 1], events[|events| - 1], trace[|events| - 1].table[i])
    ensures i in trace[|events|].table
    ensures BackFrom(trace[0].table[i], trace[|events|].table[i], Declared(trace, events, i, 1, |events| - 1),
              trace[0].now, trace[|events|].now)
    ensures trace[|events|].table[i].inactive <==>
              trace[0].table[i].level.Off? && forall m :: 1 <= m < |events| - 1 ==> !Declares(trace[m], events[m], i)
  {
    hide InvAt, NamesAt, Stepped, Declares, Possible;
    var last := |events| - 1;
    assert Stepped(trace[0], events[0], trace[0 + 1]) && Stepped(trace[last], events[last], trace[last + 1]);
    assert InvAt(trace[0]) && InvAt(trace[last]);
    SuspensionStep(trace[0], events[0], trace[1], i);
    SuspendedThroughout(trace, events, i, 1, last);
    ResumptionStep(trace[last], events[last], trace[|events|], i);
    BackAgain(trace[0].table[i], trace[last].table[i], Declared(trace, events, i, 1, last), trace[0].now,
        trace[last].now);
  }

  lemma SuspensionStep(s: State, ev: Event, s': State, i: Index)
    requires InvAt(s) && Stepped(s, ev, s') && ev.ProcessSuspends? && ev.known && Possible(s, ev)
               && ev.pid !in s.suspendedPids
    requires i in s.table && Concerns(s.table[i], ev.pid) && !s.table[i].suspended
    ensures i in s'.table && OneBit(s.table[i]) && s'.table[i] == SuspendedForm(s.table[i], s.now)
  {
    hide TimersAt, DerivesAt, AllSameConfig, Appear, ProxyFrom, Miscounts, SuspendedForm, HandsOff, Counters;
    InItsList(s.table, s.types, {}, s.exact, i);
    hide SoundAt;
  }

  lemma ResumptionStep(s: State, ev: Event, s': State, i: Index)
    requires InvAt(s) && Stepped(s, ev, s') && i in s.table && s.table[i].suspended && Resumes(s, ev, s.table[i])
    ensures i in s'.table && s'.now == s.now && s'.table[i] == ResumedForm(s.table[i], s.now)
  {
    hide TimersAt, DerivesAt, AllSameConfig, Appear, ProxyFrom, Miscounts, ResumedForm, SoundAt, HandsOff, Counters;
  }

  lemma BackAgain(a: Assertion, c: Assertion, declared: bool, t0: nat, t1: nat)
    requires OneBit(a) && !a.suspended && Untouched(SuspendedForm(a, t0), c)
               && c.level == if declared then On else a.level
    ensures BackFrom(a, ResumedForm(c, t1), declared, t0, t1)
  {
  }

  // ---- a run that switches an assertion back on ----------------------------------------

  /** What the client asked for: an assertion that is switched off. */
  predicate AskedOff(q: Request, given: Props) {
    q.age == 0 && given.level == Some(Off)
  }

  /** Its process is suspended, declares activity on the assertion, which is refused, and is resumed. */
  function RevivingEvents(id: nat, q: Request, again: Props): seq<Event> {
    [ProcessSuspends(7, true), DeclareActive(7, id, q, again), ProcessResumes(7)]
  }

  /** The process has an assertion that is switched off and has no time left. */
  predicate SwitchedOff(s: State, i: Index) {
    && i in s.table && s.powerd != 7 && 7 !in s.suspendedPids
    && var a := s.table[i];
       && a.kassert == DECLARE_USER_ACTIVITY && a.pid == 7 && a.inactive && !a.suspended && a.level.Off?
       && a.timeout == 0 && a.resumeIn == 0
  }

  /** Switched off before and live, without a deadline, after: the refused declaration had set the level. */
  lemma Revived(trace: seq<State>, id: nat, q: Request, again: Props)
    requires Runs(trace, RevivingEvents(id, q, again)) && SwitchedOff(trace[0], IndexFromId(id))
    requires id != 0 && q.age == 0 && again.level != Some(Off)
    ensures var i := IndexFromId(id); i in trace[3].table && PlaceOf(trace[3].table[i]) == Active
  {
    var evs, i := RevivingEvents(id, q, again), IndexFromId(id);
    RevivedSteps(trace, id, q, again);
    hide InvAt, NamesAt, Stepped, Declares, Possible, After;
    assert Declares(trace[1], evs[1], i);
    assert Declared(trace, evs, i, 1, 2);
    RoundTrip(trace, evs, i);
  }

  lemma RevivedSteps(trace: seq<State>, id: nat, q: Request, again: Props)
    requires Runs(trace, RevivingEvents(id, q, again)) && SwitchedOff(trace[0], IndexFromId(id))
    requires id != 0 && q.age == 0 && again.level != Some(Off)
    ensures var evs, i := RevivingEvents(id, q, again), IndexFromId(id);
            && Possible(trace[0], evs[0]) && Declares(trace[1], evs[1], i) && LeftSuspended(trace, evs, i, 1, 2)
            && i in trace[2].table && Resumes(trace[2], evs[2], trace[2].table[i])
  {
    hide InvAt, NamesAt, Stepped, SuspendedForm, DeclaredProps;
    var evs, i := RevivingEvents(id, q, again), IndexFromId(id);
    assert Stepped(trace[0], evs[0], trace[0 + 1]) && Stepped(trace[1], evs[1], trace[1 + 1]);
    assert InvAt(trace[0]) && InvAt(trace[1]);
    SizeOf(trace[0]);
    SizeOf(trace[1]);
    SuspensionStep(trace[0], evs[0], trace[1], i);
    PidsAfter(trace[0], evs[0], trace[1]);
    SuspendedFacts(trace[0].table[i], trace[0].now);
    NotOff(trace[1], evs[1]);
    assert After(trace[1], evs[1], i, trace[1].table[i]).Some?;
    assert LeftSuspended(trace, evs, i, 1, 2);
    SuspendedStays(trace[1], evs[1], trace[2], i);
    PidsAfter(trace[1], evs[1], trace[2]);
  }

  lemma NotOff(s: State, ev: Event)
    requires ev.DeclareActive? && ev.given.level != Some(Off)
    ensures !LevelOffWithTimeout(DeclaredProps(s, ev))
  {
  }

  lemma SuspendedFacts(a: Assertion, now: nat)
    ensures var b := SuspendedForm(a, now); b.suspended && b.pid == a.pid && b.kassert == a.kassert
  {
  }

  lemma PidsAfter(s: State, ev: Event, s': State)
    requires Stepped(s, ev, s') && Possible(s, ev)
    ensures s'.suspendedPids == Scalars(s, ev).suspendedPids && s'.powerd == s.powerd
  {
    hide Possible, Become, Appear, ProxyFrom, HandsOff, Counters, Miscounts, AllSameConfig, TypesAfter, Staying,
         BackgroundAfter;
  }

  /** A declaration that asks for level off makes such an assertion. */
  lemma RaisedOff(s: State, s': State, q: Request, given: Props)
    requires InvAt(s) && Stepped(s, DeclareActive(7, 0, q, given), s') && AskedOff(q, given)
    requires s.table == map[] && s.suspendedPids == {} && s.powerd != 7
    ensures exists i :: i in s'.table
    ensures forall i :: i in s'.table ==> SwitchedOff(s', i)
  {
    hide InvAt, Become, ProxyFrom, Miscounts, Staying, AllSameConfig, HandsOff, Counters;
    var ev := DeclareActive(7, 0, q, given);
    SizeOf(s);
    assert 0 !in s.table;
    assert HasFree(s.table) && Possible(s, ev) && Creates(s, ev);
    assert NewRecord(s, ev).inactive;
  }

  /** The engine really gets there. */
  method Revive(onBatt: bool, displayTimer: nat, idleTimer: nat, w: Surroundings, q: Request, given: Props,
                again: Props)
      returns (e: Engine, id: nat)
    requires (w.sleepServiceWake ==> w.keepAlive) && AskedOff(q, given) && again.level != Some(Off)
    ensures e.Inv() && IndexFromId(id) in e.table && PlaceOf(e.table[IndexFromId(id)]) == Active
  {
    hide SoundAt, TimersAt, HouseAt, DerivesAt, ViewOf, InvAt, Stepped, NamesAt, SwitchedOff;
    var first := [DeclareActive(7, 0, q, given)];
    ghost var trace;
    e, trace := EngineRun.RunFromBoot(1, 0, onBatt, displayTimer, idleTimer, w, first);
    assert Stepped(trace[0], first[0], trace[0 + 1]);
    RaisedOff(trace[0], trace[1], q, given);
    assert exists i :: i in e.table;
    var i :| i in e.table;
    SoundFacts(e.table, e.types, e.limbo, e.exact, i);
    IdRoundTrip(i);
    id := IdFromIndex(i);
    trace := EngineRun.Run(e, RevivingEvents(id, q, again));
    Revived(trace, id, q, again);
  }
}
