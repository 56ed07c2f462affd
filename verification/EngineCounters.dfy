/**
 The valid-on-battery counters over whole runs: which events leave them right and which do not, and what the
 derived state means while they are right.
 */
module EngineCounters {
  import opened Common
  import opened EffectMirror
  import opened AssertionLists
  import opened EngineSteps
  import ProcessExit
  import Suspension

  // ---- counters ------------------------------------------------------------------------

  /** The valid-on-battery counter of a type is the number of its timed and active assertions with the flag. */
  ghost predicate CounterRight(s: State, t: TypeId) {
    |s.types| == TYPE_COUNT && s.types[t].validCnt == |ValidSet(s.table, {}, t)|
  }

  lemma ExactIsRight(s: State, t: TypeId)
    requires InvAt(s) && t in s.exact
    ensures CounterRight(s, t)
  {
    ExactIsCounted(s.table, s.types, {}, s.exact, t);
  }

  /** A counter that is exact at the start is right in every state up to the first event that miscounts its
      type.  From boot all four counters are exact. */
  lemma {:induction false} CountersThroughout(trace: seq<State>, events: seq<Event>, t: TypeId, n: nat)
    requires Runs(trace, events) && n <= |events| && t in trace[0].exact
    requires forall m :: 0 <= m < n ==> t !in Miscounts(trace[m], events[m])
    ensures t in trace[n].exact && CounterRight(trace[n], t)
  {
    hide SoundAt, TimersAt, HouseAt, DerivesAt, NamesAt, CounterRight, Miscounts, Become, Appear;
    if n > 0 {
      CountersThroughout(trace, events, t, n - 1);
      assert Stepped(trace[n - 1], events[n - 1], trace[n - 1 + 1]);
      assert t !in Miscounts(trace[n - 1], events[n - 1]);
    }
    ExactIsRight(trace[n], t);
  }

  lemma InBatteryTypes(s: State, t: TypeId)
    requires InvAt(s) && t in s.exact
    ensures t in BATTERY_TYPES && |s.types| == TYPE_COUNT
  {
    hide TimersAt, HouseAt, DerivesAt;
    ExactIsCounted(s.table, s.types, {}, s.exact, t);
  }

  lemma StillRight(s: State, ev: Event, s': State, t: TypeId)
    requires InvAt(s') && Possible(s, ev) && Stepped(s, ev, s') && t in s.exact && t !in Miscounts(s, ev)
    ensures CounterRight(s', t)
  {
    hide InvAt, Become, Appear, HandsOff, Scalars, AllSameConfig, Staying, ProxyFrom, Counters, Miscounts, CounterRight,
         Possible;
    ExactIsRight(s', t);
  }

  // ---- each event that can miscount ----------------------------------------------------

  /** Whatever the event: an exact counter is right afterwards if and only if the event does not miscount it. */
  lemma StepCounts(s: State, ev: Event, s': State, t: TypeId)
    requires InvAt(s) && InvAt(s') && Possible(s, ev) && Stepped(s, ev, s') && t in s.exact
    ensures CounterRight(s', t) <==> t !in Miscounts(s, ev)
  {
    hide InvAt, Stepped, Possible, Miscounts, CounterRight;
    InBatteryTypes(s, t);
    match ev
    case ReleaseOne(_, _) => ReleaseCounts(s, ev, s', t);
    case SetProperties(_, _, _) => UpdateCounts(s, ev, s', t);
    case ProcessExits(_) => ExitCounts(s, ev, s', t);
    case ProcessResumes(_) => ResumeCounts(s, ev, s', t);
    case _ =>
      NeverMiscounts(s, ev);
      StillRight(s, ev, s', t);
  }

  lemma NeverMiscounts(s: State, ev: Event)
    requires |s.types| == TYPE_COUNT
    requires !ev.ReleaseOne? && !ev.SetProperties? && !ev.ProcessExits? && !ev.ProcessResumes?
    ensures Miscounts(s, ev) == {}
  {
  }

  /** A release leaves an exact counter right if and only if the assertion is not a suspended one with the flag. */
  lemma ReleaseCounts(s: State, ev: Event, s': State, t: TypeId)
    requires InvAt(s) && InvAt(s') && Possible(s, ev) && Stepped(s, ev, s') && ev.ReleaseOne? && t in s.exact
    ensures CounterRight(s', t) <==> t !in Miscounts(s, ev)
  {
    hide InvAt, Stepped, Possible, Miscounts, CounterRight;
    InBatteryTypes(s, t);
    if t in Miscounts(s, ev) {
      ExactIsRight(s, t);
      ReleasedTwice(s, ev, s', t);
    } else {
      StillRight(s, ev, s', t);
    }
  }

  /** The released assertion counted neither before nor after, and the counter went down. */
  lemma ReleasedTwice(s: State, ev: Event, s': State, t: TypeId)
    requires InvAt(s) && InvAt(s') && Possible(s, ev) && Stepped(s, ev, s') && ev.ReleaseOne? && t in BATTERY_TYPES
               && t in Miscounts(s, ev) && CounterRight(s, t)
    ensures !CounterRight(s', t)
  {
    hide InvAt, Stepped, Possible, ValidSet;
    var i := IndexFromId(ev.id);
    CountedOthers(s, ev, s', t, i);
    ReleasedRecord(s, ev, s', t);
    assert ValidSet(s'.table, {}, t) - {i} == ValidSet(s'.table, {}, t);
    assert ValidSet(s.table, {}, t) - {i} == ValidSet(s.table, {}, t);
  }

  lemma ReleasedRecord(s: State, ev: Event, s': State, t: TypeId)
    requires InvAt(s) && InvAt(s') && Possible(s, ev) && Stepped(s, ev, s') && ev.ReleaseOne? && t in BATTERY_TYPES
               && t in Miscounts(s, ev)
    ensures var i := IndexFromId(ev.id);
            && i !in ValidSet(s.table, {}, t) && i !in ValidSet(s'.table, {}, t)
            && |s'.types| == TYPE_COUNT && s'.types[t].validCnt == s.types[t].validCnt - 1
  {
    hide InvAt, Possible, Stepped;
    var i := IndexFromId(ev.id);
    AllOneBit(s);
    ProxyKind(s);
    ProxyKind(s');
    assert s.proxy != Some(i);
    ReleasedOnce(s, ev, s');
  }

  lemma ReleasedOnce(s: State, ev: Event, s': State)
    requires Possible(s, ev) && Stepped(s, ev, s') && ev.ReleaseOne? && Named(s, ev.pid, ev.id)
               && s.proxy != Some(IndexFromId(ev.id)) && s.table[IndexFromId(ev.id)].retain <= 1
    ensures var i := IndexFromId(ev.id); var k := s.table[i].kassert;
            && (i !in s'.table || s'.proxy == Some(i))
            && |s'.types| == TYPE_COUNT && s'.types[k].validCnt == CountWithout(s.types[k], s.table[i])
  {
    hide Possible, Appear, HandsOff, Scalars, AllSameConfig, Staying, ProxyFrom, Miscounts, CountWithout;
    var i := IndexFromId(ev.id);
    assert After(s, ev, i, s.table[i]).None?;
  }

  /** A process exit leaves an exact counter right if and only if the process has no flagged suspended assertion of
      the type, or nobody else has one that counts. */
  lemma ExitCounts(s: State, ev: Event, s': State, t: TypeId)
    requires InvAt(s) && InvAt(s') && Possible(s, ev) && Stepped(s, ev, s') && ev.ProcessExits? && t in s.exact
    ensures CounterRight(s', t) <==> t !in Miscounts(s, ev)
  {
    hide InvAt, Stepped, Possible, Become, Appear, HandsOff, Scalars, AllSameConfig, Staying, ProxyFrom, ValidSet,
         ProcessExit.Purged, ProcessExit.Down, ProcessExit.Off, ProcessExit.LostAtExit;
    InBatteryTypes(s, t);
    ExactIsRight(s, t);
    AllOneBit(s);
    ExitLeaves(s, ev, s');
    CountAtExit(s, ev, s', t);
    ProcessExit.ExitCounts(s.table, s'.table, ev.pid, t, s.types[t].validCnt);
  }

  lemma AllOneBit(s: State)
    requires InvAt(s)
    ensures forall j :: j in s.table ==> OneBit(s.table[j])
  {
    hide TimersAt, HouseAt, DerivesAt;
  }

  lemma SuspendedRefused(s: State)
    requires InvAt(s)
    ensures forall j :: j in s.table && s.table[j].suspended ==> Refused(s.suspendedPids, s.table[j])
  {
    hide SoundAt, TimersAt, DerivesAt;
  }

  lemma CountAtExit(s: State, ev: Event, s': State, t: TypeId)
    requires Possible(s, ev) && Stepped(s, ev, s') && ev.ProcessExits? && t in BATTERY_TYPES
    ensures |s'.types| == TYPE_COUNT
    ensures s'.types[t].validCnt == ProcessExit.Down(s.types[t].validCnt, |ProcessExit.Off(s.table, ev.pid, t)|)
  {
    hide Possible, Become, Appear, HandsOff, Scalars, AllSameConfig, Staying, ProxyFrom, Miscounts, ProcessExit.Down,
         ProcessExit.Off;
  }

  lemma ExitLeaves(s: State, ev: Event, s': State)
    requires InvAt(s) && InvAt(s') && Possible(s, ev) && Stepped(s, ev, s') && ev.ProcessExits?
    ensures ProcessExit.Purged(s.table, s'.table, ev.pid)
  {
    hide InvAt, Stepped, Possible, ProcessExit.Purged;
    ProxyKind(s);
    ProxyKind(s');
    ProxyOwner(s);
    ProxyOwner(s');
    ProxyAtExit(s, ev, s');
    forall j | j in s'.table && s'.proxy != Some(j) && s.proxy != Some(j)
      ensures j in s.table && s.table[j].pid != ev.pid && s'.table[j] == s.table[j]
    {
      LeftAtExit(s, ev, s', j);
    }
    forall j | j in s.table && s.table[j].pid != ev.pid && s.proxy != Some(j)
      ensures j in s'.table && s'.table[j] == s.table[j]
    {
      KeptAtExit(s, ev, s', j);
    }
    PurgedFrom(s.table, s'.table, ev.pid, s.powerd, s.proxy, s'.proxy);
  }

  lemma PurgedFrom(table0: Table, table: Table, dead: Pid, powerd: Pid, proxy0: Option<Index>, proxy: Option<Index>)
    requires powerd != dead && (proxy0.Some? ==> proxy == proxy0)
    requires proxy0.Some? ==> proxy0.value in table0 && table0[proxy0.value].kassert == INT_PREVENT_DISPLAY_SLEEP
    requires proxy.Some? ==>
               && proxy.value in table && table[proxy.value].kassert == INT_PREVENT_DISPLAY_SLEEP
               && table[proxy.value].pid == powerd
    requires forall j :: j in table && proxy != Some(j) && proxy0 != Some(j) ==>
               j in table0 && table0[j].pid != dead && table[j] == table0[j]
    requires forall j :: j in table0 && table0[j].pid != dead && proxy0 != Some(j) ==>
               j in table && table[j] == table0[j]
    ensures ProcessExit.Purged(table0, table, dead)
  {
  }

  lemma LeftAtExit(s: State, ev: Event, s': State, j: Index)
    requires Possible(s, ev) && Stepped(s, ev, s') && ev.ProcessExits?
    requires j in s'.table && s'.proxy != Some(j) && s.proxy != Some(j)
    ensures j in s.table && s.table[j].pid != ev.pid && s'.table[j] == s.table[j]
  {
    hide HandsOff, AllSameConfig, Counters, Miscounts, Scalars, Possible, Staying, ProxyFrom;
    assert j in s.table;
    assert After(s, ev, j, s.table[j]) == if s.table[j].pid == ev.pid then None else Some(s.table[j]);
  }

  lemma KeptAtExit(s: State, ev: Event, s': State, j: Index)
    requires Possible(s, ev) && Stepped(s, ev, s') && ev.ProcessExits?
    requires j in s.table && s.table[j].pid != ev.pid && s.proxy != Some(j)
    ensures j in s'.table && s'.table[j] == s.table[j]
  {
    hide HandsOff, AllSameConfig, Counters, Miscounts, Scalars, Possible, Appear, Staying, ProxyFrom;
    assert After(s, ev, j, s.table[j]) == Some(s.table[j]);
  }

  lemma ProxyAtExit(s: State, ev: Event, s': State)
    requires Possible(s, ev) && Stepped(s, ev, s') && ev.ProcessExits?
    ensures s.proxy.Some? ==> s'.proxy == s.proxy
    ensures s'.powerd == s.powerd != ev.pid
  {
    hide HandsOff, AllSameConfig, Counters, Miscounts, Appear, Become, Staying;
  }

  lemma ProxyOwner(s: State)
    requires InvAt(s)
    ensures s.proxy.Some? ==> s.proxy.value in s.table && s.table[s.proxy.value].pid == s.powerd
  {
    hide SoundAt, TimersAt, DerivesAt;
  }

  /** A resumption leaves an exact counter right if and only if the type counts its flags now, or none of the
      assertions that come back live has the flag. */
  lemma ResumeCounts(s: State, ev: Event, s': State, t: TypeId)
    requires InvAt(s) && InvAt(s') && Possible(s, ev) && Stepped(s, ev, s') && ev.ProcessResumes? && t in s.exact
    ensures CounterRight(s', t) <==> t !in Miscounts(s, ev)
  {
    hide InvAt, Stepped, Possible, Miscounts, CounterRight;
    InBatteryTypes(s, t);
    if t in Miscounts(s, ev) {
      ExactIsRight(s, t);
      BackUncounted(s, ev, s', t);
    } else {
      StillRight(s, ev, s', t);
    }
  }

  lemma BackUncounted(s: State, ev: Event, s': State, t: TypeId)
    requires InvAt(s) && Possible(s, ev) && Stepped(s, ev, s') && ev.ProcessResumes?
               && t in Miscounts(s, ev) && CounterRight(s, t)
    ensures !CounterRight(s', t)
  {
    hide InvAt, Stepped, Possible, ValidSet, Suspension.Flagged, Suspension.LostBy;
    AllOneBit(s);
    var j :| j in Suspension.Held(s.table, ev.pid) && j in s.table && s.table[j].kassert == t && !s.table[j].level.Off?
        && s.table[j].validOnBatt;
    var before, after := ValidSet(s.table, {}, t), ValidSet(s'.table, {}, t);
    forall x | x in before ensures x in after {
      CountedStays(s, ev, s', t, x);
    }
    BackCounts(s, ev, s', t, j);
    assert before + {j} <= after && |before + {j}| == |before| + 1;
    SubsetSize(before + {j}, after);
    CountAtResume(s, ev, s', t);
  }

  lemma SubsetSize<T>(a: set<T>, b: set<T>)
    requires a <= b
    ensures |a| <= |b|
  {
    assert b == a + (b - a);
  }

  lemma CountedStays(s: State, ev: Event, s': State, t: TypeId, x: Index)
    requires Possible(s, ev) && Stepped(s, ev, s') && ev.ProcessResumes? && x in ValidSet(s.table, {}, t)
    requires forall j :: j in s.table ==> OneBit(s.table[j])
    ensures x in ValidSet(s'.table, {}, t)
  {
    hide Possible, Appear, Scalars, AllSameConfig, Staying, ProxyFrom, Counters, Miscounts, ResumedForm;
    assert After(s, ev, x, s.table[x]) == Some(s.table[x]);
  }

  lemma BackCounts(s: State, ev: Event, s': State, t: TypeId, j: Index)
    requires Possible(s, ev) && Stepped(s, ev, s') && ev.ProcessResumes? && ev.pid in s.suspendedPids
    requires j in Suspension.Held(s.table, ev.pid) && s.table[j].kassert == t && !s.table[j].level.Off?
               && s.table[j].validOnBatt && OneBit(s.table[j])
    ensures j !in ValidSet(s.table, {}, t) && j in ValidSet(s'.table, {}, t)
  {
    hide Possible, Appear, Scalars, AllSameConfig, Staying, ProxyFrom, Counters, Miscounts;
    assert After(s, ev, j, s.table[j]) == Some(ResumedForm(s.table[j], s.now));
  }

  lemma CountAtResume(s: State, ev: Event, s': State, t: TypeId)
    requires Possible(s, ev) && Stepped(s, ev, s') && ev.ProcessResumes? && t in Miscounts(s, ev)
    ensures |s'.types| == TYPE_COUNT && s'.types[t].validCnt == s.types[t].validCnt
  {
    hide Possible, Become, Appear, HandsOff, Scalars, AllSameConfig, Staying, ProxyFrom;
  }

  // ---- what one call leaves alone ------------------------------------------------------

  lemma OthersAfterUpdate(s: State, ev: Event, s': State, j: Index)
    requires Stepped(s, ev, s') && Possible(s, ev) && (ev.SetProperties? || ev.ReleaseOne?) && j != IndexFromId(ev.id)
               && s.proxy != Some(j)
               && s'.proxy != Some(j)
    ensures (j in s.table <==> j in s'.table) && (j in s.table ==> s'.table[j] == s.table[j])
  {
    hide Updated, HandsOff, Scalars, Miscounts, Counters, AllSameConfig, Staying, ProxyFrom, Possible;
  }

  lemma ProxyKind(s: State)
    requires InvAt(s)
    ensures s.proxy.Some? ==> s.proxy.value in s.table && s.table[s.proxy.value].kassert == INT_PREVENT_DISPLAY_SLEEP
  {
    hide SoundAt, TimersAt, DerivesAt;
  }

  /** The assertions that count are the same before and after, one aside. */
  lemma CountedOthers(s: State, ev: Event, s': State, t: TypeId, i: Index)
    requires InvAt(s) && InvAt(s') && Possible(s, ev) && Stepped(s, ev, s')
               && (ev.SetProperties? || ev.ReleaseOne?) && i == IndexFromId(ev.id) && t in BATTERY_TYPES
    ensures ValidSet(s'.table, {}, t) - {i} == ValidSet(s.table, {}, t) - {i}
  {
    hide InvAt, Stepped, Possible;
    ProxyKind(s);
    ProxyKind(s');
    ProxyStays(s, ev, s');
    forall j | j != i ensures j in ValidSet(s'.table, {}, t) <==> j in ValidSet(s.table, {}, t) {
      if s.proxy != Some(j) && s'.proxy != Some(j) {
        OthersAfterUpdate(s, ev, s', j);
      }
    }
  }

  /** A new proxy takes the place of no assertion that stays. */
  lemma ProxyStays(s: State, ev: Event, s': State)
    requires Possible(s, ev) && Stepped(s, ev, s') && (ev.SetProperties? || ev.ReleaseOne?)
    ensures s'.proxy == s.proxy
            || (s.proxy.None? && s'.proxy.Some? && (s'.proxy.value !in s.table || s'.proxy.value == IndexFromId(ev.id)))
  {
    hide Updated, HandsOff, Scalars, Miscounts, Counters, AllSameConfig, Become, Appear, Possible;
    assert forall j :: j in s.table && j != IndexFromId(ev.id) ==> j in Staying(s, ev);
  }

  /** A property update leaves an exact counter right if and only if it misses no assertion of the type. */
  lemma UpdateCounts(s: State, ev: Event, s': State, t: TypeId)
    requires InvAt(s) && InvAt(s') && Possible(s, ev) && Stepped(s, ev, s') && ev.SetProperties? && t in s.exact
    ensures CounterRight(s', t) <==> t !in Miscounts(s, ev)
  {
    hide InvAt, Stepped, Possible, Miscounts, CounterRight;
    ExactIsRight(s, t);
    InBatteryTypes(s, t);
    if t in Miscounts(s, ev) {
      MissedMember(s, ev, s', t);
    } else {
      StillRight(s, ev, s', t);
    }
  }

  /** The missed assertion counts afterwards, and it counted before exactly when it was live. */
  lemma MissedMember(s: State, ev: Event, s': State, t: TypeId)
    requires InvAt(s) && InvAt(s') && Possible(s, ev) && Stepped(s, ev, s') && ev.SetProperties? && t in BATTERY_TYPES
               && t in Miscounts(s, ev)
    requires CounterRight(s, t)
    ensures !CounterRight(s', t)
  {
    hide Stepped, InvAt, Possible, Miscounts, ValidSet, PlanFor;
    var i := IndexFromId(ev.id);
    CountedOthers(s, ev, s', t, i);
    MissedRecord(s, ev, s', t);
    var before, after := ValidSet(s.table, {}, t), ValidSet(s'.table, {}, t);
    if PlanFor(s.table[i].inactive, ev.props).TurnItOn? {
      assert after == (after - {i}) + {i} && before == before - {i};
    } else {
      assert after == (after - {i}) + {i} && before == (before - {i}) + {i};
    }
  }

  lemma MissedRecord(s: State, ev: Event, s': State, t: TypeId)
    requires InvAt(s) && InvAt(s') && Possible(s, ev) && Stepped(s, ev, s') && ev.SetProperties?
               && t in Miscounts(s, ev)
    ensures var i := IndexFromId(ev.id);
            && i in s.table && |s'.types| == TYPE_COUNT
            && var plan := PlanFor(s.table[i].inactive, ev.props);
            && (plan.TurnItOn? || plan.Retime?)
            && (i in ValidSet(s.table, {}, t) <==> plan.Retime?) && i in ValidSet(s'.table, {}, t)
            && s'.types[t].validCnt == CountAfterMiss(s.types[t], plan)
  {
    var i := IndexFromId(ev.id);
    var a := s.table[i];
    InItsList(s.table, s.types, {}, s.exact, i);
    MissedIsLive(s.types, a, ev.props, s.Resolve(a.name), s.now, t);
    hide SoundAt, TimersAt, DerivesAt, Updated, Missed, PlanFor, WithProps, Become, Appear, HandsOff, Scalars,
         AllSameConfig, Staying, ProxyFrom;
    NotSuspended(s, i);
    EntryAfter(s, ev, s', i);
  }

  lemma NotSuspended(s: State, i: Index)
    requires InvAt(s) && i in s.table && !Refused(s.suspendedPids, s.table[i])
    ensures !s.table[i].suspended
  {
    hide SoundAt, TimersAt, DerivesAt;
  }

  lemma MissedIsLive(types: Types, a: Assertion, props: Props, k: TypeId, now: nat, t: TypeId)
    requires |types| == TYPE_COUNT && OneBit(a) && !LevelOffWithTimeout(props)
    requires t in Missed(types, WithProps(a, props, types[a.kassert].notValidOnBatt), PlanFor(a.inactive, props), k)
    ensures var plan := PlanFor(a.inactive, props); var b := Updated(types, a, props, k, now);
            && (plan.TurnItOn? || plan.Retime?) && (plan.TurnItOn? ==> a.inactive)
            && (!a.suspended ==> OneBit(b) && PlaceOf(b) in {Timed, Active} && b.validOnBatt && b.kassert == t)
            && (plan.Retime? ==> !a.inactive && a.kassert == t && a.validOnBatt)
  {
    hide PlanFor;
    PlanFacts(a.inactive, props);
  }

  // ---- what the derived state says -----------------------------------------------------

  /** The assertion is live, its type is linked to the effect, and on battery it has the flag if its type asks. */
  predicate Asserts(s: State, i: Index, e: Effect)
    requires |s.types| == TYPE_COUNT
  {
    && i in s.table && PlaceOf(s.table[i]) in {Timed, Active} && s.types[s.table[i].kassert].effect == e
    && (s.onBatt && s.types[s.table[i].kassert].notValidOnBatt ==> s.table[i].validOnBatt)
  }

  /** Kernel bits, overrides and aggregates are those of the assertions themselves. */
  ghost predicate FromAssertions(s: State) {
    && |s.types| == TYPE_COUNT
    && (forall b: KernelBit :: b in s.derived.ker <==> exists i :: Asserts(s, i, BitEffect(b)))
    && (forall o: Setting :: o in s.derived.overrides <==> exists i :: Asserts(s, i, SettingEffect(o)))
    && (forall t: TypeId :: s.types[t].handler != OtherHandler ==>
         (t in s.derived.agg <==> exists i ::
             Asserts(s, i, s.types[t].effect) && s.table[i].kassert == t && s.types[t].effect != NoEffect))
  }

  /** On battery, every type that is kept out there has a right counter. */
  ghost predicate CountersRight(s: State) {
    |s.types| == TYPE_COUNT && (s.onBatt ==> forall t: TypeId :: s.types[t].notValidOnBatt ==> CounterRight(s, t))
  }

  /** While the counters are right, a bit, an override or an aggregate is set if and only if some live assertion
      asks for it. */
  lemma DerivedFromAssertions(s: State)
    requires InvAt(s) && CountersRight(s)
    ensures FromAssertions(s)
  {
    hide InvAt, ViewOf, SlotOf;
    var v := ViewOf(s.types, s.onBatt);
    MirrorOf(s);
    forall e: Effect ensures EffectOn(v, e) <==> e != NoEffect && exists i :: Asserts(s, i, e) {
      EffectFromAssertions(s, e);
    }
    forall t: TypeId ensures v[t].effect == s.types[t].effect && v[t].handler == s.types[t].handler
      ensures v[t].on <==> exists i :: Asserts(s, i, s.types[t].effect) && s.table[i].kassert == t
    {
      OnFromAssertions(s, t);
    }
  }

  lemma MirrorOf(s: State)
    requires InvAt(s)
    ensures |s.types| == TYPE_COUNT && Mirrored(ViewOf(s.types, s.onBatt), s.derived)
  {
    hide SoundAt, TimersAt, HouseAt;
  }

  lemma EffectFromAssertions(s: State, e: Effect)
    requires InvAt(s) && CountersRight(s) && |s.types| == TYPE_COUNT
    ensures EffectOn(ViewOf(s.types, s.onBatt), e) <==> e != NoEffect && exists i :: Asserts(s, i, e)
  {
    hide InvAt, SlotOf;
    var v := ViewOf(s.types, s.onBatt);
    if EffectOn(v, e) {
      var t :| 0 <= t < |v| && v[t].effect == e && v[t].on;
      OnFromAssertions(s, t);
    }
    if i :| e != NoEffect && Asserts(s, i, e) {
      OnFromAssertions(s, s.table[i].kassert);
      assert v[s.table[i].kassert].on;
    }
  }

  /** A type counts as active exactly when one of its own assertions asks for its effect. */
  lemma OnFromAssertions(s: State, t: TypeId)
    requires InvAt(s) && |s.types| == TYPE_COUNT
    requires s.onBatt && s.types[t].notValidOnBatt ==> CounterRight(s, t)
    ensures var slot := SlotOf(s.types[t], s.onBatt);
            && ViewOf(s.types, s.onBatt)[t] == slot && slot.effect == s.types[t].effect
            && slot.handler == s.types[t].handler
            && (slot.on <==> exists i :: Asserts(s, i, s.types[t].effect) && s.table[i].kassert == t)
  {
    hide TimersAt, HouseAt, DerivesAt, ValidSet;
    var r := s.types[t];
    assert TypeOK(t, r) && ListsOK(s.table, {}, t, r);
    hide SoundAt;
    if r.notValidOnBatt && s.onBatt {
      assert CounterRight(s, t);
      CountedAsserts(s, t);
    } else {
      if r.active != [] { assert Asserts(s, r.active[0], r.effect); }
      if r.timed != [] { assert Asserts(s, r.timed[0], r.effect); }
    }
  }

  lemma CountedAsserts(s: State, t: TypeId)
    requires |s.types| == TYPE_COUNT && s.types[t].notValidOnBatt && s.onBatt
    ensures |ValidSet(s.table, {}, t)| > 0 <==> exists i :: Asserts(s, i, s.types[t].effect) && s.table[i].kassert == t
  {
    var l := ValidSet(s.table, {}, t);
    if |l| > 0 {
      var i :| i in l;
      assert Asserts(s, i, s.types[t].effect);
    }
    if i :| Asserts(s, i, s.types[t].effect) && s.table[i].kassert == t {
      assert i in l;
    }
  }

  /** In a run that starts with exact counters and miscounts nothing, the derived state is that of the assertions
      themselves in every state. */
  lemma DerivedThroughout(trace: seq<State>, events: seq<Event>, n: nat)
    requires Runs(trace, events) && n <= |events| && BATTERY_TYPES <= trace[0].exact
    requires forall m :: 0 <= m < n ==> Miscounts(trace[m], events[m]) == {}
    ensures FromAssertions(trace[n])
  {
    hide InvAt, Stepped, NamesAt, CounterRight, Miscounts, FromAssertions;
    forall t: TypeId | t in BATTERY_TYPES ensures CounterRight(trace[n], t) {
      CountersThroughout(trace, events, t, n);
    }
    BatteryTypesOnly(trace[n]);
    DerivedFromAssertions(trace[n]);
  }

  lemma BatteryTypesOnly(s: State)
    requires InvAt(s)
    ensures |s.types| == TYPE_COUNT && forall t: TypeId :: s.types[t].notValidOnBatt ==> t in BATTERY_TYPES
  {
    hide TimersAt, HouseAt, DerivesAt;
    forall t: TypeId ensures s.types[t].notValidOnBatt ==> t in BATTERY_TYPES {
      assert TypeOK(t, s.types[t]);
    }
  }
}
