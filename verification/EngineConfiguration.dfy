/**
 What the configuration of the types means for a client: which bit or override a live assertion sets, by the name
 it was raised under, the surroundings and the power source.
 */
module EngineConfiguration {
  import opened Common
  import opened EffectMirror
  import opened AssertionLists
  import opened EngineSteps
  import opened Reconfiguration
  import EngineCounters
  import EngineLifetimes

  /** Linked to the effect, unless the type is disabled. */
  predicate WorksAs(r: AssertionType, e: Effect) {
    r.effect == if r.disableCnt > 0 then NoEffect else e
  }

  /** Types whose effect depends on nothing. */
  predicate PlainSetUp(k: TypeId, r: AssertionType) {
    && (k in {PREVENT_IDLE, DECLARE_SYSTEM_ACTIVITY, RESERVE_PWR_PREVENT_IDLE} ==> WorksAs(r, PrevIdleSlp))
    && (k in {PREVENT_SLEEP, SR_PREVENT_SLEEP, SOFTWARE_UPDATE} ==> WorksAs(r, PrevDemandSlp))
    && (k in {PREVENT_DISPLAY_SLEEP, INT_PREVENT_DISPLAY_SLEEP, DECLARE_USER_ACTIVITY} ==> WorksAs(r, PrevDisplaySlp))
    && (k == EXTERNAL_MEDIA ==> WorksAs(r, Effect.ExternalMedia)) && (k == HIGH_PERF ==> WorksAs(r, HighPerf))
    && (k == PREVENT_DISK_SLEEP ==> WorksAs(r, DiskSleep))
    && (k == 2 ==> WorksAs(r, DisableInflow)) && (k == 3 ==> WorksAs(r, InhibitCharge))
    && (k == 4 ==> WorksAs(r, DisableWarnings)) && (k == 6 ==> WorksAs(r, EnableIdle))
    && (k == 14 ==> WorksAs(r, TicklessDisplayWake))
    && (k in {PREVENT_SLEEP, SR_PREVENT_SLEEP} ==> r.notValidOnBatt)
  }

  /** A type as it is to be in these surroundings.  Network access keeps the machine from idle sleep only while on
      battery.  Background tasks are kept out on battery and do no more than that without dark-wake tasks.  The
      push type works during a sleep-service wake only.  Interactive push works fully with keep-alive, not at all in a
      sleep-service wake without it, and otherwise like background tasks. */
  predicate SetUp(k: TypeId, r: AssertionType, w: Surroundings, onBatt: bool) {
    && PlainSetUp(k, r)
    && (k == NETWORK_ACCESS ==> WorksAs(r, if onBatt then PrevIdleSlp else PrevDemandSlp))
    && (k == BACKGROUND_TASK ==>
         r.notValidOnBatt && WorksAs(r, if w.darkWakeTasks then PrevDemandSlp else PrevIdleSlp))
    && (k == PUSH_SERVICE_TASK ==> WorksAs(r, if w.sleepServiceWake then PrevDemandSlp else NoEffect))
    && (k == INTERACTIVE_PUSH ==>
         && (w.keepAlive ==> WorksAs(r, PrevDemandSlp) && !r.notValidOnBatt)
         && (!w.keepAlive && w.sleepServiceWake ==> r.effect == NoEffect)
         && (!w.keepAlive && !w.sleepServiceWake ==> WorksAs(r, PrevIdleSlp) && r.notValidOnBatt)
         && (w.keepAlive || !w.sleepServiceWake ==> r.autoTimed && r.autoTimeout == w.capMillis / 1000))
  }

  lemma ConfigureSetsUp(k: TypeId, r: AssertionType, w: Surroundings, onBatt: bool, backgroundDisabled: bool)
    ensures k != BACKGROUND_TASK ==>
              Configure(r, Choose(k, r, w, onBatt, backgroundDisabled)).disableCnt == r.disableCnt
    ensures SetUp(k, Configure(r, Choose(k, r, w, onBatt, backgroundDisabled)), w, onBatt)
  {
  }

  /** The event configures the type in surroundings `w`. */
  predicate Configures(ev: Event, k: TypeId, w: Surroundings) {
    ev == Configured(k, w) || ev == Disabled(k, w) || ev == Enabled(k, w)
  }

  /** The event may configure the type. */
  predicate Touches(ev: Event, k: TypeId) {
    || ((ev.Configured? || ev.Disabled? || ev.Enabled?) && ev.k == k)
    || (ev.PowerSource? && k in {BACKGROUND_TASK, NETWORK_ACCESS, INTERACTIVE_PUSH})
  }

  /** The names that stand for one of two types, after the event. */
  predicate Redirected(s: State, ev: Event, s': State) {
    && (ev.Configured? || ev.Disabled? || ev.Enabled? ==>
         && (ev.k == PUSH_SERVICE_TASK ==>
              s'.pushAlias == if ev.w.sleepServiceWake then PUSH_SERVICE_TASK else BACKGROUND_TASK)
         && (ev.k == INTERACTIVE_PUSH ==>
              s'.interactiveAlias == if ev.w.sleepServiceWake && !ev.w.keepAlive then PUSH_SERVICE_TASK
                else INTERACTIVE_PUSH))
    && (ev.PowerSource? && ev.source != s.onBatt ==>
         s'.interactiveAlias == if ev.w.sleepServiceWake && !ev.w.keepAlive then PUSH_SERVICE_TASK
           else INTERACTIVE_PUSH)
    && (!Touches(ev, PUSH_SERVICE_TASK) ==> s'.pushAlias == s.pushAlias)
    && (!Touches(ev, INTERACTIVE_PUSH) ==> s'.interactiveAlias == s.interactiveAlias)
  }

  /** A configuration, a disable or an enable sets its type up for the surroundings, a change of the power source the
      three types that depend on it; names are redirected accordingly; every other event leaves all that alone. */
  lemma ConfigurationStep(s: State, ev: Event, s': State, k: TypeId)
    requires InvAt(s) && InvAt(s') && Possible(s, ev) && Stepped(s, ev, s')
    ensures |s.types| == |s'.types| == TYPE_COUNT && Redirected(s, ev, s')
    ensures forall w :: Configures(ev, k, w) ==> SetUp(k, s'.types[k], w, s'.onBatt)
    ensures ev.PowerSource? && ev.source != s.onBatt && k in {BACKGROUND_TASK, NETWORK_ACCESS, INTERACTIVE_PUSH} ==>
              SetUp(k, s'.types[k], ev.w, s'.onBatt) && s'.onBatt == ev.source
    ensures !Touches(ev, k) ==> SameConfig(s.types[k], s'.types[k])
    ensures k != BACKGROUND_TASK ==>
              s'.types[k].disableCnt == if ev.Disabled? && ev.k == k then s.types[k].disableCnt + 1
                else if ev.Enabled? && ev.k == k && s.types[k].disableCnt > 0 then s.types[k].disableCnt - 1
                else s.types[k].disableCnt
    ensures !ev.PowerSource? ==> s'.onBatt == s.onBatt
  {
    hide InvAt, Possible, Stepped, SetUp, Configure, Choose;
    SizeOf(s);
    SizeOf(s');
    StepConfigures(s, ev, s');
    var r := s.types[k];
    var counted := if ev.Disabled? then r.(disableCnt := r.disableCnt + 1)
                   else if ev.Enabled? then r.(disableCnt := if r.disableCnt > 0 then r.disableCnt - 1 else 0) else r;
    if (ev.Configured? || ev.Disabled? || ev.Enabled?) && ev.k == k {
      ConfigureSetsUp(k, counted, ev.w, s.onBatt, s.backgroundDisabled);
    }
    if ev.PowerSource? {
      ConfigureSetsUp(k, r, ev.w, ev.source, s.backgroundDisabled);
      if ev.source != s.onBatt && k in {BACKGROUND_TASK, NETWORK_ACCESS, INTERACTIVE_PUSH} {
        SameSetUp(k, TypesAfter(s, ev)[k], s'.types[k], ev.w, ev.source);
      }
    }
  }

  lemma SameSetUp(k: TypeId, r: AssertionType, r': AssertionType, w: Surroundings, onBatt: bool)
    requires SameConfig(r, r')
    ensures SetUp(k, r, w, onBatt) <==> SetUp(k, r', w, onBatt)
  {
  }

  lemma StepConfigures(s: State, ev: Event, s': State)
    requires Possible(s, ev) && Stepped(s, ev, s') && |s'.types| == TYPE_COUNT
    ensures Redirected(s, ev, s') && AllSameConfig(TypesAfter(s, ev), s'.types)
    ensures ev.Configured? || ev.Disabled? || ev.Enabled? ==> s'.types == TypesAfter(s, ev)
    ensures s'.onBatt == if ev.PowerSource? then ev.source else s.onBatt
  {
    hide Possible, Become, Appear, ProxyFrom, Staying, Miscounts, HandsOff, TypesAfter, BackgroundAfter, AllSameConfig;
  }

  /** A type once configured stays set up for these surroundings until an event may configure it again. */
  lemma {:induction false} SetUpThroughout(trace: seq<State>, events: seq<Event>, k: TypeId, w: Surroundings, m: nat,
                                           n: nat)
    requires Runs(trace, events) && m < n <= |events| && Configures(events[m], k, w)
    requires forall j :: m < j < n ==> !Touches(events[j], k)
    ensures |trace[n].types| == TYPE_COUNT && SetUp(k, trace[n].types[k], w, trace[n].onBatt)
  {
    hide InvAt, NamesAt, Possible, Stepped, SetUp, Touches, Redirected;
    var s, ev, s' := trace[n - 1], events[n - 1], trace[n];
    assert Stepped(trace[n - 1], events[n - 1], trace[n - 1 + 1]);
    if n - 1 > m {
      SetUpThroughout(trace, events, k, w, m, n - 1);
    }
    if Possible(s, ev) {
      ConfigurationStep(s, ev, s', k);
      if n - 1 > m {
        SameSetUp(k, s.types[k], s'.types[k], w, s.onBatt);
        OtherSource(k, s'.types[k], w, s.onBatt, s'.onBatt, ev);
      }
    } else {
      ConfiguringIsPossible(s, ev, k, w);
      ImpossibleSame(s, ev, s');
    }
  }

  lemma ConfiguringIsPossible(s: State, ev: Event, k: TypeId, w: Surroundings)
    requires InvAt(s)
    ensures Configures(ev, k, w) ==> Possible(s, ev)
  {
  }

  lemma ImpossibleSame(s: State, ev: Event, s': State)
    requires Stepped(s, ev, s') && !Possible(s, ev)
    ensures s' == s
  {
  }

  /** Only network access looks at the power source. */
  lemma OtherSource(k: TypeId, r: AssertionType, w: Surroundings, onBatt: bool, onBatt': bool, ev: Event)
    requires SetUp(k, r, w, onBatt) && !Touches(ev, k) && (onBatt' == onBatt || ev.PowerSource?)
    ensures SetUp(k, r, w, onBatt')
  {
  }

  // ---- what a client's assertion does --------------------------------------------------

  /** A live assertion of a type that is linked to a bit or an override sets it; on battery, under a type that is
      kept out there, when it has the flag and the counters are right. */
  lemma LiveSets(s: State, i: Index)
    requires InvAt(s) && i in s.table && PlaceOf(s.table[i]) in {Timed, Active}
    requires |s.types| == TYPE_COUNT
    requires var r := s.types[s.table[i].kassert];
             s.onBatt && r.notValidOnBatt ==>
               s.table[i].validOnBatt && EngineCounters.CounterRight(s, s.table[i].kassert)
    ensures forall b: KernelBit :: s.types[s.table[i].kassert].effect == BitEffect(b) ==> b in s.derived.ker
    ensures forall o: Setting :: s.types[s.table[i].kassert].effect == SettingEffect(o) ==> o in s.derived.overrides
  {
    hide InvAt, EngineCounters.CounterRight;
    var k := s.table[i].kassert;
    EngineCounters.OnFromAssertions(s, k);
    EngineCounters.MirrorOf(s);
    assert EngineCounters.Asserts(s, i, s.types[k].effect);
    var v := ViewOf(s.types, s.onBatt);
    assert v[k].on && v[k].effect == s.types[k].effect;
  }

  /** The assertion is live, of the type the name stands for now, and its type is not disabled. */
  predicate LiveUnder(s: State, i: Index, name: TypeName)
    requires |s.types| == TYPE_COUNT
  {
    && i in s.table && PlaceOf(s.table[i]) in {Timed, Active} && s.table[i].kassert == s.Resolve(name)
    && s.types[s.Resolve(name)].disableCnt == 0
  }

  /** Nothing keeps it out on battery. */
  ghost predicate Admitted(s: State, i: Index)
    requires |s.types| == TYPE_COUNT && i in s.table
  {
    s.onBatt ==> s.table[i].validOnBatt && EngineCounters.CounterRight(s, s.table[i].kassert)
  }

  /** The push type and background tasks are set up for the same surroundings, and the name was redirected. */
  predicate PushSetUp(s: State, w: Surroundings) {
    && |s.types| == TYPE_COUNT && SetUp(PUSH_SERVICE_TASK, s.types[PUSH_SERVICE_TASK], w, s.onBatt)
    && SetUp(BACKGROUND_TASK, s.types[BACKGROUND_TASK], w, s.onBatt)
    && s.pushAlias == if w.sleepServiceWake then PUSH_SERVICE_TASK else BACKGROUND_TASK
  }

  /** ApplePushServiceTask: the type it stands for has an effect unless it is disabled.  During a sleep-service wake a
      live assertion under that name keeps the machine awake, on battery too.  Otherwise the push type does
      nothing and the name stands for background tasks, which keep it awake with dark-wake tasks and from idle sleep
      without. */
  lemma PushTasksServed(s: State, w: Surroundings)
    requires InvAt(s) && PushSetUp(s, w)
    ensures var k := s.Resolve(ApplePushServiceTask); s.types[k].effect == NoEffect <==> s.types[k].disableCnt > 0
    ensures w.sleepServiceWake ==> forall i :: LiveUnder(s, i, ApplePushServiceTask) ==> CpuBit in s.derived.ker
    ensures !w.sleepServiceWake ==>
              && s.types[PUSH_SERVICE_TASK].effect == NoEffect && s.Resolve(ApplePushServiceTask) == BACKGROUND_TASK
              && forall i :: LiveUnder(s, i, ApplePushServiceTask) && Admitted(s, i) ==>
                   if w.darkWakeTasks then CpuBit in s.derived.ker else PreventIdleSleep in s.derived.overrides
  {
    hide InvAt;
    NeverKeptOut(s);
    forall i | LiveUnder(s, i, ApplePushServiceTask) && (w.sleepServiceWake || Admitted(s, i))
      ensures if w.sleepServiceWake || w.darkWakeTasks then CpuBit in s.derived.ker
              else PreventIdleSleep in s.derived.overrides
    {
      LiveSets(s, i);
      EffectsOf();
    }
  }

  lemma EffectsOf()
    ensures BitEffect(CpuBit) == PrevDemandSlp && SettingEffect(PreventIdleSleep) == PrevIdleSlp
  {
  }

  lemma NeverKeptOut(s: State)
    requires InvAt(s)
    ensures |s.types| == TYPE_COUNT && !s.types[PUSH_SERVICE_TASK].notValidOnBatt
  {
    hide TimersAt, HouseAt, DerivesAt;
    assert TypeOK(PUSH_SERVICE_TASK, s.types[PUSH_SERVICE_TASK]);
  }

  /** Interactive push and the push type are set up for the same surroundings, and the name was redirected. */
  predicate InteractiveSetUp(s: State, w: Surroundings) {
    && |s.types| == TYPE_COUNT && SetUp(PUSH_SERVICE_TASK, s.types[PUSH_SERVICE_TASK], w, s.onBatt)
    && SetUp(INTERACTIVE_PUSH, s.types[INTERACTIVE_PUSH], w, s.onBatt)
    && s.interactiveAlias == if w.sleepServiceWake && !w.keepAlive then PUSH_SERVICE_TASK else INTERACTIVE_PUSH
  }

  /** InteractivePushServiceTask: the same law.  With keep-alive, and during a sleep-service wake, a live assertion
      under that name keeps the machine awake; otherwise it keeps it from idle sleep only, as far as it is admitted. */
  lemma InteractiveTasksServed(s: State, w: Surroundings)
    requires InvAt(s) && InteractiveSetUp(s, w)
    ensures var k := s.Resolve(InteractivePushServiceTask);
              s.types[k].effect == NoEffect <==> s.types[k].disableCnt > 0
    ensures w.keepAlive || w.sleepServiceWake ==>
              forall i :: LiveUnder(s, i, InteractivePushServiceTask) ==> CpuBit in s.derived.ker
    ensures !w.keepAlive && w.sleepServiceWake ==>
              s.types[INTERACTIVE_PUSH].effect == NoEffect
              && s.Resolve(InteractivePushServiceTask) == PUSH_SERVICE_TASK
    ensures w.keepAlive || !w.sleepServiceWake ==> s.Resolve(InteractivePushServiceTask) == INTERACTIVE_PUSH
    ensures !w.keepAlive && !w.sleepServiceWake ==>
              forall i :: LiveUnder(s, i, InteractivePushServiceTask) && Admitted(s, i) ==>
                PreventIdleSleep in s.derived.overrides
  {
    hide InvAt;
    NeverKeptOut(s);
    forall i | LiveUnder(s, i, InteractivePushServiceTask) && (w.keepAlive || w.sleepServiceWake || Admitted(s, i))
      ensures if w.keepAlive || w.sleepServiceWake then CpuBit in s.derived.ker
              else PreventIdleSleep in s.derived.overrides
    {
      LiveSets(s, i);
      EffectsOf();
    }
  }

  // ---- whole runs ----------------------------------------------------------------------

  /** Background tasks and then the push type were configured for the same surroundings, and nothing has configured
      either since. */
  predicate PushConfigured(events: seq<Event>, w: Surroundings, m: nat, n: nat) {
    && m + 2 <= n <= |events| && Configures(events[m], BACKGROUND_TASK, w)
    && Configures(events[m + 1], PUSH_SERVICE_TASK, w)
    && forall j :: m + 2 <= j < n ==> !Touches(events[j], PUSH_SERVICE_TASK) && !Touches(events[j], BACKGROUND_TASK)
  }

  lemma {:induction false} PushNameThroughout(trace: seq<State>, events: seq<Event>, w: Surroundings, m: nat, n: nat)
    requires Runs(trace, events) && PushConfigured(events, w, m, n)
    ensures trace[n].pushAlias == if w.sleepServiceWake then PUSH_SERVICE_TASK else BACKGROUND_TASK
  {
    hide InvAt, NamesAt, Possible, Stepped, SetUp;
    var s, ev, s' := trace[n - 1], events[n - 1], trace[n];
    assert Stepped(trace[n - 1], events[n - 1], trace[n - 1 + 1]);
    if n > m + 2 {
      PushNameThroughout(trace, events, w, m, n - 1);
    }
    if Possible(s, ev) {
      ConfigurationStep(s, ev, s', PUSH_SERVICE_TASK);
    } else {
      ConfiguringIsPossible(s, ev, PUSH_SERVICE_TASK, w);
      ImpossibleSame(s, ev, s');
    }
  }

  /** From then on, whatever happens, ApplePushServiceTask is served as it should be. */
  lemma PushTasksThroughout(trace: seq<State>, events: seq<Event>, w: Surroundings, m: nat, n: nat)
    requires Runs(trace, events) && PushConfigured(events, w, m, n)
    ensures PushSetUp(trace[n], w)
    ensures w.sleepServiceWake ==>
              forall i :: LiveUnder(trace[n], i, ApplePushServiceTask) ==> CpuBit in trace[n].derived.ker
    ensures !w.sleepServiceWake ==> trace[n].types[PUSH_SERVICE_TASK].effect == NoEffect
  {
    hide InvAt, NamesAt, Possible, Stepped, SetUp, LiveUnder;
    assert forall j :: m + 1 < j < n ==> !Touches(events[j], PUSH_SERVICE_TASK);
    assert !Touches(events[m + 1], BACKGROUND_TASK);
    assert forall j :: m < j < n ==> !Touches(events[j], BACKGROUND_TASK);
    SetUpThroughout(trace, events, PUSH_SERVICE_TASK, w, m + 1, n);
    SetUpThroughout(trace, events, BACKGROUND_TASK, w, m, n);
    PushNameThroughout(trace, events, w, m, n);
    PushTasksServed(trace[n], w);
  }

  /** So a push task that a client raises during a sleep-service wake keeps the machine awake at once. */
  lemma PushTaskRaised(trace: seq<State>, events: seq<Event>, w: Surroundings, m: nat, n: nat)
    requires Runs(trace, events) && PushConfigured(events, w, m, n) && n < |events| && w.sleepServiceWake
    requires events[n].Create? && events[n].q.name == Some(ApplePushServiceTask) && !events[n].q.level.Off?
    requires Possible(trace[n], events[n]) && events[n].pid !in trace[n].suspendedPids && HasFree(trace[n].table)
    requires trace[n].types[PUSH_SERVICE_TASK].disableCnt == 0
    ensures CpuBit in trace[n + 1].derived.ker
  {
    hide InvAt, NamesAt, Possible, Stepped, SetUp;
    PushTasksThroughout(trace, events, w, m, n);
    PushTasksThroughout(trace, events, w, m, n + 1);
    assert Stepped(trace[n], events[n], trace[n + 1]);
    EngineLifetimes.CreateMeans(trace[n], events[n], trace[n + 1]);
    ConfigurationStep(trace[n], events[n], trace[n + 1], PUSH_SERVICE_TASK);
    var i :| i !in trace[n].table && i in trace[n + 1].table
             && EngineLifetimes.AsAsked(trace[n + 1].table[i], events[n].pid, events[n].q,
                  trace[n].Resolve(ApplePushServiceTask),
                  trace[n].types[trace[n].Resolve(ApplePushServiceTask)], trace[n].now);
    LiveNow(trace[n + 1], i);
    assert LiveUnder(trace[n + 1], i, ApplePushServiceTask);
  }

  /** The push type and then interactive push were configured for the same surroundings, and nothing has configured
      either since. */
  predicate InteractiveConfigured(events: seq<Event>, w: Surroundings, m: nat, n: nat) {
    && m + 2 <= n <= |events| && Configures(events[m], PUSH_SERVICE_TASK, w)
    && Configures(events[m + 1], INTERACTIVE_PUSH, w)
    && forall j :: m + 2 <= j < n ==> !Touches(events[j], PUSH_SERVICE_TASK) && !Touches(events[j], INTERACTIVE_PUSH)
  }

  lemma {:induction false} InteractiveNameThroughout(trace: seq<State>, events: seq<Event>, w: Surroundings, m: nat,
                                                     n: nat)
    requires Runs(trace, events) && InteractiveConfigured(events, w, m, n)
    ensures trace[n].interactiveAlias == if w.sleepServiceWake && !w.keepAlive then PUSH_SERVICE_TASK
              else INTERACTIVE_PUSH
  {
    hide InvAt, NamesAt, Possible, Stepped, SetUp;
    var s, ev, s' := trace[n - 1], events[n - 1], trace[n];
    assert Stepped(trace[n - 1], events[n - 1], trace[n - 1 + 1]);
    if n > m + 2 {
      InteractiveNameThroughout(trace, events, w, m, n - 1);
    }
    if Possible(s, ev) {
      ConfigurationStep(s, ev, s', INTERACTIVE_PUSH);
    } else {
      ConfiguringIsPossible(s, ev, INTERACTIVE_PUSH, w);
      ImpossibleSame(s, ev, s');
    }
  }

  /** From then on InteractivePushServiceTask is served as it should be. */
  lemma InteractiveTasksThroughout(trace: seq<State>, events: seq<Event>, w: Surroundings, m: nat, n: nat)
    requires Runs(trace, events) && InteractiveConfigured(events, w, m, n)
    ensures InteractiveSetUp(trace[n], w)
    ensures w.keepAlive || w.sleepServiceWake ==>
              forall i :: LiveUnder(trace[n], i, InteractivePushServiceTask) ==> CpuBit in trace[n].derived.ker
  {
    hide InvAt, NamesAt, Possible, Stepped, SetUp, LiveUnder;
    assert forall j :: m + 1 < j < n ==> !Touches(events[j], INTERACTIVE_PUSH);
    assert !Touches(events[m + 1], PUSH_SERVICE_TASK);
    assert forall j :: m < j < n ==> !Touches(events[j], PUSH_SERVICE_TASK);
    SetUpThroughout(trace, events, PUSH_SERVICE_TASK, w, m, n);
    SetUpThroughout(trace, events, INTERACTIVE_PUSH, w, m + 1, n);
    InteractiveNameThroughout(trace, events, w, m, n);
    InteractiveTasksServed(trace[n], w);
  }

  lemma LiveNow(s: State, i: Index)
    requires InvAt(s) && i in s.table && !s.table[i].inactive && !s.table[i].suspended
    ensures PlaceOf(s.table[i]) in {Timed, Active}
  {
  }

  /** At boot every type is set up for the surroundings and the source found. */
  lemma BootSetsUp(w: Surroundings, onBatt: bool, k: TypeId)
    ensures SetUp(k, InitialTypes(w, onBatt)[k], w, onBatt)
  {
    ConfigureSetsUp(k, Blank(), w, onBatt, false);
  }
}
