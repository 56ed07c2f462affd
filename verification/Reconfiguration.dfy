/**
 configAssertionType and evaluateForPSChange: types that change handler, effect or flags while
 assertions of theirs are raised, and the switch between external power and battery.
 */
module Reconfiguration {
  import opened Common
  import opened EffectMirror
  import opened AssertionLists
  import opened AssertionEngine

  /** What the configuration code asks the rest of the system. */
  datatype Surroundings = Surroundings(sleepServiceWake: bool, darkWakeTasks: bool, maintenanceWake: bool,
                                       keepAlive: bool, capMillis: nat)

  /** What the configuration decides for a type. */
  datatype Setup = Setup(handler: Handler, effect: Effect, notValidOnBatt: bool, autoTimed: bool, autoTimeout: nat,
                         disableCnt: nat, backgroundDisabled: bool)

  /** Handler and effect of the types whose configuration depends on nothing. */
  function Fixed(k: TypeId): (Handler, Effect) {
    match k
    case 0 => (ModifySettings, HighPerf)
    case 2 => (OtherHandler, DisableInflow)
    case 3 => (OtherHandler, InhibitCharge)
    case 4 => (OtherHandler, DisableWarnings)
    case 5 => (SetKernelAssertions, PrevDisplaySlp)
    case 6 => (OtherHandler, EnableIdle)
    case 8 => (SetKernelAssertions, Effect.ExternalMedia)
    case 9 => (SetKernelAssertions, PrevDisplaySlp)
    case 14 => (OtherHandler, TicklessDisplayWake)
    case 15 => (ModifySettings, DiskSleep)
    case 16 => (SetKernelAssertions, PrevDisplaySlp)
    case 1 => (ModifySettings, PrevIdleSlp)
    case 12 => (ModifySettings, PrevIdleSlp)
    case 19 => (ModifySettings, PrevIdleSlp)
    case _ => (SetKernelAssertions, PrevDemandSlp)
  }

  /** The switch of the configuration code, before the disable count is looked at. */
  function Choose(k: TypeId, r: AssertionType, w: Surroundings, onBatt: bool, backgroundDisabled: bool): Setup {
    var s := Setup(r.handler, NoEffect, r.notValidOnBatt, r.autoTimed, r.autoTimeout, r.disableCnt, backgroundDisabled);
    if k == PUSH_SERVICE_TASK then
      s.(handler := SetKernelAssertions, effect := if w.sleepServiceWake then PrevDemandSlp else NoEffect)
    else if k == BACKGROUND_TASK then
      var b := s.(notValidOnBatt := true);
      if w.darkWakeTasks then
        var c := b.(handler := SetKernelAssertions, effect := PrevDemandSlp);
        if !w.maintenanceWake then
          if !backgroundDisabled then c.(disableCnt := c.disableCnt + 1, backgroundDisabled := true) else c
        else
          if backgroundDisabled then c.(disableCnt := if c.disableCnt > 0 then c.disableCnt - 1
              else 0, backgroundDisabled := false) else c
      else
        b.(handler := ModifySettings, effect := PrevIdleSlp,
           disableCnt := if backgroundDisabled && b.disableCnt > 0 then b.disableCnt - 1 else b.disableCnt)
    else if k == NETWORK_ACCESS then
      if onBatt then s.(handler := ModifySettings, effect := PrevIdleSlp)
          else s.(handler := SetKernelAssertions, effect := PrevDemandSlp)
    else if k == INTERACTIVE_PUSH then
      if w.keepAlive then
        s.(handler := SetKernelAssertions, effect := PrevDemandSlp, notValidOnBatt := false, autoTimed := true,
            autoTimeout := w.capMillis / 1000)
      else if w.sleepServiceWake then s
      else
        s.(handler := ModifySettings, effect := PrevIdleSlp, notValidOnBatt := true, autoTimed := true,
            autoTimeout := w.capMillis / 1000)
    else
      s.(handler := Fixed(k).0, effect := Fixed(k).1, notValidOnBatt := r.notValidOnBatt
          || k in {PREVENT_SLEEP, SR_PREVENT_SLEEP})
  }

  /** The record of a type after its configuration: a disabled type has no effect. */
  function Configure(r: AssertionType, s: Setup): AssertionType {
    r.(handler := s.handler, effect := if s.disableCnt > 0 then NoEffect
        else s.effect, notValidOnBatt := s.notValidOnBatt,
       autoTimed := s.autoTimed, autoTimeout := s.autoTimeout, disableCnt := s.disableCnt)
  }

  lemma ConfigureFits(k: TypeId, r: AssertionType, w: Surroundings, onBatt: bool, backgroundDisabled: bool)
    requires TypeOK(k, r)
    ensures var r' := Configure(r, Choose(k, r, w, onBatt, backgroundDisabled));
            TypeOK(k, r') && (k != INTERACTIVE_PUSH ==> r'.notValidOnBatt == r.notValidOnBatt)
  {
  }

  /** The share of a background task's disable count that others asked for. */
  function OthersDisable(disableCnt: nat, backgroundDisabled: bool): int {
    disableCnt - if backgroundDisabled then 1 else 0
  }

  /** A configuration leaves that share alone exactly under this condition.  Without dark-wake tasks it takes
      one off every time while its own earlier disable is on record, because it never clears the record. */
  predicate ShareKept(w: Surroundings, disableCnt: nat, backgroundDisabled: bool) {
    if w.darkWakeTasks then !(w.maintenanceWake && backgroundDisabled && disableCnt == 0)
        else !backgroundDisabled || disableCnt == 0
  }

  lemma BackgroundDisable(r: AssertionType, w: Surroundings, onBatt: bool, backgroundDisabled: bool)
    ensures var s := Choose(BACKGROUND_TASK, r, w, onBatt, backgroundDisabled);
            var kept := OthersDisable(s.disableCnt, s.backgroundDisabled)
                == OthersDisable(r.disableCnt, backgroundDisabled);
            kept <==> ShareKept(w, r.disableCnt, backgroundDisabled)
  {
  }

  /** Two configurations without dark-wake tasks undo a disable that someone else asked for. */
  lemma BackgroundReenabled(r: AssertionType, w: Surroundings, onBatt: bool)
    requires r.disableCnt == 2 && !w.darkWakeTasks
    ensures var r1 := Configure(r, Choose(BACKGROUND_TASK, r, w, onBatt, true));
            var s2 := Choose(BACKGROUND_TASK, r1, w, onBatt, true);
            r1.effect == NoEffect && s2.backgroundDisabled && Configure(r1, s2).effect == PrevIdleSlp
  {
  }

  /** The record of a type disabled once more, and enabled once more. */
  function DisabledType(k: TypeId, r: AssertionType, w: Surroundings, onBatt: bool,
                        backgroundDisabled: bool): AssertionType {
    var more := r.(disableCnt := r.disableCnt + 1);
    Configure(more, Choose(k, more, w, onBatt, backgroundDisabled))
  }

  function EnabledType(k: TypeId, r: AssertionType, w: Surroundings, onBatt: bool,
                       backgroundDisabled: bool): AssertionType {
    var less := r.(disableCnt := if r.disableCnt > 0 then r.disableCnt - 1 else 0);
    Configure(less, Choose(k, less, w, onBatt, backgroundDisabled))
  }

  /** What a disable and an enable do to the count of background tasks, whose configuration counts on its own. */
  lemma BackgroundCounts(r: AssertionType, w: Surroundings, onBatt: bool, backgroundDisabled: bool)
    ensures var d := DisabledType(BACKGROUND_TASK, r, w, onBatt, backgroundDisabled);
            && (d.disableCnt == r.disableCnt <==>
                 (if w.darkWakeTasks then w.maintenanceWake && backgroundDisabled else backgroundDisabled))
            && r.disableCnt <= d.disableCnt <= r.disableCnt + 2
            && (d.disableCnt == r.disableCnt + 2 <==> w.darkWakeTasks && !w.maintenanceWake && !backgroundDisabled)
            && (d.effect == NoEffect <==> d.disableCnt > 0)
    ensures var d := EnabledType(BACKGROUND_TASK, r, w, onBatt, backgroundDisabled);
            && (d.disableCnt > r.disableCnt <==>
                 r.disableCnt == 0 && w.darkWakeTasks && !w.maintenanceWake && !backgroundDisabled)
            && (d.effect == NoEffect <==> d.disableCnt > 0)
  {
  }

  // ---- the derived state ---------------------------------------------------------------

  /** Handlers look at effects and activity only. */
  lemma HandleIgnoresHandlers(v: seq<Slot>, w: seq<Slot>, k: TypeId, h: Handler, op: Op, d: Derived)
    requires |v| == |w| == TYPE_COUNT
    requires forall t :: 0 <= t < TYPE_COUNT ==> v[t].effect == w[t].effect && v[t].on == w[t].on
    ensures Handle(v, k, h, op, d) == Handle(w, k, h, op, d)
  {
    var e := v[k].effect;
    if EffectOn(v, e) {
      var t :| 0 <= t < |v| && v[t].effect == e && v[t].on;
      assert w[t].effect == e && w[t].on;
    }
    if EffectOn(w, e) {
      var t :| 0 <= t < |w| && w[t].effect == e && w[t].on;
      assert v[t].effect == e && v[t].on;
    }
  }

  lemma ConfigAt(types: Types, k: TypeId, r: AssertionType)
    requires ConfigOK(types) && TypeOK(k, r)
    ensures ConfigOK(types[k := r])
  {
    var types' := types[k := r];
    forall t: TypeId ensures TypeOK(t, types'[t]) {
      assert TypeOK(t, types[t]);
    }
  }

  /** Lists, timers and counters do not depend on the configuration. */
  lemma ReconfigureSound(table: Table, types: Types, limbo: set<Index>, exact: set<TypeId>, k: TypeId, r: AssertionType)
    requires SoundAt(table, types, limbo, exact) && TypeOK(k, r)
    requires SameLists(types[k], r) && r.validCnt == types[k].validCnt
    ensures SoundAt(table, types[k := r], limbo, exact)
  {
    SameListsKeepShape(table, types, limbo, k, r);
    ConfigAt(types, k, r);
    forall t: TypeId | t in exact ensures CountOK(table, limbo, t, types[k := r][t]) {
      assert CountOK(table, limbo, t, types[t]);
    }
  }

  /** Unlinked and evaluated with the old handler, linked and evaluated with the new one. */
  lemma ReconfigureDerives(types: Types, onBatt: bool, d: Derived, k: TypeId, r: AssertionType)
    requires ConfigOK(types) && TypeOK(k, r) && DerivesAt(types, onBatt, d, -1)
    ensures var v0 := ViewOf(types[k := r.(effect := types[k].effect, linked := false)], onBatt);
            var v := ViewOf(types[k := r], onBatt);
            var d1 := Handle(v0, k, types[k].handler, Eval, d);
            var d2 := if r.effect != NoEffect then Handle(v, k, r.handler, Eval, d1) else d1;
            DerivesAt(types[k := r], onBatt, d2, -1)
  {
    var v := ViewOf(types, onBatt);
    var s := SlotOf(r, onBatt);
    var off := v[k := v[k].(on := false)];
    var v0 := ViewOf(types[k := r.(effect := types[k].effect, linked := false)], onBatt);
    assert TypeOK(k, types[k]);
    ViewConfigured(types, onBatt);
    ReconfigureKeepsMirror(v, d, k, s);
    HandleIgnoresHandlers(v0, off, k, types[k].handler, Eval, d);
    assert ViewOf(types[k := r], onBatt) == v[k := s];
  }

  /** Only flags changed: the type is pending and its own handler settles it. */
  lemma ReflagDerives(types: Types, onBatt: bool, d: Derived, k: TypeId, r: AssertionType)
    requires ConfigOK(types) && TypeOK(k, r) && DerivesAt(types, onBatt, d, -1)
    requires r.effect == types[k].effect && r.handler == types[k].handler
    ensures DerivesAt(types[k := r], onBatt, Handle(ViewOf(types[k := r], onBatt), k, r.handler, Eval, d), -1)
    ensures r.notValidOnBatt == types[k].notValidOnBatt && SameLists(types[k], r) && r.validCnt == types[k].validCnt ==>
              DerivesAt(types[k := r], onBatt, d, -1)
  {
    var v, v' := ViewOf(types, onBatt), ViewOf(types[k := r], onBatt);
    assert TypeOK(k, types[k]);
    ViewConfigured(types, onBatt);
    ConfigAt(types, k, r);
    ViewConfigured(types[k := r], onBatt);
    MirrorIsPending(v, v', d, k);
    HandlerRestoresMirror(v', d, k, Eval);
    if r.notValidOnBatt == types[k].notValidOnBatt && SameLists(types[k], r) && r.validCnt == types[k].validCnt {
      assert v' == v;
    }
  }

  // ---- operations ----------------------------------------------------------------------

  /** Put the new configuration of type `k` into effect. */
  method Apply(e: Engine, k: TypeId, r: AssertionType)
    requires e.Inv() && TypeOK(k, r) && SameLists(e.types[k], r) && r.validCnt == e.types[k].validCnt
               && r.timer == e.types[k].timer
    modifies e`types, e`ker, e`overrides, e`agg
    ensures e.Inv() && e.types == old(e.types)[k := r]
  {
    hide SoundAt, TimersAt, HouseAt, DerivesAt, ViewOf, Handle, TypeOK, ConfigOK;
    var oldHandler, prevEffect := e.types[k].handler, e.types[k].effect;
    var flagsChanged := e.types[k].notValidOnBatt != r.notValidOnBatt || e.types[k].autoTimed != r.autoTimed;
    ghost var types0 := e.types;
    BeforeApply(e, k, r);
    if oldHandler != r.handler || prevEffect != r.effect {
      e.types := e.types[k := r.(effect := prevEffect, linked := false)];
      AllLinked(types0, k);
      e.CallHandler(k, oldHandler, Eval);
      UpdateSeqTwice(types0, k, r.(effect := prevEffect, linked := false), r);
      e.types := e.types[k := r];
      if r.effect != NoEffect {
        e.CallHandler(k, r.handler, Eval);
      }
    } else if flagsChanged {
      e.types := e.types[k := r];
      AllLinked(types0, k);
      e.CallHandler(k, r.handler, Eval);
    } else {
      e.types := e.types[k := r];
    }
  }

  lemma AllLinked(types: Types, k: TypeId)
    requires ConfigOK(types)
    ensures |types| == TYPE_COUNT && forall t: TypeId :: types[t].linked
  {
    forall t: TypeId ensures types[t].linked { assert TypeOK(t, types[t]); }
  }

  lemma BeforeApply(e: Engine, k: TypeId, r: AssertionType)
    requires e.Inv() && TypeOK(k, r) && SameLists(e.types[k], r) && r.validCnt == e.types[k].validCnt
               && r.timer == e.types[k].timer
    ensures ConfigOK(e.types)
    ensures SoundAt(e.table, e.types[k := r], e.limbo, e.exact)
    ensures TimersAt(e.table, e.types[k := r], e.now, -1)
    ensures var v0 := ViewOf(e.types[k := r.(effect := e.types[k].effect, linked := false)], e.onBatt);
            var v := ViewOf(e.types[k := r], e.onBatt);
            var d1 := Handle(v0, k, e.types[k].handler, Eval, e.DerivedState());
            var d2 := if r.effect != NoEffect then Handle(v, k, r.handler, Eval, d1) else d1;
            DerivesAt(e.types[k := r], e.onBatt, d2, -1)
    ensures r.effect == e.types[k].effect && r.handler == e.types[k].handler ==>
              DerivesAt(e.types[k := r], e.onBatt,
                  Handle(ViewOf(e.types[k := r], e.onBatt), k, r.handler, Eval, e.DerivedState()), -1)
    ensures r.effect == e.types[k].effect && r.handler == e.types[k].handler
              && r.notValidOnBatt == e.types[k].notValidOnBatt ==>
              DerivesAt(e.types[k := r], e.onBatt, e.DerivedState(), -1)
  {
    hide SoundAt, TimersAt, HouseAt, DerivesAt, ViewOf, Handle, TypeOK, ConfigOK;
    SoundConfig(e.table, e.types, e.limbo, e.exact);
    ReconfigureSound(e.table, e.types, e.limbo, e.exact, k, r);
    SoundFacts(e.table, e.types, e.limbo, e.exact, MAX_ASSERTIONS);
    TimersFrame(e.table, e.types, e.limbo, e.exact, e.table, e.types[k := r], e.now, k, MAX_ASSERTIONS);
    ReconfigureDerives(e.types, e.onBatt, e.DerivedState(), k, r);
    if r.effect == e.types[k].effect && r.handler == e.types[k].handler {
      ReflagDerives(e.types, e.onBatt, e.DerivedState(), k, r);
    }
  }

  /** The types the two redirected names stand for once type `k` is configured. */
  function PushAlias(k: TypeId, w: Surroundings, alias: TypeId): TypeId {
    if k != PUSH_SERVICE_TASK then alias else if w.sleepServiceWake then PUSH_SERVICE_TASK else BACKGROUND_TASK
  }

  function InteractiveAlias(k: TypeId, w: Surroundings, alias: TypeId): TypeId {
    if k != INTERACTIVE_PUSH then alias else if !w.keepAlive && w.sleepServiceWake then PUSH_SERVICE_TASK
        else INTERACTIVE_PUSH
  }

  /** configAssertionType after the start: the switch, then the change of handler and effect. */
  method ConfigAssertionType(e: Engine, k: TypeId, w: Surroundings)
    requires e.Inv()
    modifies e`types, e`ker, e`overrides, e`agg, e`pushAlias, e`interactiveAlias, e`backgroundDisabled
    ensures e.Inv()
    ensures e.types == old(e.types)[k := Configure(old(e.types)[k],
              Choose(k, old(e.types)[k], w, e.onBatt, old(e.backgroundDisabled)))]
    ensures e.backgroundDisabled
              == Choose(k, old(e.types)[k], w, e.onBatt, old(e.backgroundDisabled)).backgroundDisabled
    ensures e.pushAlias == PushAlias(k, w, old(e.pushAlias))
              && e.interactiveAlias == InteractiveAlias(k, w, old(e.interactiveAlias))
  {
    hide SoundAt, TimersAt, HouseAt, DerivesAt, ViewOf, Handle, TypeOK, ConfigOK, Choose;
    var s := Choose(k, e.types[k], w, e.onBatt, e.backgroundDisabled);
    FitsNow(e, k, w);
    e.backgroundDisabled := s.backgroundDisabled;
    if k == PUSH_SERVICE_TASK {
      e.pushAlias := if w.sleepServiceWake then PUSH_SERVICE_TASK else BACKGROUND_TASK;
    }
    if k == INTERACTIVE_PUSH {
      e.interactiveAlias := if !w.keepAlive && w.sleepServiceWake then PUSH_SERVICE_TASK else INTERACTIVE_PUSH;
    }
    Apply(e, k, Configure(e.types[k], s));
  }

  lemma FitsNow(e: Engine, k: TypeId, w: Surroundings)
    requires e.Sound()
    ensures var r' := Configure(e.types[k], Choose(k, e.types[k], w, e.onBatt, e.backgroundDisabled));
            TypeOK(k, r') && (k != INTERACTIVE_PUSH ==> r'.notValidOnBatt == e.types[k].notValidOnBatt)
  {
    SoundConfig(e.table, e.types, e.limbo, e.exact);
    assert TypeOK(k, e.types[k]);
    ConfigureFits(k, e.types[k], w, e.onBatt, e.backgroundDisabled);
  }

  lemma CountFits(types: Types, k: TypeId, n: nat)
    requires ConfigOK(types)
    ensures TypeOK(k, types[k].(disableCnt := n))
  {
    assert TypeOK(k, types[k]);
  }

  method SetDisableCount(e: Engine, k: TypeId, n: nat)
    requires e.Inv()
    modifies e`types
    ensures e.Inv() && e.types == old(e.types)[k := old(e.types)[k].(disableCnt := n)]
  {
    hide SoundAt, TimersAt, HouseAt, DerivesAt, ViewOf, Handle;
    var r := e.types[k].(disableCnt := n);
    ghost var types0 := e.types;
    SoundConfig(e.table, e.types, e.limbo, e.exact);
    CountFits(e.types, k, n);
    ReconfigureSound(e.table, e.types, e.limbo, e.exact, k, r);
    SoundFacts(e.table, e.types, e.limbo, e.exact, MAX_ASSERTIONS);
    TimersFrame(e.table, e.types, e.limbo, e.exact, e.table, e.types[k := r], e.now, k, MAX_ASSERTIONS);
    e.types := e.types[k := r];
    SameActivity(types0, e.types, e.onBatt, e.DerivedState(), -1);
  }

  /** While the disable count is positive the type has no effect. */
  method DisableAssertionType(e: Engine, k: TypeId, w: Surroundings)
    requires e.Inv()
    modifies e`types, e`ker, e`overrides, e`agg, e`pushAlias, e`interactiveAlias, e`backgroundDisabled
    ensures e.Inv()
    ensures e.backgroundDisabled == var r := old(e.types)[k];
              Choose(k, r.(disableCnt := r.disableCnt + 1), w, e.onBatt, old(e.backgroundDisabled)).backgroundDisabled
    ensures e.types == old(e.types)[k := DisabledType(k, old(e.types)[k], w, e.onBatt, old(e.backgroundDisabled))]
    ensures e.pushAlias == PushAlias(k, w, old(e.pushAlias))
              && e.interactiveAlias == InteractiveAlias(k, w, old(e.interactiveAlias))
    ensures k != BACKGROUND_TASK ==>
              e.types[k].disableCnt == old(e.types)[k].disableCnt + 1 && e.types[k].effect == NoEffect
  {
    hide SoundAt, TimersAt, HouseAt, DerivesAt, ViewOf, Handle;
    SetDisableCount(e, k, e.types[k].disableCnt + 1);
    ConfigAssertionType(e, k, w);
  }

  method EnableAssertionType(e: Engine, k: TypeId, w: Surroundings)
    requires e.Inv()
    modifies e`types, e`ker, e`overrides, e`agg, e`pushAlias, e`interactiveAlias, e`backgroundDisabled
    ensures e.Inv()
    ensures e.backgroundDisabled == var r := old(e.types)[k];
              Choose(k, r.(disableCnt := if r.disableCnt > 0 then r.disableCnt - 1 else 0), w, e.onBatt,
                  old(e.backgroundDisabled)).backgroundDisabled
    ensures e.types == old(e.types)[k := EnabledType(k, old(e.types)[k], w, e.onBatt, old(e.backgroundDisabled))]
    ensures e.pushAlias == PushAlias(k, w, old(e.pushAlias))
              && e.interactiveAlias == InteractiveAlias(k, w, old(e.interactiveAlias))
    ensures k != BACKGROUND_TASK ==>
              e.types[k].disableCnt == (if old(e.types)[k].disableCnt > 0 then old(e.types)[k].disableCnt - 1 else 0)
  {
    hide SoundAt, TimersAt, HouseAt, DerivesAt, ViewOf, Handle;
    if e.types[k].disableCnt > 0 {
      SetDisableCount(e, k, e.types[k].disableCnt - 1);
    }
    ConfigAssertionType(e, k, w);
  }

  // ---- the power source ----------------------------------------------------------------

  function Capped(a: Assertion, cap: nat): Assertion {
    if a.timeout > cap then a.(timeout := cap) else a
  }

  /** The deadlines of the assertions in `done` were capped, nothing else changed. */
  ghost predicate CappedSo(table0: Table, table: Table, done: set<Index>, cap: nat) {
    && table.Keys == table0.Keys
    && forall j :: j in table ==> table[j] == if j in done then Capped(table0[j], cap) else table0[j]
  }

  /** The live assertions of a type. */
  ghost function Live(table: Table, k: TypeId): set<Index> {
    set j | j in table && table[j].kassert == k && PlaceOf(table[j]) in {Timed, Active}
  }

  lemma CapType(table0: Table, table: Table, t: TypeId, r: AssertionType, k: TypeId, cap: nat)
    requires ListsOK(table0, {}, t, r) && CappedSo(table0, table, Live(table0, k), cap)
    ensures ListsOK(table, {}, t, r) && ValidSet(table, {}, t) == ValidSet(table0, {}, t)
  {
    CapFields(table0, table, Live(table0, k), cap);
    assert forall j :: j in r.timed ==> (j in Live(table0, k) <==> t == k);
    assert Sorted(table, r.timed);
    hide CappedSo, Capped, Live;
  }

  lemma CapFields(table0: Table, table: Table, done: set<Index>, cap: nat)
    requires CappedSo(table0, table, done, cap)
    ensures table.Keys == table0.Keys && forall j :: j in table ==> table[j] == table0[j].(timeout := table[j].timeout)
  {
  }

  /** Capping keeps every list as it is, also the order of the timed ones. */
  lemma CapSound(table0: Table, table: Table, types: Types, exact: set<TypeId>, k: TypeId, cap: nat)
    requires SoundAt(table0, types, {}, exact) && CappedSo(table0, table, Live(table0, k), cap)
    ensures SoundAt(table, types, {}, exact)
  {
    CapFields(table0, table, Live(table0, k), cap);
    hide ListsOK, ValidSet, CappedSo, Live;
    forall t: TypeId ensures ListsOK(table, {}, t, types[t]) && ValidSet(table, {}, t) == ValidSet(table0, {}, t) {
      assert ListsOK(table0, {}, t, types[t]);
      CapType(table0, table, t, types[t], k, cap);
    }
    forall t: TypeId | t in exact ensures CountOK(table, {}, t, types[t]) {
      assert CountOK(table0, {}, t, types[t]);
    }
  }

  lemma CapTimers(table0: Table, table: Table, types: Types, exact: set<TypeId>, k: TypeId, cap: nat, now: nat)
    requires SoundAt(table0, types, {}, exact) && CappedSo(table0, table, Live(table0, k), cap)
               && TimersAt(table0, types, now, -1)
    ensures TimersAt(table, types, now, k)
  {
    forall t: TypeId | t != k ensures TimerOK(table, types[t], now) {
      assert TimerOK(table0, types[t], now) && ListsOK(table0, {}, t, types[t]);
      if types[t].timed != [] {
        assert types[t].timed[0] in types[t].timed;
      }
    }
  }

  ghost function Elements(l: seq<Index>): set<Index> {
    set i | i in l
  }

  /** One list of the walk that caps deadlines. */
  method CapList(e: Engine, l: seq<Index>, cap: nat, ghost table0: Table, ghost done: set<Index>)
      returns (ghost done': set<Index>)
    requires CappedSo(table0, e.table, done, cap) && forall i :: i in l ==> i in e.table && i !in done
    requires NoDup(l)
    modifies e`table
    ensures done' == done + Elements(l) && CappedSo(table0, e.table, done', cap)
  {
    done' := done;
    for x := 0 to |l|
      invariant done' == done + Elements(l[..x]) && CappedSo(table0, e.table, done', cap)
      invariant forall y :: x <= y < |l| ==> l[y] !in done'
    {
      var i := l[x];
      assert i in l && i in table0;
      assert l[..x + 1] == l[..x] + [i];
      if e.table[i].timeout > cap {
        e.table := e.table[i := e.table[i].(timeout := cap)];
      }
      done' := done' + {i};
    }
    assert l[..|l|] == l;
  }

  lemma LiveLists(table: Table, types: Types, exact: set<TypeId>, k: TypeId)
    requires SoundAt(table, types, {}, exact)
    ensures NoDup(types[k].timed) && NoDup(types[k].active)
    ensures forall i :: i in types[k].timed ==> i in table && i !in types[k].active
    ensures forall i :: i in types[k].active ==> i in table
    ensures Elements(types[k].timed) + Elements(types[k].active) == Live(table, k)
  {
    assert ListsOK(table, {}, k, types[k]);
  }

  /** The two walks that cap deadlines. */
  method CapLive(e: Engine, k: TypeId, cap: nat)
    requires e.Sound() && e.limbo == {}
    modifies e`table
    ensures CappedSo(old(e.table), e.table, Live(old(e.table), k), cap)
  {
    hide SoundAt, CappedSo, Live, NoDup;
    ghost var table0 := e.table;
    LiveLists(e.table, e.types, e.exact, k);
    CapNothing(table0, cap);
    ghost var done := CapList(e, e.types[k].timed, cap, table0, {});
    assert done == Elements(e.types[k].timed);
    CapKeys(table0, e.table, done, cap);
    done := CapList(e, e.types[k].active, cap, table0, done);
  }

  /** evalAllInteractivePushAssertions: no live assertion of the type outlives the cap. */
  method EvalAllInteractivePush(e: Engine)
    requires e.Inv()
    modifies e`table, e`types
    ensures e.Inv()
    ensures CappedSo(old(e.table), e.table, Live(old(e.table), INTERACTIVE_PUSH),
              old(e.types)[INTERACTIVE_PUSH].autoTimeout + e.now)
    ensures var k := INTERACTIVE_PUSH; e.types == old(e.types)[k := old(e.types)[k].(timer := e.types[k].timer)]
  {
    hide SoundAt, TimersAt, HouseAt, DerivesAt, ViewOf, Handle, CappedSo, Live, NoDup;
    var k: TypeId := INTERACTIVE_PUSH;
    var cap := e.types[k].autoTimeout + e.now;
    ghost var table0, types0 := e.table, e.types;
    CapLive(e, k, cap);
    CapSound(table0, e.table, e.types, e.exact, k, cap);
    CapTimers(table0, e.table, e.types, e.exact, k, cap, e.now);
    CapHouse(table0, e.table, Live(table0, k), cap, e.suspendedPids + e.suspending, e.proxy, e.powerd, e.nextIndex);
    e.UpdateAssertionTimer(k);
    SameActivity(types0, e.types, e.onBatt, e.DerivedState(), -1);
  }

  lemma CapNothing(table: Table, cap: nat)
    ensures CappedSo(table, table, {}, cap)
  {
  }

  lemma CapKeys(table0: Table, table: Table, done: set<Index>, cap: nat)
    requires CappedSo(table0, table, done, cap)
    ensures forall j :: j in table <==> j in table0
  {
  }

  lemma CapHouse(table0: Table, table: Table, done: set<Index>, cap: nat, suspendedPids: set<Pid>, proxy: Option<Index>,
                 powerd: Pid, nextIndex: nat)
    requires HouseAt(table0, {}, suspendedPids, proxy, powerd, nextIndex) && CappedSo(table0, table, done, cap)
    ensures HouseAt(table, {}, suspendedPids, proxy, powerd, nextIndex)
  {
  }

  /** Every handler run once to re-evaluate its type. */
  method EvalAllTypes(e: Engine, ghost v0: seq<Slot>)
    requires e.Sound() && Configured(v0) && Mirrored(v0, e.DerivedState())
    requires forall t: TypeId :: e.types[t].effect == v0[t].effect && e.types[t].handler == v0[t].handler
    modifies e`ker, e`overrides, e`agg
    ensures e.Derives(-1)
  {
    hide SoundAt, Configured, Mirrored, Handle;
    ghost var d0 := e.DerivedState();
    SoundConfig(e.table, e.types, e.limbo, e.exact);
    ViewConfigured(e.types, e.onBatt);
    AllLinked(e.types, 0);
    hide ConfigOK;
    for t := 0 to TYPE_COUNT
      invariant e.DerivedState() == EvalAll(e.View(), t, d0)
    {
      e.CallHandler(t, e.types[t].handler, Eval);
    }
    EvalAllRestoresMirror(v0, e.View(), d0);
  }

  /** All types after those that depend on the power source were configured for it. */
  function ForSource(types: Types, w: Surroundings, onBatt: bool, backgroundDisabled: bool): (r: Types)
    requires |types| == TYPE_COUNT
    ensures |r| == TYPE_COUNT
    ensures forall t: TypeId :: r[t] ==
              if t in {BACKGROUND_TASK, NETWORK_ACCESS, INTERACTIVE_PUSH}
              then Configure(types[t], Choose(t, types[t], w, onBatt, backgroundDisabled)) else types[t]
  {
    seq(TYPE_COUNT, t requires 0 <= t < TYPE_COUNT =>
      if t in {BACKGROUND_TASK, NETWORK_ACCESS, INTERACTIVE_PUSH}
      then Configure(types[t], Choose(t, types[t], w, onBatt, backgroundDisabled)) else types[t])
  }

  /** The types were configured for the source, and the timer of interactive push was set again. */
  ghost predicate SwitchedSo(types0: Types, types: Types, w: Surroundings, onBatt: bool, backgroundDisabled: bool) {
    |types0| == |types| == TYPE_COUNT &&
    var r := ForSource(types0, w, onBatt, backgroundDisabled); var k := INTERACTIVE_PUSH;
    types == r[k := r[k].(timer := types[k].timer)]
  }

  /** The types whose configuration depends on the power source. */
  method ConfigureForSource(e: Engine, w: Surroundings)
    requires e.Inv()
    modifies e`types, e`ker, e`overrides, e`agg, e`pushAlias, e`interactiveAlias, e`backgroundDisabled
    ensures e.Inv()
    ensures e.types[NETWORK_ACCESS].disableCnt == 0 ==>
              e.types[NETWORK_ACCESS].effect == if e.onBatt then PrevIdleSlp else PrevDemandSlp
    ensures e.types == ForSource(old(e.types), w, e.onBatt, old(e.backgroundDisabled))
    ensures e.backgroundDisabled == Choose(BACKGROUND_TASK, old(e.types)[BACKGROUND_TASK], w, e.onBatt,
              old(e.backgroundDisabled)).backgroundDisabled
    ensures e.pushAlias == old(e.pushAlias)
              && e.interactiveAlias == InteractiveAlias(INTERACTIVE_PUSH, w, old(e.interactiveAlias))
  {
    hide SoundAt, TimersAt, HouseAt, DerivesAt, ViewOf, Handle;
    ConfigAssertionType(e, BACKGROUND_TASK, w);
    ConfigAssertionType(e, NETWORK_ACCESS, w);
    ConfigAssertionType(e, INTERACTIVE_PUSH, w);
  }

  /** Every type evaluated again for the other source. */
  method EvaluateForSource(e: Engine, onBatt: bool)
    requires e.Inv()
    modifies e`onBatt, e`ker, e`overrides, e`agg
    ensures e.Inv() && e.onBatt == onBatt
  {
    hide SoundAt, TimersAt, HouseAt, DerivesAt, ViewOf, Handle, Configured, Mirrored;
    BeforeSwitch(e);
    ghost var v0 := e.View();
    e.onBatt := onBatt;
    EvalAllTypes(e, v0);
  }

  /** The power source changed: every type is evaluated again, those that depend on the source are
      configured again, and the deadlines of interactive push tasks are capped. */
  method PowerSourceChanged(e: Engine, onBatt: bool, w: Surroundings)
    requires e.Inv()
    modifies e`onBatt, e`table, e`types, e`ker, e`overrides, e`agg, e`pushAlias, e`interactiveAlias,
        e`backgroundDisabled
    ensures e.Inv() && e.onBatt == onBatt
    ensures onBatt == old(e.onBatt) ==>
              e.table == old(e.table) && e.types == old(e.types) && e.pushAlias == old(e.pushAlias)
                  && e.interactiveAlias == old(e.interactiveAlias)
              && e.backgroundDisabled == old(e.backgroundDisabled)
    ensures onBatt != old(e.onBatt) ==>
              && CappedSo(old(e.table), e.table, Live(old(e.table), INTERACTIVE_PUSH),
                   e.types[INTERACTIVE_PUSH].autoTimeout + e.now)
              && (e.types[NETWORK_ACCESS].disableCnt == 0 ==>
                   e.types[NETWORK_ACCESS].effect == if onBatt then PrevIdleSlp else PrevDemandSlp)
              && SwitchedSo(old(e.types), e.types, w, onBatt, old(e.backgroundDisabled))
              && e.pushAlias == old(e.pushAlias)
              && e.interactiveAlias == InteractiveAlias(INTERACTIVE_PUSH, w, old(e.interactiveAlias))
              && e.backgroundDisabled == Choose(BACKGROUND_TASK, old(e.types)[BACKGROUND_TASK], w, onBatt,
                   old(e.backgroundDisabled)).backgroundDisabled
  {
    hide SoundAt, TimersAt, HouseAt, DerivesAt, ViewOf, Handle, CappedSo, Live, Choose, Configure, InteractiveAlias,
         SwitchedSo, ForSource,
         Configured, Mirrored;
    if onBatt == e.onBatt { return; }
    EvaluateForSource(e, onBatt);
    ghost var types0 := e.types;
    ConfigureForSource(e, w);
    ghost var types1 := e.types;
    EvalAllInteractivePush(e);
    SwitchedFrom(types0, types1, e.types, w, onBatt, old(e.backgroundDisabled));
  }

  lemma SwitchedFrom(types0: Types, types1: Types, types: Types, w: Surroundings, onBatt: bool,
                     backgroundDisabled: bool)
    requires |types0| == |types| == TYPE_COUNT && types1 == ForSource(types0, w, onBatt, backgroundDisabled)
    requires var k := INTERACTIVE_PUSH; types == types1[k := types1[k].(timer := types[k].timer)]
    ensures SwitchedSo(types0, types, w, onBatt, backgroundDisabled)
  {
  }

  lemma BeforeSwitch(e: Engine)
    requires e.Inv()
    ensures Configured(e.View()) && Mirrored(e.View(), e.DerivedState())
    ensures forall t: TypeId :: e.types[t].effect == e.View()[t].effect && e.types[t].handler == e.View()[t].handler
  {
    hide SoundAt, TimersAt, HouseAt, Handle, Configured, Mirrored;
    SoundConfig(e.table, e.types, e.limbo, e.exact);
    ViewConfigured(e.types, e.onBatt);
  }

  // ---- the start -----------------------------------------------------------------------

  /** A type before its first configuration. */
  function Blank(): AssertionType {
    AssertionType([], [], [], [], false, false, 0, NoEffect, SetKernelAssertions, true, 0, 0, TypeTimer(false, None, 0))
  }

  function FirstSetup(k: TypeId, w: Surroundings, onBatt: bool): Setup {
    Choose(k, Blank(), w, onBatt, false)
  }

  lemma FirstSetupFits(k: TypeId, w: Surroundings, onBatt: bool)
    ensures var r := Configure(Blank(), FirstSetup(k, w, onBatt)); TypeOK(k, r) && Unused(r)
  {
  }

  function InitialTypes(w: Surroundings, onBatt: bool): (types: Types)
    ensures |types| == TYPE_COUNT && forall k: TypeId :: types[k] == Configure(Blank(), FirstSetup(k, w, onBatt))
  {
    seq(TYPE_COUNT, k requires 0 <= k < TYPE_COUNT => Configure(Blank(), FirstSetup(k, w, onBatt)))
  }

  /** The engine at boot, every type configured once.  A boot during a sleep-service wake without keep-alive
      would leave interactive push with no handler at all. */
  method Boot(powerd: Pid, now: nat, onBatt: bool, displayTimer: nat, idleTimer: nat, w: Surroundings)
      returns (e: Engine)
    requires w.sleepServiceWake ==> w.keepAlive
    ensures fresh(e) && e.Inv() && e.table == map[] && e.powerd == powerd
    ensures e.exact == BATTERY_TYPES && e.suspendedPids == {} && e.proxy.None?
    ensures e.now == now && e.onBatt == onBatt && e.displayTimer == displayTimer && e.idleTimer == idleTimer
    ensures e.types == InitialTypes(w, onBatt) && e.pushAlias == PushAlias(PUSH_SERVICE_TASK, w, 0)
              && e.interactiveAlias == INTERACTIVE_PUSH
    ensures forall t: TypeId :: t !in {BACKGROUND_TASK} ==> e.types[t].effect != NoEffect || t == PUSH_SERVICE_TASK
    ensures e.backgroundDisabled <==> w.darkWakeTasks && !w.maintenanceWake
    ensures e.nextIndex == 0 && e.DerivedState() == Derived({}, {}, {})
    ensures forall t: TypeId :: e.types[t].disableCnt == if t == BACKGROUND_TASK && e.backgroundDisabled then 1 else 0
  {
    hide Configure, FirstSetup;
    forall k: TypeId ensures var r := InitialTypes(w, onBatt)[k]; TypeOK(k, r) && Unused(r) {
      FirstSetupFits(k, w, onBatt);
    }
    BootEffects(w, onBatt);
    e := new Engine(powerd, InitialTypes(w, onBatt), now, onBatt, displayTimer, idleTimer,
        PushAlias(PUSH_SERVICE_TASK, w, 0), INTERACTIVE_PUSH,
                    FirstSetup(BACKGROUND_TASK, w, onBatt).backgroundDisabled);
  }

  lemma BootEffects(w: Surroundings, onBatt: bool)
    requires w.sleepServiceWake ==> w.keepAlive
    ensures forall t: TypeId :: t !in {BACKGROUND_TASK, PUSH_SERVICE_TASK} ==>
              InitialTypes(w, onBatt)[t].effect != NoEffect
    ensures var disabled := FirstSetup(BACKGROUND_TASK, w, onBatt).backgroundDisabled;
            && (disabled <==> w.darkWakeTasks && !w.maintenanceWake)
            && forall t: TypeId ::
                 InitialTypes(w, onBatt)[t].disableCnt == if t == BACKGROUND_TASK && disabled then 1 else 0
  {
  }
}
