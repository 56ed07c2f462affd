/**
 Derived state of the assertion engine: kernel bits, settings overrides and the
 per-type aggregate bits, as the handlers of pmconfigd/PMAssertions.c compute them.

 A slot is what a handler can see of an assertion type: the effect it is linked to, its
 handler, and whether it is active on the current power source.  The handlers change the
 derived state incrementally; `Mirrored` says what it must be.
 */
module EffectMirror {
  import opened Common

  const TYPE_COUNT: nat := 21

  type TypeId = t: nat | t < TYPE_COUNT

  const HIGH_PERF: TypeId := 0
  const PREVENT_IDLE: TypeId := 1
  const PREVENT_DISPLAY_SLEEP: TypeId := 5
  const PREVENT_SLEEP: TypeId := 7
  const EXTERNAL_MEDIA: TypeId := 8
  const DECLARE_USER_ACTIVITY: TypeId := 9
  const PUSH_SERVICE_TASK: TypeId := 10
  const BACKGROUND_TASK: TypeId := 11
  const DECLARE_SYSTEM_ACTIVITY: TypeId := 12
  const SR_PREVENT_SLEEP: TypeId := 13
  const PREVENT_DISK_SLEEP: TypeId := 15
  const INT_PREVENT_DISPLAY_SLEEP: TypeId := 16
  const NETWORK_ACCESS: TypeId := 17
  const INTERACTIVE_PUSH: TypeId := 18
  const RESERVE_PWR_PREVENT_IDLE: TypeId := 19
  const SOFTWARE_UPDATE: TypeId := 20

  datatype Effect =
    | NoEffect | PrevIdleSlp | PrevDemandSlp | PrevDisplaySlp | ExternalMedia | DiskSleep
    | TicklessDisplayWake | EnableIdle | HighPerf | DisableInflow | InhibitCharge | DisableWarnings

  /** The three handlers kept apart here; `OtherHandler` stands for the battery-command,
      idle-enable and display-wake handlers, which own no kernel bit and no override. */
  datatype Handler = SetKernelAssertions | ModifySettings | OtherHandler

  datatype Op = Raise | Release | Eval

  datatype KernelBit = CpuBit | PreventDisplaySleepBit | ExternalMediaBit

  datatype Setting = ForceHighSpeed | PreventIdleSleep | PreventDiskSleep

  datatype Derived = Derived(ker: set<KernelBit>, overrides: set<Setting>, agg: set<TypeId>)

  datatype Slot = Slot(effect: Effect, handler: Handler, on: bool)

  /** The bit the kernel handler picks for a type. */
  function KernelBitOf(t: TypeId): Option<KernelBit> {
    if t in {PUSH_SERVICE_TASK, INTERACTIVE_PUSH, PREVENT_SLEEP, BACKGROUND_TASK, SR_PREVENT_SLEEP,
             NETWORK_ACCESS, SOFTWARE_UPDATE} then Some(CpuBit)
    else if t in {DECLARE_USER_ACTIVITY, PREVENT_DISPLAY_SLEEP, INT_PREVENT_DISPLAY_SLEEP}
        then Some(PreventDisplaySleepBit)
    else if t == EXTERNAL_MEDIA then Some(ExternalMediaBit)
    else None
  }

  /** The override the settings handler picks for a type. */
  function SettingOf(t: TypeId): Option<Setting> {
    if t == HIGH_PERF then Some(ForceHighSpeed)
    else if t in {DECLARE_SYSTEM_ACTIVITY, BACKGROUND_TASK, PREVENT_IDLE, NETWORK_ACCESS,
                  INTERACTIVE_PUSH, RESERVE_PWR_PREVENT_IDLE} then Some(PreventIdleSleep)
    else if t == PREVENT_DISK_SLEEP then Some(PreventDiskSleep)
    else None
  }

  function BitEffect(b: KernelBit): Effect {
    match b
    case CpuBit => PrevDemandSlp
    case PreventDisplaySleepBit => PrevDisplaySlp
    case ExternalMediaBit => ExternalMedia
  }

  function SettingEffect(o: Setting): Effect {
    match o
    case ForceHighSpeed => HighPerf
    case PreventIdleSleep => PrevIdleSlp
    case PreventDiskSleep => DiskSleep
  }

  /** Some type linked to the effect is active. */
  predicate EffectOn(v: seq<Slot>, e: Effect) {
    e != NoEffect && exists t :: 0 <= t < |v| && v[t].effect == e && v[t].on
  }

  /** Handler and effect of a type fit each other, as the configuration code leaves them. */
  ghost predicate SlotFits(t: TypeId, s: Slot) {
    match s.handler
    case SetKernelAssertions => KernelBitOf(t).Some? && s.effect in {NoEffect, BitEffect(KernelBitOf(t).value)}
    case ModifySettings => SettingOf(t).Some? && s.effect in {NoEffect, SettingEffect(SettingOf(t).value)}
    case OtherHandler =>
        s.effect in {NoEffect, TicklessDisplayWake, EnableIdle, DisableInflow, InhibitCharge, DisableWarnings}
  }

  ghost predicate Configured(v: seq<Slot>) {
    |v| == TYPE_COUNT && forall t: TypeId :: SlotFits(t, v[t])
  }

  /** Recomputation from scratch: what each bit, override and aggregate has to be. */
  ghost predicate Mirrored(v: seq<Slot>, d: Derived)
    requires |v| == TYPE_COUNT
  {
    && (forall b: KernelBit :: b in d.ker <==> EffectOn(v, BitEffect(b)))
    && (forall o: Setting :: o in d.overrides <==> EffectOn(v, SettingEffect(o)))
    && (forall t: TypeId :: v[t].handler != OtherHandler ==> (t in d.agg <==> v[t].effect != NoEffect && v[t].on))
  }

  /** The view in which type `k` is as active as its cached aggregate bit says. */
  function Cached(v: seq<Slot>, d: Derived, k: TypeId): (r: seq<Slot>)
    requires |v| == TYPE_COUNT
  {
    v[k := v[k].(on := k in d.agg)]
  }

  /** The derived state is up to date except that type `k` awaits its handler. */
  ghost predicate Pending(v: seq<Slot>, d: Derived, k: TypeId)
    requires |v| == TYPE_COUNT
  {
    Mirrored(Cached(v, d, k), d)
  }

  function Put<T(!new)>(s: set<T>, x: T, on: bool): (r: set<T>)
    ensures x in r <==> on
    ensures forall y :: y != x ==> (y in r <==> y in s)
  {
    if on then s + {x} else s - {x}
  }

  /** Effect of a handler call on the derived state: handler `h` run for type `t`. */
  function Handle(v: seq<Slot>, t: TypeId, h: Handler, op: Op, d: Derived): Derived
    requires |v| == TYPE_COUNT
  {
    var active := EffectOn(v, v[t].effect);
    var agg := Put(d.agg, t, v[t].on);
    if v[t].effect == NoEffect || h.OtherHandler? then d
    else if h.SetKernelAssertions? then
      if KernelBitOf(t).None? then d
      else if op.Eval? || op.Raise? == active then d.(ker := Put(d.ker, KernelBitOf(t).value, active), agg := agg)
      else d.(agg := agg)
    else if SettingOf(t).Some? && (op.Eval? || op.Raise? == active) && active != (t in d.agg) then
      d.(overrides := Put(d.overrides, SettingOf(t).value, active), agg := agg)
    else d.(agg := agg)
  }

  /** A raise may only have turned the type on, a release only off. */
  ghost predicate Directed(v: seq<Slot>, d: Derived, k: TypeId, op: Op)
    requires |v| == TYPE_COUNT
  {
    v[k].handler.OtherHandler? || v[k].effect == NoEffect ||
    ((op.Raise? && k in d.agg ==> v[k].on) && (op.Release? && v[k].on ==> k in d.agg))
  }

  lemma CachedEffect(v: seq<Slot>, d: Derived, k: TypeId, e: Effect)
    requires |v| == TYPE_COUNT
    ensures v[k].effect != e ==> (EffectOn(Cached(v, d, k), e) <==> EffectOn(v, e))
    ensures v[k].on == (k in d.agg) ==> (EffectOn(Cached(v, d, k), e) <==> EffectOn(v, e))
    ensures v[k].on && k !in d.agg && v[k].effect == e != NoEffect ==> EffectOn(v, e)
    ensures EffectOn(v, e) && !EffectOn(Cached(v, d, k), e) ==> v[k].on && k !in d.agg
    ensures EffectOn(Cached(v, d, k), e) && !EffectOn(v, e) ==> !v[k].on && k in d.agg
  {
    var c := Cached(v, d, k);
    if EffectOn(v, e) && !EffectOn(c, e) {
      var t :| 0 <= t < |v| && v[t].effect == e && v[t].on;
      assert c[t].effect == e;
      assert t == k;
    }
    if EffectOn(c, e) && !EffectOn(v, e) {
      var t :| 0 <= t < |c| && c[t].effect == e && c[t].on;
      assert v[t].effect == e;
      assert t == k;
    }
  }

  /** An incremental handler call completes the mirror for the one type that changed. */
  lemma HandlerRestoresMirror(v: seq<Slot>, d: Derived, k: TypeId, op: Op)
    requires Configured(v)
    requires Pending(v, d, k) && Directed(v, d, k, op)
    ensures Mirrored(v, Handle(v, k, v[k].handler, op, d))
  {
    var d' := Handle(v, k, v[k].handler, op, d);
    assert SlotFits(k, v[k]);
    forall b: KernelBit ensures b in d'.ker <==> EffectOn(v, BitEffect(b)) {
      CachedEffect(v, d, k, BitEffect(b));
      CachedEffect(v, d, k, v[k].effect);
    }
    forall o: Setting ensures o in d'.overrides <==> EffectOn(v, SettingEffect(o)) {
      CachedEffect(v, d, k, SettingEffect(o));
      CachedEffect(v, d, k, v[k].effect);
    }
    forall t: TypeId ensures v[t].handler != OtherHandler ==> (t in d'.agg <==> v[t].effect != NoEffect && v[t].on) {
      assert Cached(v, d, k)[t].handler == v[t].handler;
    }
  }

  /** A mirror is also pending for any type, whatever that type does next. */
  lemma MirrorIsPending(v: seq<Slot>, v': seq<Slot>, d: Derived, k: TypeId)
    requires Configured(v) && Configured(v')
    requires Mirrored(v, d) || Pending(v, d, k)
    requires forall t: TypeId :: t != k ==> v'[t] == v[t]
    requires v'[k].effect == v[k].effect && v'[k].handler == v[k].handler
    ensures Pending(v', d, k)
  {
    var c, c' := Cached(v, d, k), Cached(v', d, k);
    assert c' == c;
    forall b: KernelBit ensures EffectOn(c, BitEffect(b)) <==> b in d.ker {
      assert SlotFits(k, v[k]);
      CachedEffect(v, d, k, BitEffect(b));
    }
    forall o: Setting ensures EffectOn(c, SettingEffect(o)) <==> o in d.overrides {
      assert SlotFits(k, v[k]);
      CachedEffect(v, d, k, SettingEffect(o));
    }
  }

  /** Raising another type while `k` still awaits its handler: the raise sets its bit and leaves `k` pending.
      This is the display hand-off, where the proxy is raised before the release handler runs. */
  lemma RaiseWhilePending(v: seq<Slot>, d: Derived, k: TypeId, p: TypeId, op: Op)
    requires Configured(v) && Pending(v, d, k)
    requires p != k && v[p].handler == SetKernelAssertions && !op.Release?
    ensures var v' := v[p := v[p].(on := true)];
            var d' := Handle(v', p, SetKernelAssertions, op, d);
            && Configured(v') && Pending(v', d', k)
            && (v[p].effect != NoEffect ==> KernelBitOf(p).value in d'.ker)
  {
    var v' := v[p := v[p].(on := true)];
    var d' := Handle(v', p, SetKernelAssertions, op, d);
    var c, c' := Cached(v, d, k), Cached(v', d', k);
    assert SlotFits(p, v[p]);
    assert forall t: TypeId :: t != p ==> v'[t] == v[t];
    assert c' == c[p := c[p].(on := true)];
    if v[p].effect != NoEffect {
      assert v'[p].on && v'[p].effect == v[p].effect;
      assert c'[p].on && c'[p].effect == v[p].effect;
    }
    forall e: Effect | e != v[p].effect ensures EffectOn(c', e) <==> EffectOn(c, e) {
      if EffectOn(c', e) {
        var t :| 0 <= t < |c'| && c'[t].effect == e && c'[t].on;
        assert c[t].effect == e && c[t].on;
      }
      if EffectOn(c, e) {
        var t :| 0 <= t < |c| && c[t].effect == e && c[t].on;
        assert c'[t].effect == e && c'[t].on;
      }
    }
  }

  /** A type moved to another handler or effect: unlinked and evaluated with the old handler,
      linked again and evaluated with the new one unless it has no effect now. */
  function Reconfigured(v: seq<Slot>, d: Derived, k: TypeId, s: Slot): Derived
    requires |v| == TYPE_COUNT
  {
    var off := v[k := v[k].(on := false)];
    var d1 := Handle(off, k, v[k].handler, Eval, d);
    if s.effect == NoEffect then d1 else Handle(v[k := s], k, s.handler, Eval, d1)
  }

  lemma ReconfigureKeepsMirror(v: seq<Slot>, d: Derived, k: TypeId, s: Slot)
    requires Configured(v) && Mirrored(v, d) && SlotFits(k, s)
    requires v[k].handler.OtherHandler? <==> s.handler.OtherHandler?
    ensures Mirrored(v[k := s], Reconfigured(v, d, k, s))
  {
    var off := v[k := v[k].(on := false)];
    MirrorIsPending(v, off, d, k);
    HandlerRestoresMirror(off, d, k, Eval);
    var d1 := Handle(off, k, v[k].handler, Eval, d);
    var idle := v[k := s.(on := false)];
    var w := v[k := s];
    assert SlotFits(k, v[k]);
    OffIsUnlinked(off, idle, k);
    assert Mirrored(idle, d1) by {
      forall t: TypeId
          ensures idle[t].handler != OtherHandler ==> (t in d1.agg <==> idle[t].effect != NoEffect && idle[t].on) {
        assert off[t].handler != OtherHandler ==> (t in d1.agg <==> off[t].effect != NoEffect && off[t].on);
      }
    }
    MirrorIsPending(idle, w, d1, k);
    if s.effect == NoEffect {
      OffIsUnlinked(off, w, k);
    } else {
      HandlerRestoresMirror(w, d1, k, Eval);
    }
  }

  lemma OffIsUnlinked(v: seq<Slot>, w: seq<Slot>, k: TypeId)
    requires |v| == |w| == TYPE_COUNT
    requires forall t: TypeId :: t != k ==> w[t] == v[t]
    requires v[k].effect == NoEffect || !v[k].on
    requires w[k].effect == NoEffect || !w[k].on
    ensures forall e: Effect :: EffectOn(w, e) <==> EffectOn(v, e)
  {
    forall e: Effect ensures EffectOn(w, e) <==> EffectOn(v, e) {
      if EffectOn(v, e) {
        var t :| 0 <= t < |v| && v[t].effect == e && v[t].on;
        assert w[t].effect == e && w[t].on;
      }
      if EffectOn(w, e) {
        var t :| 0 <= t < |w| && w[t].effect == e && w[t].on;
        assert v[t].effect == e && v[t].on;
      }
    }
  }

  /** Every type's handler run once, in index order, to re-evaluate. */
  function EvalAll(v: seq<Slot>, n: nat, d: Derived): Derived
    requires |v| == TYPE_COUNT && n <= TYPE_COUNT
  {
    if n == 0 then d else Handle(v, n - 1, v[n - 1].handler, Eval, EvalAll(v, n - 1, d))
  }

  /** What holds when the first `n` handlers have run after the activity of all types changed at once.
      An override may still lag, but only while no type seen so far disagreed with the new state. */
  ghost predicate AggProgress(v: seq<Slot>, n: nat, d0: Derived, d: Derived, t: TypeId)
    requires |v| == TYPE_COUNT
  {
    v[t].handler != OtherHandler ==> (t in d.agg <==> if t < n then v[t].effect != NoEffect && v[t].on else t in d0.agg)
  }

  ghost predicate BitProgress(v: seq<Slot>, n: nat, d0: Derived, d: Derived, b: KernelBit)
    requires |v| == TYPE_COUNT
  {
    || (b in d.ker <==> EffectOn(v, BitEffect(b)))
    || ((b in d.ker <==> b in d0.ker) && forall t: TypeId :: t < n ==> v[t].effect != BitEffect(b))
  }

  ghost predicate OverrideProgress(v: seq<Slot>, n: nat, d0: Derived, d: Derived, o: Setting)
    requires |v| == TYPE_COUNT
  {
    || (o in d.overrides <==> EffectOn(v, SettingEffect(o)))
    || ((o in d.overrides <==> o in d0.overrides)
        && forall t: TypeId :: t < n && v[t].effect == SettingEffect(o) ==>
             (t in d0.agg <==> EffectOn(v, SettingEffect(o))))
  }

  lemma {:induction false} EvalAllAgg(v: seq<Slot>, n: nat, d0: Derived, t: TypeId)
    requires Configured(v) && n <= TYPE_COUNT
    requires v[t].handler != OtherHandler && v[t].effect == NoEffect ==> t !in d0.agg
    ensures AggProgress(v, n, d0, EvalAll(v, n, d0), t)
  {
    if n > 0 {
      EvalAllAgg(v, n - 1, d0, t);
      assert SlotFits(n - 1, v[n - 1]);
    }
  }

  lemma {:induction false} EvalAllBit(v: seq<Slot>, n: nat, d0: Derived, b: KernelBit)
    requires Configured(v) && n <= TYPE_COUNT
    ensures BitProgress(v, n, d0, EvalAll(v, n, d0), b)
  {
    if n > 0 {
      EvalAllBit(v, n - 1, d0, b);
      assert SlotFits(n - 1, v[n - 1]);
    }
  }

  lemma {:induction false} EvalAllOverride(v: seq<Slot>, n: nat, d0: Derived, o: Setting)
    requires Configured(v) && n <= TYPE_COUNT
    requires forall t: TypeId :: v[t].handler != OtherHandler && v[t].effect == NoEffect ==> t !in d0.agg
    ensures OverrideProgress(v, n, d0, EvalAll(v, n, d0), o)
  {
    if n > 0 {
      var k: TypeId := n - 1;
      EvalAllOverride(v, k, d0, o);
      EvalAllAgg(v, k, d0, k);
      assert SlotFits(k, v[k]);
    }
  }

  /** A power-source change may switch any set of types at once; one evaluation round repairs the mirror,
      although each handler compares only with its own aggregate bit. */
  lemma EvalAllRestoresMirror(v0: seq<Slot>, v: seq<Slot>, d: Derived)
    requires Configured(v0) && Mirrored(v0, d) && Configured(v)
    requires forall t: TypeId :: v[t].effect == v0[t].effect && v[t].handler == v0[t].handler
    ensures Mirrored(v, EvalAll(v, TYPE_COUNT, d))
  {
    var d' := EvalAll(v, TYPE_COUNT, d);
    forall t: TypeId ensures v[t].handler != OtherHandler ==> (t in d'.agg <==> v[t].effect != NoEffect && v[t].on) {
      EvalAllAgg(v, TYPE_COUNT, d, t);
    }
    forall b: KernelBit ensures b in d'.ker <==> EffectOn(v, BitEffect(b)) {
      EvalAllBit(v, TYPE_COUNT, d, b);
      if EffectOn(v, BitEffect(b)) {
        var t :| 0 <= t < |v| && v[t].effect == BitEffect(b) && v[t].on;
      }
      if EffectOn(v0, BitEffect(b)) {
        var t :| 0 <= t < |v0| && v0[t].effect == BitEffect(b) && v0[t].on;
        assert v[t].effect == BitEffect(b);
      }
    }
    forall o: Setting ensures o in d'.overrides <==> EffectOn(v, SettingEffect(o)) {
      EvalAllOverride(v, TYPE_COUNT, d, o);
      if EffectOn(v, SettingEffect(o)) {
        var t :| 0 <= t < |v| && v[t].effect == SettingEffect(o) && v[t].on;
        assert SlotFits(t, v[t]) && SlotFits(t, v0[t]);
        assert t in d.agg <==> v0[t].on;
      }
      if EffectOn(v0, SettingEffect(o)) {
        var t :| 0 <= t < |v0| && v0[t].effect == SettingEffect(o) && v0[t].on;
        assert SlotFits(t, v[t]) && SlotFits(t, v0[t]);
        assert t in d.agg;
      }
    }
  }
}
