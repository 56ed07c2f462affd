/**
 The power-assertion engine of pmconfigd/PMAssertions.c: the id table, the four lists of
 every assertion type, the per-type timers and counters, and the derived state sent on.

 `limbo` names assertions that are unlinked in the middle of an operation, `exact` the types
 whose valid-on-battery counter is exact.
 */
module AssertionEngine {
  import opened Common
  import opened EffectMirror
  import opened AssertionLists

  class Engine {
    var table: Table
    var types: Types
    var ker: set<KernelBit>
    var overrides: set<Setting>
    var agg: set<TypeId>
    var now: nat
    var onBatt: bool
    var nextIndex: nat
    var suspendedPids: set<Pid>
    var proxy: Option<Index>
    var displayTimer: nat
    var idleTimer: nat
    var pushAlias: TypeId
    var interactiveAlias: TypeId
    var backgroundDisabled: bool
    const powerd: Pid
    ghost var suspending: set<Pid>
    ghost var limbo: set<Index>
    ghost var exact: set<TypeId>

    ghost predicate Sound()
      reads `table, `types, `limbo, `exact
    {
      |types| == TYPE_COUNT && SoundAt(table, types, limbo, exact)
    }

    /** Every type but `x` is watched by its timer; no exception when `x` is no type. */
    ghost predicate Timers(x: int)
      reads `table, `types, `now
    {
      TimersAt(table, types, now, x)
    }

    /** A configured engine with no assertion yet. */
    constructor (powerd: Pid, types: Types, now: nat, onBatt: bool, displayTimer: nat, idleTimer: nat,
                 pushAlias: TypeId, interactiveAlias: TypeId, backgroundDisabled: bool)
      requires ConfigOK(types) && forall t: TypeId :: Unused(types[t])
      ensures Inv() && table == map[] && this.types == types && this.powerd == powerd && this.onBatt == onBatt
      ensures exact == BATTERY_TYPES && proxy.None? && suspendedPids == {} && this.now == now
      ensures this.displayTimer == displayTimer && this.idleTimer == idleTimer
                && this.backgroundDisabled == backgroundDisabled
      ensures this.pushAlias == pushAlias && this.interactiveAlias == interactiveAlias
      ensures nextIndex == 0 && DerivedState() == Derived({}, {}, {})
    {
      this.table, this.types, ker, overrides, agg := map[], types, {}, {}, {};
      this.now, this.onBatt, nextIndex, suspendedPids, proxy := now, onBatt, 0, {}, None;
      this.displayTimer, this.idleTimer, this.pushAlias, this.interactiveAlias :=
          displayTimer, idleTimer, pushAlias, interactiveAlias;
      this.backgroundDisabled, this.powerd := backgroundDisabled, powerd;
      suspending, limbo, exact := {}, {}, BATTERY_TYPES;
      new;
      hide Base, ConfigOK, Unused;
      Started(this);
    }

    static lemma Started(e: Engine)
      requires ConfigOK(e.types) && forall t: TypeId :: Unused(e.types[t])
      requires e.table == map[] && e.limbo == {} && e.suspending == {} && e.suspendedPids == {} && e.proxy.None?
      requires e.ker == {} && e.overrides == {} && e.agg == {} && e.exact == BATTERY_TYPES && e.nextIndex == 0
      ensures e.Inv()
    {
      hide SoundAt, TimersAt, DerivesAt, HouseAt, ViewOf, ConfigOK, Unused;
      UnusedIsSound(e.types, e.now, e.onBatt);
      NoHouse(e.powerd);
      assert e.suspendedPids + e.suspending == {};
    }

    // ---- list primitives ---------------------------------------------------------------

    /** LIST_REMOVE on its own, for an assertion that its type does not count. */
    method ListRemove(i: Index, k: TypeId)
      requires Sound() && i in table && i !in limbo && table[i].kassert == k
      requires k !in exact || PlaceOf(table[i]) in {Inactive, Suspended}
      modifies `types, `limbo
      ensures Sound() && limbo == old(limbo) + {i}
      ensures types == old(types)[k := old(types)[k].Unlinked(i)]
      ensures old(Timers(k)) ==> Timers(k)
      ensures !table[i].timed && old(Timers(-1)) ==> Timers(-1)
    {
      hide SoundAt, TimersAt, TimerOK;
      var r := types[k].Unlinked(i);
      InItsList(table, types, limbo, exact, i);
      UnlinkSound(table, types, limbo, exact, exact, i, table[i], r);
      TimersFrame(table, types, limbo, exact, table, types[k := r], now, k, i);
      assert table[i := table[i]] == table;
      types := types[k := r];
      limbo := limbo + {i};
    }

    method InsertInactive(i: Index, k: TypeId)
      requires Sound() && i in table && i in limbo && table[i].kassert == k && !table[i].suspended
      modifies `table, `types, `limbo
      ensures Sound() && limbo == old(limbo) - {i}
      ensures table == old(table)[i := old(table)[i].(timed := false, inactive := true)]
      ensures types == old(types)[k := old(types)[k].(inactive := [i] + old(types)[k].inactive)]
      ensures old(Timers(k)) ==> Timers(k)
      ensures old(Timers(-1)) ==> Timers(-1)
    {
      hide SoundAt, TimersAt, TimerOK;
      var a := table[i].(timed := false, inactive := true);
      var r := types[k].(inactive := [i] + types[k].inactive);
      LinkSound(table, types, limbo, exact, i, a, r);
      TimersFrame(table, types, limbo, exact, table[i := a], types[k := r], now, k, i);
      types := types[k := r];
      table := table[i := a];
      limbo := limbo - {i};
    }

    method RemoveInactive(i: Index, k: TypeId)
      requires Sound() && i in table && i !in limbo && table[i].kassert == k && table[i].inactive
      modifies `table, `types, `limbo
      ensures Sound() && limbo == old(limbo) + {i}
      ensures table == old(table)[i := old(table)[i].(inactive := false)]
      ensures types == old(types)[k := old(types)[k].Unlinked(i)]
      ensures old(Timers(k)) ==> Timers(k)
      ensures old(Timers(-1)) ==> Timers(-1)
    {
      hide SoundAt, TimersAt, TimerOK;
      InItsList(table, types, limbo, exact, i);
      ListRemove(i, k);
      var a := table[i].(inactive := false);
      RewriteSound(table, types, limbo, exact, i, a);
      TimersFrame(table, types, limbo, exact, table[i := a], types, now, k, i);
      table := table[i := a];
    }

    method InsertActive(i: Index, k: TypeId)
      requires Sound() && i in table && i in limbo && table[i].kassert == k && !table[i].suspended
      modifies `table, `types, `limbo, `exact
      ensures Sound() && limbo == old(limbo) - {i}
      ensures exact == if Uncounted(old(types)[k], old(table)[i]) then old(exact) - {k} else old(exact)
      ensures table == old(table)[i := old(table)[i].(timed := false, inactive := false)]
      ensures types == old(types)[k := old(types)[k].(active := [i] + old(types)[k].active).MoreValid(table[i])]
      ensures old(Timers(k)) ==> Timers(k)
      ensures old(Timers(-1)) ==> Timers(-1)
    {
      hide SoundAt, TimersAt, TimerOK;
      ghost var table0, types0, limbo0 := table, types, limbo;
      types := types[k := types[k].(active := [i] + types[k].active)];
      table := table[i := table[i].(timed := false, inactive := false)];
      limbo := limbo - {i};
      types := types[k := types[k].MoreValid(table[i])];
      SoundFewer(table0, types0, limbo0, exact, exact - {k});
      exact := if Uncounted(types0[k], table[i]) then exact - {k} else exact;
      LinkSound(table0, types0, limbo0, exact, i, table[i], types[k]);
      TimersFrame(table0, types0, limbo0, exact, table, types, now, k, i);
    }

    /** The code takes any assertion that is neither timed nor inactive for an active one.
        A suspended one that still carries the flag is then counted down a second time. */
    method RemoveActive(i: Index, k: TypeId)
      requires Sound() && i in table && i !in limbo && table[i].kassert == k
      requires PlaceOf(table[i]) in {Active, Suspended}
      modifies `types, `limbo, `exact
      ensures Sound() && limbo == old(limbo) + {i}
      ensures types == old(types)[k := old(types)[k].Unlinked(i).LessValid(table[i])]
      ensures exact == if table[i].suspended && table[i].validOnBatt && old(types)[k].validCnt > 0 then old(exact) - {k}
                else old(exact)
      ensures old(Timers(k)) ==> Timers(k)
      ensures old(Timers(-1)) ==> Timers(-1)
    {
      hide SoundAt, TimersAt, TimerOK, Without;
      ghost var types0, limbo0, exact0 := types, limbo, exact;
      if table[i].suspended && table[i].validOnBatt && types[k].validCnt > 0 {
        exact := exact - {k};
      }
      types := types[k := types[k].Unlinked(i)];
      limbo := limbo + {i};
      types := types[k := types[k].LessValid(table[i])];
      assert table[i := table[i]] == table;
      InItsList(table, types0, limbo0, exact0, i);
      CountedIsCounted(table, types0, limbo0, exact0, i);
      UnlinkSound(table, types0, limbo0, exact0, exact, i, table[i], types[k]);
      TimersFrame(table, types0, limbo0, exact0, table, types, now, k, i);
    }

    // ---- timers ------------------------------------------------------------------------

    method ResetAssertionTimer(k: TypeId)
      requires Sound() && Timers(k)
      requires types[k].timed != [] ==> types[k].timer.created
      modifies `types
      ensures Sound() && Timers(-1)
      ensures types[k].timed != [] ==> types[k].timed[0] in table
      ensures types == old(types)[k := Rearmed(table, old(types)[k], now)]
    {
      hide SoundAt, TimersAt;
      SoundFacts(table, types, limbo, exact, MAX_ASSERTIONS);
      RetypeSound(table, types, limbo, exact, k, Rearmed(table, types[k], now));
      TimersFrame(table, types, limbo, exact, table, types[k := Rearmed(table, types[k], now)], now, k, MAX_ASSERTIONS);
      if types[k].timed == [] {
        assert types[k := types[k]] == types;
        return;
      }
      var first := types[k].timed[0];
      if table[first].timeout <= now {
        types := types[k := types[k].(timer := types[k].timer.(runs := types[k].timer.runs + 1))];
      } else {
        types := types[k := types[k].(timer := types[k].timer.(armed := Some(table[first].timeout)))];
      }
    }

    method UpdateAssertionTimer(k: TypeId)
      requires Sound() && Timers(k)
      modifies `types
      ensures Sound() && Timers(-1)
      ensures types[k].timed != [] ==> types[k].timed[0] in table
      ensures types == old(types)[k := var r := old(types)[k];
                if r.timed == [] then r else Rearmed(table, r.(timer := r.timer.(created := true)), now)]
    {
      hide SoundAt, TimersAt;
      SoundFacts(table, types, limbo, exact, MAX_ASSERTIONS);
      if types[k].timed == [] {
        assert types[k := types[k]] == types;
        TimersFrame(table, types, limbo, exact, table, types, now, k, MAX_ASSERTIONS);
        return;
      }
      var r := types[k].(timer := types[k].timer.(created := true));
      RetypeSound(table, types, limbo, exact, k, r);
      TimersFrame(table, types, limbo, exact, table, types[k := r], now, k, MAX_ASSERTIONS);
      types := types[k := r];
      ResetAssertionTimer(k);
    }

    /** Link into the timed list before the first later deadline; the counter is the caller's. */
    method InsertByTimeout(i: Index, k: TypeId)
      requires Sound() && i in table && i in limbo && table[i].kassert == k
      requires table[i].timed && !table[i].inactive && !table[i].suspended
      modifies `types, `limbo
      ensures |types| == TYPE_COUNT && limbo == old(limbo) - {i}
      ensures forall j :: j in old(types)[k].timed ==> j in table
      ensures types == old(types)[k := old(types)[k].(timed := SortedInsert(table, old(types)[k].timed, i,
                table[i].timeout))]
      ensures (k in exact ==> !table[i].validOnBatt) ==> Sound()
    {
      hide SoundAt, TimersAt;
      SoundFacts(table, types, limbo, exact, MAX_ASSERTIONS);
      var l := types[k].timed;
      var x := 0;
      while x < |l| && table[l[x]].timeout <= table[i].timeout
        invariant x <= |l|
        invariant forall y :: 0 <= y < x ==> table[l[y]].timeout <= table[i].timeout
      {
        x := x + 1;
      }
      SortedInsertAt(table, l, i, table[i].timeout, x);
      var r := types[k].(timed := l[..x] + [i] + l[x..]);
      assert table[i := table[i]] == table;
      if k in exact ==> !table[i].validOnBatt {
        LinkSound(table, types, limbo, exact, i, table[i], r);
      }
      types := types[k := r];
      limbo := limbo - {i};
    }

    method InsertTimed(i: Index, k: TypeId, updateTimer: bool)
      requires Sound() && i in table && i in limbo && table[i].kassert == k && !table[i].suspended && !table[i].inactive
      requires Timers(if updateTimer then -1 else k)
      modifies `table, `types, `limbo, `exact
      ensures Sound() && limbo == old(limbo) - {i}
      ensures exact == if Uncounted(old(types)[k], old(table)[i]) then old(exact) - {k} else old(exact)
      ensures table == old(table)[i := old(table)[i].(timed := true)]
      ensures Timers(if updateTimer then -1 else k)
      ensures types == old(types)[k := types[k]]
      ensures forall j :: j in old(types)[k].timed ==> j in table
      ensures var r := old(types)[k];
              types[k] == r.(timed := SortedInsert(table, r.timed, i,
                  table[i].timeout)).MoreValid(table[i]).(timer := types[k].timer)
      ensures !updateTimer ==> types[k].timer == old(types)[k].timer
    {
      hide SoundAt, TimersAt, SortedInsert;
      ghost var table0, types0, limbo0 := table, types, limbo;
      RewriteSound(table, types, limbo, exact, i, table[i].(timed := true));
      table := table[i := table[i].(timed := true)];
      ghost var table1 := table;
      SoundFewer(table0, types, limbo, exact, exact - {k});
      SoundFewer(table, types, limbo, exact, exact - {k});
      exact := if Uncounted(types[k], table[i]) then exact - {k} else exact;
      InsertByTimeout(i, k);
      types := types[k := types[k].MoreValid(table[i])];
      assert table1[i := table1[i]] == table1;
      LinkSound(table1, types0, limbo0, exact, i, table[i], types[k]);
      InsertTimers(table0, types0, limbo0, exact, table, types, now, k, i, if updateTimer then -1 else k);
      SortedInsertFirst(table, types0[k].timed, i, table[i].timeout);
      if types[k].timed[0] != i { return; }
      if updateTimer {
        UpdateAssertionTimer(k);
      }
    }

    method RemoveTimed(i: Index, k: TypeId, updateTimer: bool)
      requires Sound() && i in table && i !in limbo && table[i].kassert == k && table[i].timed
      requires Timers(if updateTimer then -1 else k)
      modifies `table, `types, `limbo
      ensures Sound() && limbo == old(limbo) + {i}
      ensures table == old(table)[i := old(table)[i].(timed := false)]
      ensures Timers(if updateTimer then -1 else k)
      ensures types == old(types)[k := types[k]]
      ensures types[k] == old(types)[k].Unlinked(i).LessValid(table[i]).(timer := types[k].timer)
      ensures !updateTimer ==> types[k].timer == old(types)[k].timer
    {
      hide SoundAt, TimersAt, Without;
      ghost var table0, types0, limbo0 := table, types, limbo;
      InItsList(table, types, limbo, exact, i);
      var isFirst := types[k].timed[0] == i;
      types := types[k := types[k].Unlinked(i)];
      limbo := limbo + {i};
      table := table[i := table[i].(timed := false)];
      types := types[k := types[k].LessValid(table[i])];
      CountedIsCounted(table0, types0, limbo0, exact, i);
      UnlinkSound(table0, types0, limbo0, exact, exact, i, table[i], types[k]);
      RemoveTimers(table0, types0, limbo0, exact, table, types, now, k, i, if updateTimer then -1 else k);
      if isFirst && updateTimer {
        ResetAssertionTimer(k);
      }
    }

    // ---- handlers ----------------------------------------------------------------------

    ghost function DerivedState(): Derived
      reads `ker, `overrides, `agg
    {
      Derived(ker, overrides, agg)
    }

    ghost function View(): seq<Slot>
      reads `types, `onBatt
    {
      ViewOf(types, onBatt)
    }

    /** The derived state is up to date, except for type `p` when it is one. */
    ghost predicate Derives(p: int)
      reads `types, `onBatt, `ker, `overrides, `agg
    {
      DerivesAt(types, onBatt, DerivedState(), p)
    }

    /** Walks the types linked to the effect of `k`. */
    method CheckForActives(k: TypeId) returns (anyActive: bool, thisActive: bool)
      requires |types| == TYPE_COUNT && forall t: TypeId :: types[t].linked || t == k
      ensures anyActive == EffectOn(View(), types[k].effect)
      ensures thisActive == (types[k].effect != NoEffect && View()[k].on)
    {
      anyActive, thisActive := false, false;
      if types[k].effect == NoEffect { return; }
      ghost var e := types[k].effect;
      for t := 0 to TYPE_COUNT
        invariant !thisActive && (k < t ==> !View()[k].on)
        invariant anyActive <==> exists u :: 0 <= u < t && View()[u].effect == e && View()[u].on
      {
        if types[t].linked && types[t].effect == types[k].effect {
          var typeActive := types[t].IsOn(onBatt);
          assert View()[t].on == typeActive;
          anyActive := anyActive || typeActive;
          if t == k && typeActive {
            thisActive := true;
            return;
          }
        }
      }
    }

    method SetKernelAssertions(k: TypeId, op: Op)
      requires |types| == TYPE_COUNT && forall t: TypeId :: types[t].linked || t == k
      modifies `ker, `agg
      ensures DerivedState() == Handle(View(), k, Handler.SetKernelAssertions, op, old(DerivedState()))
    {
      if types[k].effect == NoEffect { return; }
      var activeExists, activesForTheType := CheckForActives(k);
      var bit := KernelBitOf(k);
      if bit.None? { return; }
      agg := if activesForTheType then agg + {k} else agg - {k};
      match op {
        case Raise => if bit.value in ker || !activeExists { return; }
        case Release => if bit.value !in ker || activeExists { return; }
        case Eval =>
          if activeExists && bit.value in ker { return; }
          if !activeExists && bit.value !in ker { return; }
      }
      if activeExists {
        ker := ker + {bit.value};
      } else {
        ker := ker - {bit.value};
      }
    }

    method ModifySettings(k: TypeId, op: Op)
      requires |types| == TYPE_COUNT && forall t: TypeId :: types[t].linked || t == k
      modifies `overrides, `agg
      ensures DerivedState() == Handle(View(), k, Handler.ModifySettings, op, old(DerivedState()))
    {
      if types[k].effect == NoEffect { return; }
      var assertionLevel := k in agg;
      var activeExists, activesForTheType := CheckForActives(k);
      agg := if activesForTheType then agg + {k} else agg - {k};
      var opVal := activeExists;
      match op {
        case Raise => if assertionLevel || !activeExists { return; }
        case Release => if !assertionLevel || activeExists { return; }
        case Eval => if activeExists == assertionLevel { return; }
      }
      var setting := SettingOf(k);
      if setting.None? { return; }
      overrides := if opVal then overrides + {setting.value} else overrides - {setting.value};
    }

    method CallHandler(k: TypeId, h: Handler, op: Op)
      requires |types| == TYPE_COUNT && forall t: TypeId :: types[t].linked || t == k
      modifies `ker, `overrides, `agg
      ensures DerivedState() == Handle(View(), k, h, op, old(DerivedState()))
    {
      match h {
        case SetKernelAssertions => SetKernelAssertions(k, op);
        case ModifySettings => ModifySettings(k, op);
        case OtherHandler =>
      }
    }

    /** The handler of `k` run when `k` is the type that changed since `types0`. */
    method RunHandler(k: TypeId, op: Op, ghost types0: Types, ghost p: int)
      requires Sound() && HandlerReady(types0, types, onBatt, DerivedState(), k, op, p)
      modifies `ker, `overrides, `agg
      ensures Derives(p)
      ensures forall t: TypeId :: t != k ==> (t in agg <==> t in old(agg))
    {
      forall t: TypeId ensures types[t].linked { assert TypeOK(t, types[t]); }
      AfterHandler(types0, types, onBatt, DerivedState(), k, op, p);
      CallHandler(k, types[k].handler, op);
    }

    function Resolve(name: TypeName): TypeId
      reads `pushAlias, `interactiveAlias
    {
      match name
      case Fixed(t) => t
      case ApplePushServiceTask => pushAlias
      case InteractivePushServiceTask => interactiveAlias
    }

    /** Fill in and link an assertion by its properties; true when it is live and its handler has to run. */
    method PlaceRaised(i: Index, k: TypeId, age: nat) returns (live: bool)
      requires Sound() && Timers(-1) && i in table && i in limbo && age <= now
      requires !table[i].suspended && !table[i].inactive && !table[i].timed
      modifies `table, `types, `limbo, `exact
      ensures Sound() && Timers(-1) && limbo == old(limbo) - {i} && live == !old(table)[i].level.Off?
      ensures exact == if live && Uncounted(old(types)[k], old(table)[i]) then old(exact) - {k} else old(exact)
      ensures live && Uncounted(old(types)[k], old(table)[i]) ==> types[k].validCnt == old(types)[k].validCnt
      ensures table == old(table)[i := Raised(old(types)[k], old(table)[i], k, now - age)]
      ensures types == old(types)[k := types[k]] && SameConfig(old(types)[k], types[k])
      ensures if live then (types[k].active != [] || types[k].timed != [])
                && (old(types)[k].IsOn(onBatt) ==> types[k].IsOn(onBatt))
              else types[k].IsOn(onBatt) == old(types)[k].IsOn(onBatt)
    {
      hide SoundAt, TimersAt, EffectiveTimeout, Raised, Uncounted;
      RaisedParts(types[k], table[i], k, now - age);
      ghost var r0, a0 := types[k], table[i];
      var a := table[i].(kassert := k, createTime := now - age);
      live := !a.level.Off?;
      if !live {
        PlaceInactive(i, k, a);
        return;
      }
      if types[k].notValidOnBatt && a.limitedPower {
        a := a.(validOnBatt := true);
      }
      if a.onBehalfOf.Some? {
        a := a.(causing := a.onBehalfOf.value);
      }
      var timeout := EffectiveTimeout(types[k], a.askedTimeout);
      if timeout != 0.0 {
        a := a.(timeout := timeout.Floor + a.createTime);
      }
      FlagKeepsCount(r0, a0, a);
      PlaceLive(i, k, a, timeout != 0.0);
    }

    /** The record goes to the inactive list. */
    method PlaceInactive(i: Index, k: TypeId, a: Assertion)
      requires Sound() && Timers(-1) && i in table && i in limbo && a.kassert == k && !a.suspended && !a.timed
      modifies `table, `types, `limbo
      ensures Sound() && Timers(-1) && limbo == old(limbo) - {i}
      ensures table == old(table)[i := a.(inactive := true)]
      ensures types == old(types)[k := types[k]] && SameConfig(old(types)[k], types[k])
      ensures types[k].IsOn(onBatt) == old(types)[k].IsOn(onBatt)
    {
      hide SoundAt, TimersAt;
      ghost var table0 := table;
      UpdateInLimbo(i, a);
      InsertInactive(i, k);
      UpdateTwice(table0, i, a, table[i]);
    }

    /** The record goes to the timed or to the active list. */
    method PlaceLive(i: Index, k: TypeId, a: Assertion, timed: bool)
      requires Sound() && Timers(-1) && i in table && i in limbo && a.kassert == k
      requires !a.suspended && !a.inactive && !a.timed
      modifies `table, `types, `limbo, `exact
      ensures Sound() && Timers(-1) && limbo == old(limbo) - {i}
      ensures exact == if Uncounted(old(types)[k], a) then old(exact) - {k} else old(exact)
      ensures Uncounted(old(types)[k], a) ==> types[k].validCnt == old(types)[k].validCnt
      ensures table == old(table)[i := a.(timed := timed)]
      ensures types == old(types)[k := types[k]] && SameConfig(old(types)[k], types[k])
      ensures types[k].active != [] || types[k].timed != []
      ensures old(types)[k].IsOn(onBatt) ==> types[k].IsOn(onBatt)
    {
      hide SoundAt, TimersAt, SameConfig;
      ghost var table0 := table;
      UpdateInLimbo(i, a);
      LinkLive(i, k, timed);
      UpdateTwice(table0, i, a, table[i]);
    }

    /** Link an assertion by its properties and run the raise handler of its type.
        Type `p`, if it is one, is pending in the caller. */
    method RaiseAssertion(i: Index, age: nat, ghost p: int)
      requires Sound() && Timers(-1) && i in table && i in limbo && age <= now
      requires !table[i].suspended && !table[i].inactive && !table[i].timed
      requires -1 <= p < TYPE_COUNT && Derives(p)
      requires p >= 0 ==>
                 p != INT_PREVENT_DISPLAY_SLEEP && Resolve(table[i].name) == INT_PREVENT_DISPLAY_SLEEP
                 && !table[i].level.Off?
      modifies `table, `types, `limbo, `exact, `ker, `overrides, `agg
      ensures Sound() && Timers(-1) && Derives(p) && limbo == old(limbo) - {i}
      ensures i in table
      ensures exact == var a := old(table)[i]; var k := Resolve(a.name);
                       if !a.level.Off? && Uncounted(old(types)[k], a) then old(exact) - {k} else old(exact)
      ensures var a := old(table)[i]; var k := Resolve(a.name);
              !a.level.Off? && Uncounted(old(types)[k], a) ==> types[k].validCnt == old(types)[k].validCnt
      ensures var k := Resolve(old(table)[i].name);
              && table == old(table)[i := Raised(old(types)[k], old(table)[i], k, now - age)]
              && types == old(types)[k := types[k]] && SameConfig(old(types)[k], types[k])
              && (forall t: TypeId :: t != k ==> (t in agg <==> t in old(agg)))
    {
      hide SoundAt, TimersAt, DerivesAt, ConfigOK, HandlerReady, NoDup, Sorted, Raised;
      var k := Resolve(table[i].name);
      ghost var types0 := types;
      SoundConfig(table, types, limbo, exact);
      var live := PlaceRaised(i, k, age);
      SoundConfig(table, types, limbo, exact);
      if !live {
        SameActivity(types0, types, onBatt, DerivedState(), p);
        return;
      }
      if p >= 0 {
        ProxyReady(types0, types, onBatt, DerivedState(), Raise, p);
      } else {
        MirrorDirects(types0, types, onBatt, DerivedState(), k, Raise);
      }
      RunHandler(k, Raise, types0, p);
    }

    /** Link as timed or as active, whichever applies. */
    method LinkLive(i: Index, k: TypeId, timed: bool)
      requires Sound() && Timers(-1) && i in table && i in limbo && table[i].kassert == k
      requires !table[i].suspended && !table[i].inactive && !table[i].timed
      modifies `table, `types, `limbo, `exact
      ensures Sound() && Timers(-1) && limbo == old(limbo) - {i}
      ensures exact == if Uncounted(old(types)[k], old(table)[i]) then old(exact) - {k} else old(exact)
      ensures types[k].validCnt == old(types)[k].MoreValid(old(table)[i]).validCnt
      ensures table == old(table)[i := old(table)[i].(timed := timed)]
      ensures types == old(types)[k := types[k]] && SameConfig(old(types)[k], types[k])
      ensures types[k].active != [] || types[k].timed != []
      ensures types[k].suspended == old(types)[k].suspended
      ensures old(types)[k].IsOn(onBatt) ==> types[k].IsOn(onBatt)
    {
      hide SoundAt, TimersAt;
      if timed {
        InsertTimed(i, k, true);
        assert i in types[k].timed;
      } else {
        InsertActive(i, k);
      }
    }

    /** Any change to an unlinked assertion. */
    method UpdateInLimbo(i: Index, a: Assertion)
      requires Sound() && i in table && i in limbo
      modifies `table
      ensures Sound() && table == old(table)[i := a]
      ensures old(Timers(-1)) ==> Timers(-1)
      ensures old(Timers(a.kassert)) ==> Timers(a.kassert)
    {
      hide SoundAt, TimersAt;
      RewriteSound(table, types, limbo, exact, i, a);
      TimersFrame(table, types, limbo, exact, table[i := a], types, now, a.kassert, i);
      table := table[i := a];
    }

    // ---- creating ----------------------------------------------------------------------

    ghost predicate House()
      reads `table, `limbo, `suspendedPids, `suspending, `proxy, `nextIndex
    {
      HouseAt(table, limbo, suspendedPids + suspending, proxy, powerd, nextIndex)
    }

    /** What holds between the steps of an operation in which type `p`, if it is one, is pending. */
    ghost predicate Base(p: int)
      reads this
    {
      Sound() && Timers(-1) && Derives(p) && House()
    }

    /** What holds between operations. */
    ghost predicate Inv()
      reads this
    {
      Base(-1) && limbo == {} && suspending == {}
    }

    /** Circular probe from the last index handed out. */
    method ProbeIndex() returns (i: Index)
      requires nextIndex < MAX_ASSERTIONS
      ensures i < MAX_ASSERTIONS
      ensures if i in table then forall j :: 0 <= j < MAX_ASSERTIONS ==> j in table
              else FirstFree(table, nextIndex, i)
    {
      i := nextIndex;
      var n := 0;
      while i in table
        invariant n < MAX_ASSERTIONS && i == (nextIndex + n) % MAX_ASSERTIONS
        invariant forall m :: nextIndex <= m < nextIndex + n ==> m % MAX_ASSERTIONS in table
        decreases MAX_ASSERTIONS - n
      {
        assert (nextIndex + n) % MAX_ASSERTIONS in table;
        i := (i + 1) % MAX_ASSERTIONS;
        n := n + 1;
        if i == nextIndex {
          assert n == MAX_ASSERTIONS;
          forall j | 0 <= j < MAX_ASSERTIONS ensures j in table {
            var m := if j < nextIndex then j + MAX_ASSERTIONS else j;
            assert m % MAX_ASSERTIONS == j;
          }
          break;
        }
      }
      assert TakenUpTo(table, nextIndex, n);
    }

    /** A new entry in the id table, not linked yet. */
    method AddEntry(i: Index, a: Assertion)
      requires Sound() && Timers(-1) && i !in table && i < MAX_ASSERTIONS
      modifies `table, `limbo
      ensures Sound() && Timers(-1) && table == old(table)[i := a] && limbo == old(limbo) + {i} && i !in old(limbo)
    {
      hide SoundAt, TimersAt;
      SoundFacts(table, types, limbo, exact, i);
      NewEntrySound(table, types, limbo, exact, i, a);
      TimersFrame(table, types, limbo, exact, table[i := a], types, now, HIGH_PERF, i);
      table := table[i := a];
      limbo := limbo + {i};
    }

    method DoCreate(pid: Pid, q: Request, ghost p: int) returns (ret: IOReturn, id: nat)
      requires -1 <= p < TYPE_COUNT && Base(p) && q.age <= now
      requires p >= 0 ==>
                 p != INT_PREVENT_DISPLAY_SLEEP && q.name == Some(Fixed(INT_PREVENT_DISPLAY_SLEEP)) && !q.level.Off?
      modifies `table, `types, `limbo, `exact, `ker, `overrides, `agg, `nextIndex
      ensures Base(p) && limbo == old(limbo) && exact == old(exact)
      ensures ret == if pid in suspendedPids then InternalError
                     else if !HasFree(old(table)) then NoMemory
                     else if q.name.None? then BadArgument else Success
      ensures !ret.Success? ==>
                table == old(table) && types == old(types) && DerivedState() == old(DerivedState()) && id == 0
      ensures ret.InternalError? || ret.NoMemory? ==> nextIndex == old(nextIndex)
      ensures ret.Success? ==>
                FirstFree(old(table), old(nextIndex), IndexFromId(id))
                && nextIndex == (IndexFromId(id) + 1) % MAX_ASSERTIONS
      ensures ret.Success? ==>
                var i, k := IndexFromId(id), Resolve(q.name.value);
                && i !in old(table) && i < MAX_ASSERTIONS && id == IdFromIndex(i)
                && table == old(table)[i := Raised(old(types)[k], NewAssertion(pid, q.name.value, q), k, now - q.age)]
                && types == old(types)[k := types[k]] && SameConfig(old(types)[k], types[k])
                && (forall t: TypeId :: t != k ==> (t in agg <==> t in old(agg)))
    {
      hide SoundAt, TimersAt, DerivesAt, ViewOf, Handle, ConfigOK, Raised, FirstFree;
      id := 0;
      if pid in suspendedPids {
        return InternalError, 0;
      }
      var i := ProbeIndex();
      if i in table {
        return NoMemory, 0;
      }
      nextIndex := (i + 1) % MAX_ASSERTIONS;
      if q.name.None? {
        return BadArgument, 0;
      }
      CreateAt(i, pid, q, p);
      IdRoundTrip(i);
      return Success, IdFromIndex(i);
    }

    method CreateAt(i: Index, pid: Pid, q: Request, ghost p: int)
      requires -1 <= p < TYPE_COUNT && Base(p) && q.age <= now && i !in table && i < MAX_ASSERTIONS && q.name.Some?
      requires p >= 0 ==>
                 p != INT_PREVENT_DISPLAY_SLEEP && q.name == Some(Fixed(INT_PREVENT_DISPLAY_SLEEP)) && !q.level.Off?
      modifies `table, `types, `limbo, `exact, `ker, `overrides, `agg
      ensures Base(p) && limbo == old(limbo) && exact == old(exact)
      ensures var k := Resolve(q.name.value);
              && table == old(table)[i := Raised(old(types)[k], NewAssertion(pid, q.name.value, q), k, now - q.age)]
              && types == old(types)[k := types[k]] && SameConfig(old(types)[k], types[k])
              && (forall t: TypeId :: t != k ==> (t in agg <==> t in old(agg)))
    {
      hide SoundAt, TimersAt, DerivesAt, ViewOf, Handle, ConfigOK, Raised;
      ghost var table0 := table;
      var a := NewAssertion(pid, q.name.value, q);
      AddEntry(i, a);
      RaisedFacts(types[Resolve(a.name)], a, Resolve(a.name), now - q.age, powerd);
      RaiseAssertion(i, q.age, p);
      UpdateTwice(table0, i, a, table[i]);
    }

    // ---- changing properties -----------------------------------------------------------

    method ChangeLimitedPower(i: Index, k: TypeId, on: bool)
      requires Sound() && Timers(-1) && i in table && i !in limbo && table[i].kassert == k
      requires PlaceOf(table[i]) in {Timed, Active} && on != table[i].validOnBatt
      modifies `table, `types
      ensures Sound() && Timers(-1)
      ensures table == old(table)[i := old(table)[i].(validOnBatt := on)]
      ensures types == old(types)[k := types[k]]
      ensures types[k] == old(types)[k].(validCnt := types[k].validCnt)
      ensures if on then types[k].validCnt == old(types)[k].validCnt + 1
                else types[k].validCnt <= old(types)[k].validCnt
    {
      hide SoundAt, TimersAt;
      ghost var table0, types0 := table, types;
      if on {
        types := types[k := types[k].(validCnt := types[k].validCnt + 1)];
      } else if types[k].validCnt > 0 {
        types := types[k := types[k].(validCnt := types[k].validCnt - 1)];
      }
      table := table[i := table[i].(validOnBatt := on)];
      ValidBitSound(table0, types0, limbo, exact, i, table[i], types[k]);
      RewriteTimers(table0, types0, limbo, exact, table, types, now, k, i);
    }

    /** Remove from the active or the timed list, whichever it is on. */
    method RemoveLive(i: Index, k: TypeId)
      requires Sound() && Timers(-1) && i in table && i !in limbo && table[i].kassert == k
      requires PlaceOf(table[i]) in {Timed, Active}
      modifies `table, `types, `limbo, `exact
      ensures Sound() && Timers(-1) && limbo == old(limbo) + {i} && exact == old(exact)
      ensures table == old(table)[i := old(table)[i].(timed := false)]
      ensures !table[i].inactive && !table[i].suspended
      ensures types == old(types)[k := types[k]] && SameConfig(old(types)[k], types[k])
      ensures types[k].HasLive() ==> old(types)[k].HasLive()
      ensures types[k].validCnt == old(types)[k].LessValid(table[i]).validCnt
    {
      hide SoundAt, TimersAt;
      InItsList(table, types, limbo, exact, i);
      if table[i].timed {
        RemoveTimed(i, k, true);
      } else {
        assert table[i := table[i].(timed := false)] == table;
        RemoveActive(i, k);
      }
    }

    method TurnOff(i: Index, k: TypeId)
      requires Sound() && Timers(-1) && i in table && i !in limbo && table[i].kassert == k
      requires PlaceOf(table[i]) in {Timed, Active}
      modifies `table, `types, `limbo, `exact
      ensures Sound() && Timers(-1) && limbo == old(limbo) && exact == old(exact)
      ensures table == old(table)[i := old(table)[i].(timed := false, inactive := true)]
      ensures types == old(types)[k := types[k]] && SameConfig(old(types)[k], types[k])
      ensures types[k].HasLive() ==> old(types)[k].HasLive()
      ensures types[k].validCnt == old(types)[k].LessValid(table[i]).validCnt
    {
      hide SoundAt, TimersAt;
      ghost var table0 := table;
      RemoveLive(i, k);
      InsertInactive(i, k);
      assert table == table0[i := table[i]];
    }

    method SetTimeout(i: Index, k: TypeId, timeout: nat)
      requires Sound() && Timers(-1) && i in table && i !in limbo && table[i].kassert == k
      requires PlaceOf(table[i]) in {Timed, Active}
      modifies `table, `types, `limbo, `exact
      ensures Sound() && Timers(-1) && limbo == old(limbo)
      ensures exact == if Uncounted(old(types)[k], old(table)[i]) then old(exact) - {k} else old(exact)
      ensures Uncounted(old(types)[k], old(table)[i]) ==>
                types[k].validCnt == CountAfterMiss(old(types)[k], Plan.Retime)
      ensures table == old(table)[i := old(table)[i].(createTime := now, timeout := timeout, timed := timeout != 0)]
      ensures types == old(types)[k := types[k]] && SameConfig(old(types)[k], types[k])
      ensures !types[k].notValidOnBatt ==> types[k].IsOn(onBatt)
    {
      hide SoundAt, TimersAt;
      ghost var table0 := table;
      RemoveLive(i, k);
      var a := table[i].(createTime := now, timeout := timeout);
      UpdateInLimbo(i, a);
      LinkLive(i, k, timeout != 0);
      assert table == table0[i := table[i]];
    }

    /** powerd's proxy is raised for five minutes, or for the display setting when that is shorter. */
    ghost predicate HandedOff()
      reads `table, `proxy, `now, `displayTimer
    {
      && proxy.Some? && proxy.value in table && table[proxy.value].timed
      && table[proxy.value].timeout == now + 60 * (if displayTimer == 0 || displayTimer > 5 then 5 else displayTimer)
    }

    /** powerd may raise its proxy: it has it already, or there is a free index. */
    ghost predicate CanHandOff()
      reads `table, `proxy
    {
      proxy.Some? || HasFree(table)
    }

    /** Minutes powerd's proxy is asked for. */
    function ProxyMinutes(): (m: nat)
      reads `displayTimer
      ensures 1 <= m <= 5 && (displayTimer != 0 ==> m <= displayTimer)
    {
      if displayTimer != 0 then (if displayTimer > 5 then 5 else displayTimer) else 5
    }

    method CreateProxy(delay: Seconds)
      requires Base(PREVENT_DISPLAY_SLEEP) && proxy.None? && delay == (ProxyMinutes() * 60) as real
      modifies `table, `types, `limbo, `exact, `ker, `overrides, `agg, `nextIndex, `proxy
      ensures Base(PREVENT_DISPLAY_SLEEP) && limbo == old(limbo) && exact == old(exact)
      ensures types == old(types)[INT_PREVENT_DISPLAY_SLEEP := types[INT_PREVENT_DISPLAY_SLEEP]]
      ensures SameConfig(old(types)[INT_PREVENT_DISPLAY_SLEEP], types[INT_PREVENT_DISPLAY_SLEEP])
      ensures PREVENT_DISPLAY_SLEEP in agg <==> PREVENT_DISPLAY_SLEEP in old(agg)
      ensures if proxy.Some? then proxy.value in table && table == old(table)[proxy.value := table[proxy.value]]
                else table == old(table)
      ensures proxy.Some? ==> proxy.value !in old(table)
      ensures old(CanHandOff()) ==> HandedOff()
    {
      hide SoundAt, TimersAt, DerivesAt;
      assert delay.Floor == ProxyMinutes() * 60;
      SoundConfig(table, types, limbo, exact);
      assert TypeOK(INT_PREVENT_DISPLAY_SLEEP, types[INT_PREVENT_DISPLAY_SLEEP]);
      hide ConfigOK;
      ghost var table0, types0, limbo0, exact0 := table, types, limbo, exact;
      var q := Request(Some(Fixed(INT_PREVENT_DISPLAY_SLEEP)), On, delay, false, None, TimeoutAction.TurnOff, false, 0);
      var ret, id := DoCreate(powerd, q, PREVENT_DISPLAY_SLEEP);
      if ret.Success? {
        SoundFacts(table0, types0, limbo0, exact0, IndexFromId(id));
        proxy := Some(IndexFromId(id));
      }
    }

    /** Keep the display on for a while when a client stops preventing its sleep. */
    method DelayDisplayTurnOff()
      requires Base(PREVENT_DISPLAY_SLEEP)
      modifies `table, `types, `limbo, `exact, `ker, `overrides, `agg, `nextIndex, `proxy
      ensures Base(PREVENT_DISPLAY_SLEEP) && limbo == old(limbo) && exact == old(exact)
      ensures types == old(types)[INT_PREVENT_DISPLAY_SLEEP := types[INT_PREVENT_DISPLAY_SLEEP]]
      ensures SameConfig(old(types)[INT_PREVENT_DISPLAY_SLEEP], types[INT_PREVENT_DISPLAY_SLEEP])
      ensures PREVENT_DISPLAY_SLEEP in agg <==> PREVENT_DISPLAY_SLEEP in old(agg)
      ensures old(proxy).Some? ==> proxy == old(proxy)
      ensures if proxy.Some? then proxy.value in table && table == old(table)[proxy.value := table[proxy.value]]
                else table == old(table)
      ensures old(proxy).None? && proxy.Some? ==> proxy.value !in old(table)
      ensures old(CanHandOff()) ==> HandedOff()
      decreases 1, 0
    {
      hide SoundAt, TimersAt, DerivesAt, Missed, CountAfterMiss;
      var delay: Seconds := (ProxyMinutes() * 60) as real;
      if proxy.None? {
        CreateProxy(delay);
      } else {
        SoundFacts(table, types, limbo, exact, proxy.value);
        SoundConfig(table, types, limbo, exact);
        ExactIsCounted(table, types, limbo, exact, INT_PREVENT_DISPLAY_SLEEP);
        assert TypeOK(INT_PREVENT_DISPLAY_SLEEP, types[INT_PREVENT_DISPLAY_SLEEP]);
        hide ConfigOK;
        IdRoundTrip(proxy.value);
        ghost var a, props := table[proxy.value], Props(Some(On), Some(delay), None, None, None);
        NothingMissed(types, WithProps(a, props, types[INT_PREVENT_DISPLAY_SLEEP].notValidOnBatt),
            PlanFor(a.inactive, props), INT_PREVENT_DISPLAY_SLEEP, exact);
        var ret := DoSetProperties(powerd, IdFromIndex(proxy.value), Props(Some(On), Some(delay), None, None, None),
            PREVENT_DISPLAY_SLEEP);
      }
    }

    /** Property update.  A deadline and "level off" do not come together, and the limited-power
        property is given for a live assertion only. */
    method DoSetProperties(pid: Pid, id: nat, props: Props, ghost p: int) returns (ret: IOReturn)
      requires suspending == {} || p >= 0
      requires -1 <= p < TYPE_COUNT && Base(p)
      requires !(props.level == Some(Off) && props.timeout.Some?)
      requires var i := IndexFromId(id); i in table ==>
                 i !in limbo && (props.limitedPower.Some? && types[table[i].kassert].notValidOnBatt ==>
                 PlaceOf(table[i]) in {Timed, Active})
      requires proxy == Some(IndexFromId(id)) && pid == powerd ==> ProxyProps(props)
      requires p >= 0 ==>
                 p == PREVENT_DISPLAY_SLEEP && proxy == Some(IndexFromId(id)) && pid == powerd && props.timeout.Some?
                 && props.timeout.value > 0.0
      modifies `table, `types, `limbo, `exact, `ker, `overrides, `agg, `nextIndex, `proxy
      ensures Base(p) && limbo == old(limbo)
      ensures ProxyFrom(old(proxy), proxy, old(table).Keys) && AllSameConfig(old(types), types)
      ensures var i := IndexFromId(id);
              ret == if i !in old(table) then BadArgument
                     else if old(table)[i].pid != pid || pid in suspendedPids || old(table)[i].causing in suspendedPids
                         then NotPermitted
                     else Success
      ensures !ret.Success? ==>
                table == old(table) && types == old(types) && DerivedState() == old(DerivedState())
                && exact == old(exact) && proxy == old(proxy)
      ensures ret.Success? ==> exact == var a := old(table)[IndexFromId(id)];
                old(exact) - Missed(old(types), WithProps(a, props, old(types)[a.kassert].notValidOnBatt),
                    PlanFor(a.inactive, props), Resolve(a.name))
      ensures ret.Success? ==>
                var a := old(table)[IndexFromId(id)]; var plan := PlanFor(a.inactive, props);
                forall t :: t in Missed(old(types), WithProps(a, props, old(types)[a.kassert].notValidOnBatt), plan,
                    Resolve(a.name)) ==>
                  types[t].validCnt == CountAfterMiss(old(types)[t], plan)
      ensures ret.Success? ==>
                var i := IndexFromId(id); var a := old(table)[i];
                && i in table && table[i] == Updated(old(types), a, props, Resolve(a.name), now)
                && OthersKept(old(table), table, i, proxy)
                && (a.kassert != PREVENT_DISPLAY_SLEEP || pid == powerd || !PlanFor(a.inactive, props).TurnItOff? ==>
                     proxy == old(proxy) && table == old(table)[i := table[i]])
                && (forall t: TypeId :: t != a.kassert && t != Resolve(a.name) && t != INT_PREVENT_DISPLAY_SLEEP ==>
                     types[t] == old(types)[t])
                && (a.kassert == PREVENT_DISPLAY_SLEEP && pid != powerd && PlanFor(a.inactive, props).TurnItOff? ==>
                     old(CanHandOff()) ==> HandedOff())
      ensures p >= 0 ==> types == old(types)[INT_PREVENT_DISPLAY_SLEEP := types[INT_PREVENT_DISPLAY_SLEEP]]
      ensures p >= 0 ==> SameConfig(old(types)[INT_PREVENT_DISPLAY_SLEEP], types[INT_PREVENT_DISPLAY_SLEEP])
      ensures p >= 0 ==> (p in agg <==> p in old(agg))
      decreases if IndexFromId(id) in table && table[IndexFromId(id)].kassert == PREVENT_DISPLAY_SLEEP then 2 else 0, 3
    {
      hide SoundAt, TimersAt, DerivesAt, ReadyAt, ViewOf, Handle, OthersKept;
      var i := IndexFromId(id);
      if i !in table { return BadArgument; }
      if table[i].pid != pid { return NotPermitted; }
      if pid in suspendedPids { return NotPermitted; }
      if table[i].causing in suspendedPids { return NotPermitted; }
      UpdateAssertion(i, table[i].kassert, props, p);
      return Success;
    }

    /** The property walk and the branch it selects. */
    method UpdateAssertion(i: Index, k: TypeId, props: Props, ghost p: int)
      requires -1 <= p < TYPE_COUNT && Base(p) && i in table && i !in limbo && table[i].kassert == k
      requires table[i].pid !in suspendedPids + suspending && table[i].causing !in suspendedPids + suspending
      requires !(props.level == Some(Off) && props.timeout.Some?)
      requires props.limitedPower.Some? && types[k].notValidOnBatt ==> PlaceOf(table[i]) in {Timed, Active}
      requires proxy == Some(i) ==> ProxyProps(props)
      requires p >= 0 ==> p == PREVENT_DISPLAY_SLEEP && proxy == Some(i) && props.timeout.Some?
      modifies `table, `types, `limbo, `exact, `ker, `overrides, `agg, `nextIndex, `proxy
      ensures Base(p) && limbo == old(limbo)
      ensures exact == var a := old(table)[i];
                old(exact) - Missed(old(types), WithProps(a, props, old(types)[k].notValidOnBatt),
                    PlanFor(a.inactive, props), Resolve(a.name))
      ensures var a := old(table)[i]; var plan := PlanFor(a.inactive, props);
              forall t :: t in Missed(old(types), WithProps(a, props, old(types)[k].notValidOnBatt), plan,
                  Resolve(a.name)) ==>
                types[t].validCnt == CountAfterMiss(old(types)[t], plan)
      ensures ProxyFrom(old(proxy), proxy, old(table).Keys) && AllSameConfig(old(types), types)
      ensures i in table && table[i] == Updated(old(types), old(table)[i], props, Resolve(old(table)[i].name), now)
      ensures OthersKept(old(table), table, i, proxy)
      ensures k != PREVENT_DISPLAY_SLEEP || old(table)[i].pid == powerd
                || !PlanFor(old(table)[i].inactive, props).TurnItOff? ==>
                proxy == old(proxy) && table == old(table)[i := table[i]]
      ensures forall t: TypeId :: t != k && t != Resolve(old(table)[i].name) && t != INT_PREVENT_DISPLAY_SLEEP ==>
                types[t] == old(types)[t]
      ensures k == PREVENT_DISPLAY_SLEEP && old(table)[i].pid != powerd && old(CanHandOff()) ==>
                PlanFor(old(table)[i].inactive, props).TurnItOff? ==> HandedOff()
      ensures p >= 0 ==> types == old(types)[k := types[k]] && SameConfig(old(types)[k], types[k])
      ensures p >= 0 ==> (p in agg <==> p in old(agg))
      decreases if k == PREVENT_DISPLAY_SLEEP then 2 else 0, 2
    {
      hide SoundAt, TimersAt, DerivesAt, HouseAt, ReadyAt, ViewOf, Handle, ConfigOK, PlanFor, WithProps, Deadline,
           Raised, OthersKept, Missed, CountAfterMiss;
      PlanFacts(table[i].inactive, props);
      WithPropsFacts(table[i], props, types[k].notValidOnBatt, true);
      ghost var table0, types0 := table, types;
      var plan := PlanFor(table[i].inactive, props);
      var timeout := if props.timeout.Some? then Deadline(types[k], props.timeout.value, now) else table[i].timeout;
      var powerMod := ForwardProps(i, k, props, p);
      ghost var table1, types1 := table, types;
      HasFreeSame(table0, table1);
      Act(i, k, plan, timeout, powerMod, types0, p);
      ghost var k' := Resolve(table1[i].name);
      MissedSame(types0, types1, table1[i], plan, k');
      RaisedSame(types0[k'], types1[k'], table1[i].(inactive := false, timeout := timeout), k', now);
      UpdateTwice(table0, i, table1[i], table[i]);
      OthersKeptThrough(table0, table1, table, i, proxy);
    }

    method Act(i: Index, k: TypeId, plan: Plan, timeout: nat, powerMod: bool, ghost types0: Types, ghost p: int)
      requires Forwarded(i, k, types0, p)
      requires powerMod ==> p == -1 && types[k].notValidOnBatt
      requires if !powerMod then types == types0
                 else if table[i].validOnBatt then types[k].validCnt == types0[k].validCnt + 1
                 else types[k].validCnt <= types0[k].validCnt
      requires plan.TurnItOff? ==> p == -1 && PlaceOf(table[i]) in {Timed, Active} && proxy != Some(i)
      requires plan.TurnItOn? ==> table[i].inactive && !powerMod
      requires plan.Retime? || powerMod ==> PlaceOf(table[i]) in {Timed, Active}
      modifies `table, `types, `limbo, `exact, `ker, `overrides, `agg, `nextIndex, `proxy
      ensures Base(p) && limbo == old(limbo)
      ensures exact == old(exact) - Missed(old(types), old(table)[i], plan, Resolve(old(table)[i].name))
      ensures forall t :: t in Missed(old(types), old(table)[i], plan, Resolve(old(table)[i].name)) ==>
                types[t].validCnt == CountAfterMiss(old(types)[t], plan)
      ensures ProxyFrom(old(proxy), proxy, old(table).Keys) && AllSameConfig(old(types), types)
      ensures var k' := Resolve(old(table)[i].name);
                i in table && table[i] == Acted(old(types)[k'], old(table)[i], plan, timeout, k', now)
      ensures OthersKept(old(table), table, i, proxy)
      ensures k != PREVENT_DISPLAY_SLEEP || old(table)[i].pid == powerd || !plan.TurnItOff? ==>
                proxy == old(proxy) && table == old(table)[i := table[i]]
      ensures forall t: TypeId :: t != k && t != Resolve(old(table)[i].name) && t != INT_PREVENT_DISPLAY_SLEEP ==>
                types[t] == old(types)[t]
      ensures k == PREVENT_DISPLAY_SLEEP && old(table)[i].pid != powerd && plan.TurnItOff? && old(CanHandOff()) ==>
                HandedOff()
      ensures p >= 0 ==> types == old(types)[k := types[k]] && SameConfig(old(types)[k], types[k])
      ensures p >= 0 ==> (p in agg <==> p in old(agg))
      decreases if k == PREVENT_DISPLAY_SLEEP then 2 else 0, 1
    {
      hide SoundAt, TimersAt, DerivesAt, HouseAt, ReadyAt, ViewOf, Handle, ConfigOK, Raised, OthersKept;
      ghost var table0 := table;
      var op := if table[i].validOnBatt then Raise else Release;
      match plan {
        case TurnItOff => ApplyTurnOff(i, k, types0);
        case TurnItOn => ApplyTurnOn(i, k, timeout, types0, p);
        case Retime =>
          ApplyTimeout(i, k, timeout, types0, p);
          if powerMod {
            Reevaluate(k, op);
          }
        case Keep =>
          if powerMod {
            SoundConfig(table, types, limbo, exact);
            BecomesReady(types0, types, onBatt, DerivedState(), k, op);
            FinishHandler(k, op);
          }
      }
      if !plan.TurnItOff? {
        OthersKeptAfter(table0, i, table[i], table, proxy);
      }
    }

    /** Write the new properties; true when the limited-power flag of the assertion changed. */
    method ForwardProps(i: Index, k: TypeId, props: Props, ghost p: int) returns (powerMod: bool)
      requires -1 <= p < TYPE_COUNT && Base(p) && i in table && i !in limbo && table[i].kassert == k
      requires table[i].pid !in suspendedPids + suspending && table[i].causing !in suspendedPids + suspending
      requires proxy == Some(i) ==> ProxyProps(props)
      requires p >= 0 ==> p == PREVENT_DISPLAY_SLEEP && proxy == Some(i) && props.timeout.Some?
      requires props.limitedPower.Some? && types[k].notValidOnBatt ==> PlaceOf(table[i]) in {Timed, Active}
      modifies `table, `types
      ensures Forwarded(i, k, old(types), p)
      ensures table == old(table)[i := WithProps(old(table)[i], props, types[k].notValidOnBatt)]
      ensures powerMod ==> p == -1 && types[k].notValidOnBatt && props.limitedPower.Some?
      ensures if !powerMod then types == old(types)
              else if table[i].validOnBatt then types[k].validCnt == old(types)[k].validCnt + 1
              else types[k].validCnt <= old(types)[k].validCnt
    {
      hide SoundAt, TimersAt, DerivesAt, Handle, ViewOf;
      SoundConfig(table, types, limbo, exact);
      InItsList(table, types, limbo, exact, i);
      assert TypeOK(k, types[k]);
      ghost var table0 := table;
      powerMod := WriteProps(i, k, props);
      HouseStep(table0, table, limbo, suspendedPids + suspending, proxy, powerd, nextIndex, i);
      assert types == old(types)[k := types[k]];
    }

    method WriteProps(i: Index, k: TypeId, props: Props) returns (powerMod: bool)
      requires Sound() && Timers(-1) && i in table && i !in limbo && table[i].kassert == k
      requires props.limitedPower.Some? && types[k].notValidOnBatt ==> PlaceOf(table[i]) in {Timed, Active}
      modifies `table, `types
      ensures Sound() && Timers(-1) && types == old(types)[k := types[k]]
      ensures table == old(table)[i := WithProps(old(table)[i], props, types[k].notValidOnBatt)]
      ensures types[k] == old(types)[k].(validCnt := types[k].validCnt)
      ensures powerMod ==> types[k].notValidOnBatt && props.limitedPower.Some?
      ensures if !powerMod then types == old(types)
              else if table[i].validOnBatt then types[k].validCnt == old(types)[k].validCnt + 1
              else types[k].validCnt <= old(types)[k].validCnt
    {
      hide SoundAt, TimersAt, WithProps;
      ghost var table0 := table;
      WithPropsFacts(table[i], props, types[k].notValidOnBatt, true);
      WithPropsFacts(table[i], props, types[k].notValidOnBatt, false);
      powerMod := false;
      if props.limitedPower.Some? && types[k].notValidOnBatt {
        if props.limitedPower.value != table[i].validOnBatt {
          ChangeLimitedPower(i, k, props.limitedPower.value);
          powerMod := true;
        }
      }
      var a := WithProps(table[i], props, types[k].notValidOnBatt);
      assert a == WithProps(table0[i], props, types[k].notValidOnBatt);
      WithPropsFacts(table[i], props, types[k].notValidOnBatt, true);
      RewriteSound(table, types, limbo, exact, i, a);
      RewriteTimers(table, types, limbo, exact, table[i := a], types, now, k, i);
      UpdateTwice(table0, i, table[i], a);
      table := table[i := a];
    }

    /** What the branches of a property update start from. */
    ghost predicate Forwarded(i: Index, k: TypeId, types0: Types, p: int)
      reads this
    {
      && Sound() && Timers(-1) && House() && i in table && i !in limbo && table[i].kassert == k && OneBit(table[i])
      && !table[i].suspended && -1 <= p < TYPE_COUNT
      && |types0| == TYPE_COUNT && ConfigOK(types0) && DerivesAt(types0, onBatt, DerivedState(), p)
      && types == types0[k := types[k]] && types[k] == types0[k].(validCnt := types[k].validCnt)
      && (p >= 0 ==>
           p == PREVENT_DISPLAY_SLEEP && k == INT_PREVENT_DISPLAY_SLEEP && table[i].name == Fixed(k)
           && table[i].level.On?)
      && (proxy == Some(i) ==> IsProxy(table[i], powerd))
    }

    method ApplyTurnOff(i: Index, k: TypeId, ghost types0: Types)
      requires Forwarded(i, k, types0, -1) && PlaceOf(table[i]) in {Timed, Active} && proxy != Some(i)
      requires types[k].LessValid(table[i]).validCnt <= types0[k].validCnt
      modifies `table, `types, `limbo, `exact, `ker, `overrides, `agg, `nextIndex, `proxy
      ensures Base(-1) && limbo == old(limbo) && exact == old(exact)
      ensures i in table && table[i] == old(table)[i].(timed := false, inactive := true)
      ensures ProxyFrom(old(proxy), proxy, old(table).Keys) && AllSameConfig(old(types), types)
      ensures OthersKept(old(table), table, i, proxy)
      ensures k != PREVENT_DISPLAY_SLEEP || table[i].pid == powerd ==>
                proxy == old(proxy) && table == old(table)[i := table[i]]
      ensures forall t: TypeId :: t != k && t != INT_PREVENT_DISPLAY_SLEEP ==> types[t] == old(types)[t]
      ensures k == PREVENT_DISPLAY_SLEEP && table[i].pid != powerd && old(CanHandOff()) ==> HandedOff()
      decreases if k == PREVENT_DISPLAY_SLEEP then 2 else 0, 0
    {
      hide SoundAt, TimersAt, DerivesAt, HouseAt, ReadyAt, ConfigOK, Directed, ViewOf, Handle, OthersKept, HandedOff,
           IsProxy;
      ghost var table0 := table;
      TurnOffPending(i, k, types0);
      ghost var a := table[i];
      HasFreeSame(table0, table);
      if k == PREVENT_DISPLAY_SLEEP && table[i].pid != powerd {
        HandOffDisplay(k, Release);
      }
      FinishHandler(k, Release);
      OthersKeptAfter(table0, i, a, table, proxy);
    }

    /** The list part of switching an assertion off: its type is pending afterwards. */
    method TurnOffPending(i: Index, k: TypeId, ghost types0: Types)
      requires Forwarded(i, k, types0, -1) && PlaceOf(table[i]) in {Timed, Active} && proxy != Some(i)
      requires types[k].LessValid(table[i]).validCnt <= types0[k].validCnt
      modifies `table, `types, `limbo, `exact
      ensures Base(k) && Ready(k, Release) && limbo == old(limbo) && exact == old(exact)
      ensures table == old(table)[i := old(table)[i].(timed := false, inactive := true)]
      ensures types == old(types)[k := types[k]] && SameConfig(old(types)[k], types[k])
    {
      hide SoundAt, TimersAt, DerivesAt, HouseAt, ConfigOK, Directed, ViewOf, Handle, Without;
      ghost var table0, r1 := table, types[k];
      TurnOff(i, k);
      UpdateSeqTwice(types0, k, r1, types[k]);
      SoundConfig(table, types, limbo, exact);
      HouseStep(table0, table, limbo, suspendedPids + suspending, proxy, powerd, nextIndex, i);
      BecomesReady(types0, types, onBatt, DerivedState(), k, Release);
    }

    ghost predicate Ready(k: TypeId, op: Op)
      reads `types, `onBatt, `ker, `overrides, `agg
    {
      ReadyAt(types, onBatt, DerivedState(), k, op)
    }

    /** The handler of the one type that is out of date. */
    method FinishHandler(k: TypeId, op: Op)
      requires Sound() && Ready(k, op)
      modifies `ker, `overrides, `agg
      ensures Derives(-1)
      ensures forall t: TypeId :: t != k ==> (t in agg <==> t in old(agg))
    {
      hide SoundAt, ViewOf, Handle;
      SoundConfig(table, types, limbo, exact);
      RunHandler(k, op, types, -1);
    }

    /** The proxy is raised before the release handler of the display type runs. */
    method HandOffDisplay(k: TypeId, op: Op)
      requires Base(k) && Ready(k, op) && k == PREVENT_DISPLAY_SLEEP
      modifies `table, `types, `limbo, `exact, `ker, `overrides, `agg, `nextIndex, `proxy
      ensures Base(k) && Ready(k, op) && limbo == old(limbo) && exact == old(exact)
      ensures types == old(types)[INT_PREVENT_DISPLAY_SLEEP := types[INT_PREVENT_DISPLAY_SLEEP]]
      ensures SameConfig(old(types)[INT_PREVENT_DISPLAY_SLEEP], types[INT_PREVENT_DISPLAY_SLEEP])
      ensures old(proxy).Some? ==> proxy == old(proxy)
      ensures if proxy.Some? then proxy.value in table && table == old(table)[proxy.value := table[proxy.value]]
                else table == old(table)
      ensures old(proxy).None? && proxy.Some? ==> proxy.value !in old(table)
      ensures old(CanHandOff()) ==> HandedOff()
      decreases 1, 1
    {
      hide SoundAt, TimersAt, DerivesAt, HouseAt, ViewOf, Handle;
      ghost var v, d := View(), DerivedState();
      DelayDisplayTurnOff();
      DirectedFrame(v, d, View(), DerivedState(), k, op);
    }

    /** Take an inactive assertion out to raise it again. */
    method Reactivate(i: Index, k: TypeId, timeout: nat)
      requires Sound() && Timers(-1) && i in table && i !in limbo && table[i].kassert == k && table[i].inactive
      modifies `table, `types, `limbo
      ensures Sound() && Timers(-1) && limbo == old(limbo) + {i}
      ensures table == old(table)[i := old(table)[i].(inactive := false, timeout := timeout)] && !table[i].timed
                && !table[i].suspended
      ensures types == old(types)[k := old(types)[k].(inactive := types[k].inactive)]
                && AllSameConfig(old(types), types)
    {
      hide SoundAt, TimersAt;
      ghost var table0, r0 := table, types[k];
      InItsList(table, types, limbo, exact, i);
      RemoveInactive(i, k);
      assert types[k] == r0.(inactive := types[k].inactive);
      var a := table[i].(timeout := timeout);
      assert a == table0[i].(inactive := false, timeout := timeout);
      UpdateInLimbo(i, a);
      assert table == table0[i := a];
    }

    method ApplyTurnOn(i: Index, k: TypeId, timeout: nat, ghost types0: Types, ghost p: int)
      requires Forwarded(i, k, types0, p) && table[i].inactive && types == types0
      modifies `table, `types, `limbo, `exact, `ker, `overrides, `agg
      ensures Base(p) && limbo == old(limbo)
      ensures exact == old(exact) - Missed(old(types), old(table)[i], Plan.TurnItOn, Resolve(old(table)[i].name))
      ensures var a := old(table)[i]; var k' := Resolve(a.name);
              !a.level.Off? && Uncounted(old(types)[k'], a) ==> types[k'].validCnt == old(types)[k'].validCnt
      ensures AllSameConfig(old(types), types)
      ensures var k' := Resolve(old(table)[i].name);
              && table == old(table)[i := Raised(old(types)[k'], old(table)[i].(inactive := false, timeout := timeout),
                   k', now)]
              && (forall t: TypeId :: t != k && t != k' ==> types[t] == old(types)[t])
              && (p >= 0 ==> types == old(types)[k := types[k]] && SameConfig(old(types)[k], types[k]))
      ensures p >= 0 ==> (p in agg <==> p in old(agg))
    {
      hide SoundAt, TimersAt, DerivesAt, HouseAt, ConfigOK, ViewOf, Handle, Raised, Missed, Uncounted, AllSameConfig;
      ghost var table0, limbo0, k' := table, limbo, Resolve(table[i].name);
      RaiseAgain(i, k, timeout, types0, p);
      assert limbo == limbo0;
      HouseRaised(table0, table, limbo, suspendedPids + suspending, proxy, powerd, nextIndex, i, types0[k'], timeout,
                  k', now);
    }

    /** The list part of switching an assertion on. */
    method RaiseAgain(i: Index, k: TypeId, timeout: nat, ghost types0: Types, ghost p: int)
      requires Forwarded(i, k, types0, p) && table[i].inactive && types == types0
      modifies `table, `types, `limbo, `exact, `ker, `overrides, `agg
      ensures Sound() && Timers(-1) && Derives(p) && limbo == old(limbo)
      ensures exact == old(exact) - Missed(old(types), old(table)[i], Plan.TurnItOn, Resolve(old(table)[i].name))
      ensures var a := old(table)[i]; var k' := Resolve(a.name);
              !a.level.Off? && Uncounted(old(types)[k'], a) ==> types[k'].validCnt == old(types)[k'].validCnt
      ensures AllSameConfig(old(types), types)
      ensures var k' := Resolve(old(table)[i].name);
              && table == old(table)[i := Raised(old(types)[k'], old(table)[i].(inactive := false, timeout := timeout),
                   k', now)]
              && (forall t: TypeId :: t != k && t != k' ==> types[t] == old(types)[t])
              && (p >= 0 ==> types == old(types)[k := types[k]] && SameConfig(old(types)[k], types[k]))
      ensures p >= 0 ==> (p in agg <==> p in old(agg))
    {
      hide SoundAt, TimersAt, DerivesAt, HouseAt, ConfigOK, ViewOf, Handle, Raised, Missed, Uncounted, AllSameConfig,
           IsProxy;
      ghost var table0, limbo0, exact0 := table, limbo, exact;
      Reactivate(i, k, timeout);
      ghost var types1 := types;
      ghost var a, k' := table[i], Resolve(table[i].name);
      MissedWhenOn(types0, types[k'], table0[i], a, exact0, k');
      SameActivity(types0, types, onBatt, DerivedState(), p);
      RaisedSame(types[k'], types0[k'], a, k', now);
      RaiseAssertion(i, 0, p);
      OneConfigured(types0, types1, types, k');
      UpdateTwice(table0, i, a, table[i]);
      assert limbo == limbo0;
    }

    method TimeoutPending(i: Index, k: TypeId, timeout: nat, ghost types0: Types, ghost p: int)
      requires Forwarded(i, k, types0, p) && PlaceOf(table[i]) in {Timed, Active}
      modifies `table, `types, `limbo, `exact
      ensures Sound() && Timers(-1) && House() && limbo == old(limbo)
      ensures exact == if Uncounted(old(types)[k], old(table)[i]) then old(exact) - {k} else old(exact)
      ensures Uncounted(old(types)[k], old(table)[i]) ==>
                types[k].validCnt == CountAfterMiss(old(types)[k], Plan.Retime)
      ensures table == old(table)[i := old(table)[i].(createTime := now, timeout := timeout, timed := timeout != 0)]
      ensures types == old(types)[k := types[k]] && SameConfig(old(types)[k], types[k])
      ensures HandlerReady(types0, types, onBatt, DerivedState(), k, Eval, p)
      ensures k == DECLARE_USER_ACTIVITY && p < 0 ==> Ready(k, Raise)
    {
      hide SoundAt, TimersAt, DerivesAt, HouseAt, Directed, ViewOf, Handle, HandlerReady;
      ghost var table0, r1 := table, types[k];
      SetTimeout(i, k, timeout);
      UpdateSeqTwice(types0, k, r1, types[k]);
      SoundConfig(table, types, limbo, exact);
      assert TypeOK(k, types[k]);
      hide ConfigOK;
      HouseStep(table0, table, limbo, suspendedPids + suspending, proxy, powerd, nextIndex, i);
      if p >= 0 {
        ProxyReady(types0, types, onBatt, DerivedState(), Eval, p);
      } else {
        MirrorDirects(types0, types, onBatt, DerivedState(), k, Eval);
        if k == DECLARE_USER_ACTIVITY {
          BecomesReady(types0, types, onBatt, DerivedState(), k, Raise);
        }
      }
    }

    method ApplyTimeout(i: Index, k: TypeId, timeout: nat, ghost types0: Types, ghost p: int)
      requires Forwarded(i, k, types0, p) && PlaceOf(table[i]) in {Timed, Active}
      modifies `table, `types, `limbo, `exact, `ker, `overrides, `agg
      ensures Base(p) && limbo == old(limbo)
      ensures exact == old(exact) - Missed(old(types), old(table)[i], Plan.Retime, k)
      ensures Uncounted(old(types)[k], old(table)[i]) ==>
                types[k].validCnt == CountAfterMiss(old(types)[k], Plan.Retime)
      ensures table == old(table)[i := old(table)[i].(createTime := now, timeout := timeout, timed := timeout != 0)]
      ensures types == old(types)[k := types[k]] && SameConfig(old(types)[k], types[k])
      ensures p >= 0 ==> (p in agg <==> p in old(agg))
    {
      hide SoundAt, TimersAt, DerivesAt, HouseAt, Directed, ViewOf, Handle, HandlerReady, ConfigOK;
      TimeoutPending(i, k, timeout, types0, p);
      if k == DECLARE_USER_ACTIVITY {
        FinishHandler(k, Raise);
        Reevaluate(k, Eval);
      } else {
        RunHandler(k, Eval, types0, p);
      }
    }

    /** Nothing is out of date, so `k` is ready for any handler call. */
    lemma MirrorReady(k: TypeId, op: Op)
      requires Sound() && Derives(-1)
      ensures Ready(k, op) && Derives(k)
    {
      hide SoundAt, DerivesAt, ReadyAt, ViewOf, Handle;
      SoundConfig(table, types, limbo, exact);
      assert types[k := types[k]] == types;
      BecomesReady(types, types, onBatt, DerivedState(), k, op);
      ReadyIsPending(types, onBatt, DerivedState(), k, op);
    }

    /** A handler call when nothing is out of date. */
    method Reevaluate(k: TypeId, op: Op)
      requires Sound() && Derives(-1)
      modifies `ker, `overrides, `agg
      ensures Derives(-1)
    {
      hide SoundAt, DerivesAt, ReadyAt, ViewOf, Handle;
      MirrorReady(k, op);
      FinishHandler(k, op);
    }

    // ---- releasing ---------------------------------------------------------------------

    method DropEntry(i: Index, ghost x: int)
      requires Sound() && Timers(x) && i in table && i in limbo
      modifies `table, `limbo
      ensures Sound() && Timers(x) && limbo == old(limbo) - {i} && table == old(table) - {i}
      ensures proxy != Some(i) && old(House()) ==> House()
      ensures proxy != Some(i) && old(HandedOff()) ==> HandedOff()
    {
      hide SoundAt, TimersAt;
      DropEntrySound(table, types, limbo, exact, i);
      DropTimers(table, types, limbo, exact, now, i, x);
      table := table - {i};
      limbo := limbo - {i};
    }

    /** Take an assertion off whichever list it is on. */
    method Unlink(i: Index, k: TypeId) returns (active: bool)
      requires Sound() && Timers(-1) && i in table && i !in limbo && table[i].kassert == k
      modifies `table, `types, `limbo, `exact
      ensures Sound() && Timers(-1) && limbo == old(limbo) + {i}
      ensures table == old(table)[i := old(table)[i].(timed := false, inactive := false)]
      ensures active == !old(table)[i].inactive
      ensures exact == if table[i].suspended && table[i].validOnBatt && old(types)[k].validCnt > 0 then old(exact) - {k}
                else old(exact)
      ensures types == old(types)[k := types[k]] && SameConfig(old(types)[k], types[k])
      ensures types[k] == old(types)[k].Unlinked(i).(validCnt := types[k].validCnt, timer := types[k].timer)
      ensures types[k].HasLive() ==> old(types)[k].HasLive()
      ensures types[k].validCnt == CountWithout(old(types)[k], old(table)[i])
    {
      hide SoundAt, TimersAt, Without;
      InItsList(table, types, limbo, exact, i);
      active := true;
      if table[i].timed {
        RemoveTimed(i, k, true);
      } else if table[i].inactive {
        RemoveInactive(i, k);
        active := false;
      } else {
        assert table[i := table[i].(timed := false, inactive := false)] == table;
        RemoveActive(i, k);
      }
    }

    /** releaseAssertion without its handler call: the type stays pending for its release handler. */
    method ReleaseAssertion(i: Index, k: TypeId)
      requires Base(k) && Ready(k, Release) && i in table && i !in limbo && table[i].kassert == k && proxy != Some(i)
      modifies `table, `types, `limbo, `exact, `ker, `overrides, `agg, `nextIndex, `proxy
      ensures Base(k) && Ready(k, Release) && limbo == old(limbo) + {i}
      ensures ProxyFrom(old(proxy), proxy, old(table).Keys)
      ensures OthersKept(old(table), table, i, proxy) && proxy != Some(i)
      ensures i in table && table[i] == old(table)[i].(timed := false, inactive := false)
      ensures SameConfig(old(types)[k], types[k]) && SameLists(types[k], old(types)[k].Unlinked(i))
      ensures OthersSame(old(types), types, k)
      ensures k != PREVENT_DISPLAY_SLEEP || old(table)[i].inactive || table[i].pid == powerd ==>
                proxy == old(proxy) && table == old(table)[i := table[i]]
      ensures k == PREVENT_DISPLAY_SLEEP && !old(table)[i].inactive && table[i].pid != powerd && old(CanHandOff()) ==>
                HandedOff()
      ensures old(HandedOff()) ==> HandedOff()
      ensures old(CanHandOff()) ==> CanHandOff()
      ensures exact == if table[i].suspended && table[i].validOnBatt && old(types)[k].validCnt > 0 then old(exact) - {k}
                else old(exact)
      ensures types[k].validCnt == CountWithout(old(types)[k], old(table)[i])
    {
      hide CountWithout, SoundAt, TimersAt, DerivesAt, HouseAt, ReadyAt, ViewOf, Handle, ConfigOK, OthersKept, IsProxy,
           Without;
      ghost var table0 := table;
      var active := UnlinkPending(i, k);
      ghost var a := table[i];
      HasFreeSame(table0, table);
      if active && k == PREVENT_DISPLAY_SLEEP && table[i].pid != powerd {
        HandOffDisplay(k, Release);
      }
      OthersKeptAfter(table0, i, a, table, proxy);
    }

    method UnlinkPending(i: Index, k: TypeId) returns (active: bool)
      requires Base(k) && Ready(k, Release) && i in table && i !in limbo && table[i].kassert == k && proxy != Some(i)
      modifies `table, `types, `limbo, `exact
      ensures Base(k) && Ready(k, Release) && limbo == old(limbo) + {i}
      ensures table == old(table)[i := old(table)[i].(timed := false, inactive := false)]
      ensures active == !old(table)[i].inactive
      ensures SameConfig(old(types)[k], types[k]) && SameLists(types[k], old(types)[k].Unlinked(i))
      ensures types == old(types)[k := types[k]]
      ensures exact == if table[i].suspended && table[i].validOnBatt && old(types)[k].validCnt > 0 then old(exact) - {k}
                else old(exact)
      ensures types[k].validCnt == CountWithout(old(types)[k], old(table)[i])
    {
      hide SoundAt, TimersAt, DerivesAt, HouseAt, ReadyAt, ViewOf, Handle, ConfigOK, IsProxy, Without;
      ghost var table0, types0, limbo0 := table, types, limbo;
      SoundConfig(table, types, limbo, exact);
      active := Unlink(i, k);
      SoundConfig(table, types, limbo, exact);
      StaysReady(types0, types, onBatt, DerivedState(), k);
      ReadyIsPending(types, onBatt, DerivedState(), k, Release);
      HouseInLimbo(table0, table, limbo0, suspendedPids + suspending, proxy, powerd, nextIndex, i);
    }

    method LookupAssertion(pid: Pid, id: nat) returns (ret: IOReturn, i: Index)
      ensures i == IndexFromId(id)
      ensures ret == if i !in table then BadArgument else if table[i].pid != pid then NotPermitted else Success
    {
      i := IndexFromId(id);
      ret := if i !in table then BadArgument else if table[i].pid != pid then NotPermitted else Success;
    }

    /** A change to what no list, counter or timer looks at. */
    method Annotate(i: Index, a: Assertion)
      requires Inv() && i in table
      requires a == table[i].(retain := a.retain, level := a.level, sysTimer := a.sysTimer)
                 && (proxy == Some(i) ==> a.level.On?)
      modifies `table
      ensures Inv() && table == old(table)[i := a]
    {
      hide SoundAt, TimersAt, DerivesAt, HouseAt, IsProxy;
      InItsList(table, types, limbo, exact, i);
      RewriteSound(table, types, limbo, exact, i, a);
      assert types[table[i].kassert := types[table[i].kassert]] == types;
      RewriteTimers(table, types, limbo, exact, table[i := a], types, now, table[i].kassert, i);
      HouseAnnotated(table, limbo, suspendedPids + suspending, proxy, powerd, nextIndex, i, a);
      table := table[i := a];
    }

    method DoRetain(pid: Pid, id: nat) returns (ret: IOReturn, retainCnt: nat)
      requires Inv()
      modifies `table
      ensures Inv()
      ensures var i := IndexFromId(id);
              if ret.Success? then i in old(table) && old(table)[i].pid == pid
                   && retainCnt == old(table)[i].retain + 1
                   && table == old(table)[i := old(table)[i].(retain := retainCnt)]
              else table == old(table) && (i !in table || table[i].pid != pid)
    {
      var i;
      ret, i := LookupAssertion(pid, id);
      if !ret.Success? { return ret, 0; }
      retainCnt := table[i].retain + 1;
      ProxyFacts(table, limbo, suspendedPids + suspending, proxy, powerd, nextIndex);
      Annotate(i, table[i].(retain := retainCnt));
    }

    /** Drop one reference; the last one releases the assertion, its handler and its id. */
    method DoRelease(pid: Pid, id: nat) returns (ret: IOReturn, retainCnt: nat)
      requires Inv() && !(proxy == Some(IndexFromId(id)) && pid == powerd)
      modifies `table, `types, `limbo, `exact, `ker, `overrides, `agg, `nextIndex, `proxy
      ensures Inv()
      ensures var i := IndexFromId(id);
              ret == if i !in old(table) then BadArgument else if old(table)[i].pid != pid then NotPermitted
                  else Success
      ensures !ret.Success? ==> table == old(table) && types == old(types) && DerivedState() == old(DerivedState())
      ensures ProxyFrom(old(proxy), proxy, old(table).Keys) && AllSameConfig(old(types), types)
      ensures ret.Success? ==>
                var i := IndexFromId(id); var a := old(table)[i];
                && retainCnt == (if a.retain > 0 then a.retain - 1 else 0)
                && (retainCnt > 0 ==> table == old(table)[i := a.(retain := retainCnt)] && types == old(types))
                && (retainCnt == 0 ==> i !in table && OthersKept(old(table), table, i, proxy))
                && (retainCnt == 0 && (a.kassert != PREVENT_DISPLAY_SLEEP || a.inactive || pid == powerd) ==>
                     proxy == old(proxy) && table == old(table) - {i})
                && (retainCnt > 0 ==> proxy == old(proxy))
                && (retainCnt == 0 && a.kassert == PREVENT_DISPLAY_SLEEP && !a.inactive && pid != powerd ==>
                     old(CanHandOff()) ==> HandedOff())
                && exact == (if retainCnt == 0 && a.suspended && a.validOnBatt && old(types)[a.kassert].validCnt > 0
                     then old(exact) - {a.kassert} else old(exact))
      ensures ret.Success? && retainCnt == 0 ==>
                var a := old(table)[IndexFromId(id)];
                types[a.kassert].validCnt == CountWithout(old(types)[a.kassert], a)
      ensures !ret.Success? ==> exact == old(exact) && proxy == old(proxy)
    {
      hide SoundAt, TimersAt, DerivesAt, ReadyAt, ViewOf, Handle, ConfigOK, OthersKept;
      var i;
      ret, i := LookupAssertion(pid, id);
      if !ret.Success? { return ret, 0; }
      ghost var table0 := table;
      retainCnt := if table[i].retain > 0 then table[i].retain - 1 else 0;
      ProxyFacts(table, limbo, suspendedPids + suspending, proxy, powerd, nextIndex);
      Annotate(i, table[i].(retain := retainCnt));
      if retainCnt > 0 { return; }
      assert proxy != Some(i);
      HasFreeSame(table0, table);
      ghost var table1 := table;
      ReleaseLast(i, table[i].kassert);
      OthersKeptThrough(table0, table1, table, i, proxy);
    }

    method ReleaseLast(i: Index, k: TypeId)
      requires Inv() && i in table && table[i].kassert == k && proxy != Some(i)
      modifies `table, `types, `limbo, `exact, `ker, `overrides, `agg, `nextIndex, `proxy
      ensures Inv() && i !in table && OthersKept(old(table), table, i, proxy)
      ensures ProxyFrom(old(proxy), proxy, old(table).Keys) && AllSameConfig(old(types), types)
      ensures k != PREVENT_DISPLAY_SLEEP || old(table)[i].inactive || old(table)[i].pid == powerd ==>
                proxy == old(proxy) && table == old(table) - {i}
      ensures k == PREVENT_DISPLAY_SLEEP && !old(table)[i].inactive && old(table)[i].pid != powerd ==>
                old(CanHandOff()) ==> HandedOff()
      ensures exact == if old(table)[i].suspended && old(table)[i].validOnBatt && old(types)[k].validCnt > 0
                then old(exact) - {k} else old(exact)
      ensures types[k].validCnt == CountWithout(old(types)[k], old(table)[i])
    {
      hide Inv, Base, Ready, CountWithout, OthersKept, HandedOff, CanHandOff, SameLists, SameConfig, OthersSame,
           AllSameConfig,
           ProxyFrom;
      ghost var table0, types0 := table, types;
      ReadyToRelease(k);
      ReleaseAssertion(i, k);
      OthersSameConfig(types0, types, k);
      ghost var table1 := table;
      DropReleased(i, k);
      OthersKeptDropped(table0, table1, table, i, proxy);
    }

    lemma ReadyToRelease(k: TypeId)
      requires Inv()
      ensures Base(k) && Ready(k, Release) && limbo == {} && suspending == {}
    {
      hide SoundAt, TimersAt, HouseAt, DerivesAt, ReadyAt, ViewOf, Handle;
      MirrorReady(k, Release);
    }

    /** The release handler, and the end of the record. */
    method DropReleased(i: Index, k: TypeId)
      requires Base(k) && Ready(k, Release) && limbo == {i} && suspending == {} && i in table && proxy != Some(i)
      modifies `table, `limbo, `ker, `overrides, `agg
      ensures Inv() && table == old(table) - {i}
      ensures old(HandedOff()) ==> HandedOff()
    {
      hide SoundAt, TimersAt, HouseAt, DerivesAt, ReadyAt, ViewOf, Handle, HandedOff;
      FinishHandler(k, Release);
      DropEntry(i, -1);
    }

    // ---- suspending and resuming -------------------------------------------------------

    /** An unlinked assertion goes to the head of the suspended list. */
    method InsertSuspended(i: Index, k: TypeId, resumeIn: nat)
      requires Base(k) && Ready(k, Release) && i in table && i in limbo && table[i].kassert == k && proxy != Some(i)
      requires !table[i].timed && !table[i].inactive
                 && (table[i].pid in suspendedPids + suspending || table[i].causing in suspendedPids + suspending)
      modifies `table, `types, `limbo
      ensures Base(k) && Ready(k, Release) && limbo == old(limbo) - {i}
      ensures table == old(table)[i := old(table)[i].(suspended := true, resumeIn := resumeIn)]
      ensures |types| == |old(types)| == TYPE_COUNT
      ensures types == old(types)[k := old(types)[k].(suspended := [i] + old(types)[k].suspended)]
      ensures (old(HandedOff()) ==> HandedOff()) && (old(CanHandOff()) ==> CanHandOff())
    {
      hide SoundAt, TimersAt, TimerOK, HouseAt, DerivesAt, ReadyAt, ViewOf, Handle;
      ghost var table0, types0, limbo0 := table, types, limbo;
      var a := table[i].(suspended := true, resumeIn := resumeIn);
      var r := types[k].(suspended := [i] + types[k].suspended);
      SoundConfig(table, types, limbo, exact);
      LinkSound(table, types, limbo, exact, i, a, r);
      TimersFrame(table, types, limbo, exact, table[i := a], types[k := r], now, k, i);
      types := types[k := r];
      table := table[i := a];
      limbo := limbo - {i};
      SoundConfig(table, types, limbo, exact);
      StaysReady(types0, types, onBatt, DerivedState(), k);
      ReadyIsPending(types, onBatt, DerivedState(), k, Release);
      HouseBack(table0, table, limbo0, suspendedPids + suspending, proxy, powerd, nextIndex, i);
      HasFreeSame(table0, table);
    }

    /** suspendAssertion, and the insertion into the suspended list that follows it. */
    method SuspendAssertion(i: Index, k: TypeId)
      requires Base(k) && Ready(k, Release) && i in table && i !in limbo && table[i].kassert == k && proxy != Some(i)
                 && !table[i].suspended
      requires table[i].pid in suspendedPids + suspending || table[i].causing in suspendedPids + suspending
      modifies `table, `types, `limbo, `exact, `ker, `overrides, `agg, `nextIndex, `proxy
      ensures Base(k) && Ready(k, Release) && limbo == old(limbo) && exact == old(exact)
      ensures SuspendStep(old(table), old(types), old(proxy), table, types, proxy, k, i, now)
      ensures (old(HandedOff()) ==> HandedOff()) && (old(CanHandOff()) ==> CanHandOff())
      ensures k == PREVENT_DISPLAY_SLEEP && !old(table)[i].inactive && old(table)[i].pid != powerd ==>
                old(CanHandOff()) ==> HandedOff()
      ensures k != PREVENT_DISPLAY_SLEEP || old(table)[i].inactive || old(table)[i].pid == powerd ==>
                proxy == old(proxy) && table == old(table)[i := table[i]]
    {
      hide Remainder, CountWithout, Base, Ready, SoundAt, TimersAt, HouseAt, DerivesAt, ReadyAt, ViewOf, Handle,
           OthersKept, Without, HandedOff,
           HasFree, CanHandOff, OthersSame, SuspendStep, SameLists, SameConfig, ProxyFrom;
      ghost var table0, types0, proxy0 := table, types, proxy;
      var resumeIn := Remainder(table[i], now);
      ReleaseAssertion(i, k);
      ghost var table1, types1 := table, types;
      InsertSuspended(i, k, resumeIn);
      SuspendStepFrom(table0, types0, proxy0, table1, types1, table, types, proxy, k, i, now);
    }

    /** LIST_REMOVE from the suspended list and resumeAssertion. */
    method ResumeAssertion(i: Index, k: TypeId)
      requires Sound() && Timers(-1) && i in table && i !in limbo && table[i].kassert == k && table[i].suspended
      modifies `table, `types, `limbo, `exact
      ensures Sound() && Timers(-1) && limbo == old(limbo)
      ensures exact == old(exact) - MissedOnResume(old(types)[k], old(table)[i])
      ensures table == old(table)[i := ResumedForm(old(table)[i], now)]
      ensures types == old(types)[k := types[k]] && SameConfig(old(types)[k], types[k])
      ensures types[k].suspended == Without(old(types)[k].suspended, i)
      ensures types[k].validCnt == if old(table)[i].level.Off? then old(types)[k].validCnt
                else old(types)[k].MoreValid(old(table)[i]).validCnt
    {
      hide SoundAt, TimersAt, Without;
      ghost var table0 := table;
      InItsList(table, types, limbo, exact, i);
      ListRemove(i, k);
      var a := table[i].(suspended := false);
      if a.level.Off? {
        UpdateInLimbo(i, a);
        InsertInactive(i, k);
      } else {
        var remaining := a.resumeIn;
        a := a.(resumeIn := 0);
        if remaining != 0 {
          a := a.(timeout := remaining + now);
        }
        UpdateInLimbo(i, a);
        LinkLive(i, k, remaining != 0);
      }
      UpdateTwice(table0, i, a, table[i]);
    }

    // ---- timeouts ----------------------------------------------------------------------

    /** Release a timed-out assertion or leave it in the inactive list, as its timeout action says. */
    method DropOrPark(i: Index, k: TypeId)
      requires Sound() && Timers(k) && i in table && i in limbo && table[i].kassert == k && !table[i].timed
                 && !table[i].suspended
      modifies `table, `types, `limbo
      ensures Sound() && Timers(k) && limbo == old(limbo) - {i}
      ensures types == old(types)[k := types[k]] && types[k] == old(types)[k].(inactive := types[k].inactive)
      ensures table == if old(table)[i].action.ReleaseIt? || old(table)[i].async then old(table) - {i}
                else old(table)[i := old(table)[i].(inactive := true)]
    {
      hide SoundAt, TimersAt;
      if table[i].action.ReleaseIt? || table[i].async {
        DropEntry(i, k);
        assert types == types[k := types[k]];
      } else {
        InsertInactive(i, k);
      }
    }

    /** The first timed assertion has expired. */
    method ExpireFirst(k: TypeId)
      requires Sound() && Timers(k) && House() && Ready(k, Release) && types[k].timed != []
      modifies `table, `types, `limbo
      ensures Sound() && Timers(k) && House() && Ready(k, Release) && limbo == old(limbo)
      ensures types == old(types)[k := types[k]] && SameConfig(old(types)[k], types[k])
      ensures types[k].timed == old(types)[k].timed[1..] && types[k].timer == old(types)[k].timer
      ensures var i := old(types)[k].timed[0];
              && i in old(table) && old(table)[i].kassert == k && Expired(old(table), table, i)
              && forall j :: j != i ==> (j in table <==> j in old(table)) && (j in table ==> table[j] == old(table)[j])
    {
      hide SoundAt, TimersAt, HouseAt, ReadyAt, ViewOf, ConfigOK, Expired;
      ghost var table0, types0, limbo0 := table, types, limbo;
      SoundConfig(table, types, limbo, exact);
      TimedFacts(table, types, limbo, exact, k);
      PopFirst(k);
      SoundConfig(table, types, limbo, exact);
      StaysReady(types0, types, onBatt, DerivedState(), k);
      HouseAfter(table0, table, limbo0, limbo, suspendedPids + suspending, proxy, powerd, nextIndex,
          types0[k].timed[0]);
    }

    method PopFirst(k: TypeId)
      requires Sound() && Timers(k) && types[k].timed != []
      modifies `table, `types, `limbo
      ensures Sound() && Timers(k) && limbo == old(limbo)
      ensures types == old(types)[k := types[k]] && SameConfig(old(types)[k], types[k])
      ensures types[k].timed == old(types)[k].timed[1..] && types[k].timer == old(types)[k].timer
      ensures types[k].HasLive() ==> old(types)[k].HasLive()
      ensures types[k].validCnt <= old(types)[k].validCnt
      ensures var i := old(types)[k].timed[0];
              && i in old(table) && i !in limbo && old(table)[i].kassert == k && Expired(old(table), table, i)
              && forall j :: j != i ==> (j in table <==> j in old(table)) && (j in table ==> table[j] == old(table)[j])
    {
      hide SoundAt, TimersAt, Without, Sorted, NoDup;
      TimedFacts(table, types, limbo, exact, k);
      SortedTail(table, types[k].timed, 0);
      assert types[k].timed[0..] == types[k].timed;
      var i := types[k].timed[0];
      RemoveTimed(i, k, false);
      DropOrPark(i, k);
    }

    /** Take every expired assertion off the front of the timed list. */
    method ExpireAll(k: TypeId) returns (n: nat, displayProxy: bool)
      requires Sound() && Timers(k) && House() && Ready(k, Release)
      modifies `table, `types, `limbo
      ensures Sound() && Timers(k) && House() && Ready(k, Release) && limbo == old(limbo)
      ensures types == old(types)[k := types[k]] && SameConfig(old(types)[k], types[k])
      ensures types[k].timer == old(types)[k].timer
      ensures n == 0 ==> table == old(table) && types == old(types) && !displayProxy
      ensures displayProxy ==> k == PREVENT_DISPLAY_SLEEP
      ensures types[k].timed != [] ==> old(types)[k].timed != []
      ensures old(CanHandOff()) ==> CanHandOff()
      ensures RunResult(old(table), old(types), table, types, k, n, displayProxy, now, None, powerd)
    {
      hide SoundAt, TimersAt, TimerOK, HouseAt, ReadyAt, Expired, Sorted, NoDup, TimeoutRun, ExpiredUpTo, AnyClient,
           RunResult, ViewOf, DerivesAt, Handle, HasFree, IsProxy;
      n, displayProxy := 0, false;
      ghost var table0, types0 := table, types;
      TimedFacts(table, types, limbo, exact, k);
      ExpireStart(table, types[k].timed, now);
      NoneYet(table, types, k, powerd);
      while types[k].timed != [] && table[types[k].timed[0]].timeout <= now
        invariant Expiring(k, table0, types0, n) && limbo == old(limbo)
        invariant n == 0 ==> table == table0 && types == types0
        invariant displayProxy == (k == PREVENT_DISPLAY_SLEEP && AnyClient(table0, types0[k].timed, n, powerd))
        decreases |types[k].timed|
      {
        var byClient := ExpireNext(k, table0, types0, n);
        displayProxy := displayProxy || (k == PREVENT_DISPLAY_SLEEP && byClient);
        n := n + 1;
      }
      RunResultFrom(table0, types0, table, types, k, n, displayProxy, now, powerd);
      RunResultKeys(table0, types0, table, types, k, n, displayProxy, now, powerd);
    }

    /** State of a timeout run that has dealt with `n` assertions. */
    ghost predicate Expiring(k: TypeId, table0: Table, types0: Types, n: nat)
      reads this
    {
      && Sound() && Timers(k) && House() && Ready(k, Release)
      && |types0| == TYPE_COUNT && types == types0[k := types[k]] && SameConfig(types0[k], types[k])
      && types[k].timer == types0[k].timer
      && n <= |types0[k].timed| && types[k].timed == types0[k].timed[n..]
      && ExpiredUpTo(table0, types0[k].timed, table, now, n)
      && (types[k].timed != [] ==> types[k].timed[0] in table && types[k].timed[0] in table0)
      && (types[k].timed != [] ==>
           types[k].timed[0] == types0[k].timed[n] && table[types[k].timed[0]] == table0[types[k].timed[0]])
    }

    method ExpireNext(k: TypeId, ghost table0: Table, ghost types0: Types, ghost n: nat) returns (byClient: bool)
      requires Expiring(k, table0, types0, n) && types[k].timed != [] && table[types[k].timed[0]].timeout <= now
      modifies `table, `types, `limbo
      ensures Expiring(k, table0, types0, n + 1) && limbo == old(limbo)
      ensures AnyClient(table0, types0[k].timed, n + 1, powerd) <==>
                AnyClient(table0, types0[k].timed, n, powerd) || byClient
    {
      hide SoundAt, TimersAt, HouseAt, ReadyAt, Expired, Sorted, NoDup, ExpiredUpTo, AnyClient;
      ghost var table1, timed0 := table, types0[k].timed;
      ExpireFacts(table0, timed0, table, now, n);
      byClient := table[types[k].timed[0]].pid != powerd;
      AnyClientStep(table0, timed0, n, powerd);
      ExpireFirst(k);
      ExpireStep(table0, timed0, table1, table, now, n);
      if n + 1 < |timed0| {
        ExpireFacts(table0, timed0, table, now, n + 1);
      }
    }

    ghost predicate FirstExpired(k: TypeId)
      reads `table, `types, `now
    {
      |types| == TYPE_COUNT && types[k].timed != [] && types[k].timed[0] in table
          && table[types[k].timed[0]].timeout <= now
    }

    /** The timer of `k` may lag behind, but only because its first assertion has expired. */
    ghost predicate RunAllowed(k: TypeId)
      reads `table, `types, `now
    {
      && |types| == TYPE_COUNT
      && (types[k].timed != [] ==> types[k].timer.created && (TimerOK(table, types[k], now) || FirstExpired(k)))
    }

    /** A timeout run for type `k`, started by its timer or queued before.
        Returns how many assertions expired and whether a client's display assertion was among them. */
    method HandleAssertionTimeout(k: TypeId) returns (n: nat, displayProxy: bool)
      requires Sound() && Timers(k) && House() && Derives(-1) && limbo == {} && suspending == {} && RunAllowed(k)
      modifies `table, `types, `limbo, `exact, `ker, `overrides, `agg, `nextIndex, `proxy
      ensures Inv() && exact == old(exact)
      ensures RunResult(old(table), old(types), table, types, k, n, displayProxy, now, if displayProxy
                then proxy else None, powerd)
      ensures !displayProxy ==> proxy == old(proxy)
      ensures ProxyFrom(old(proxy), proxy, Outlasting(old(table), k, now)) && AllSameConfig(old(types), types)
      ensures displayProxy && old(CanHandOff()) ==> HandedOff()
      ensures RunTimer(table, old(types)[k], types[k], n)
    {
      hide SoundAt, TimersAt, HouseAt, ReadyAt, DerivesAt, HandedOff, ViewOf, SameConfig, HasFree, RunResult, Handle,
           AllSameConfig, Outlasting;
      ghost var table0, types0 := table, types;
      MirrorReady(k, Release);
      OutlastingFacts(table, types, exact, k, now);
      SameIsSame(types);
      n, displayProxy := ExpireAll(k);
      OneConfigured(types0, types0, types, k);
      ghost var table1, types1 := table, types;
      OutlastingStay(table0, types0, table1, types1, k, n, displayProxy, now, powerd);
      FinishRun(k, n, displayProxy, table0, types0);
      RunResultLater(table0, types0, table1, types1, table, types, k, n, displayProxy, now,
          if displayProxy then proxy else None, powerd);
    }

    /** The tail of a timeout run, unless nothing had expired: re-arm, hand the display over, run the release
        handler. */
    method FinishRun(k: TypeId, n: nat, displayProxy: bool, ghost table0: Table, ghost types0: Types)
      requires Sound() && Timers(k) && House() && Ready(k, Release)
      requires RunResult(table0, types0, table, types, k, n, displayProxy, now, None, powerd)
      requires types[k].timed != [] ==> types[k].timer.created
      requires displayProxy ==> k == PREVENT_DISPLAY_SLEEP
      requires n == 0 ==> RunAllowed(k) && Derives(-1) && !displayProxy
      modifies `table, `types, `limbo, `exact, `ker, `overrides, `agg, `nextIndex, `proxy
      ensures Base(-1) && exact == old(exact) && limbo == old(limbo)
      ensures |types| == TYPE_COUNT && types[k].timed == old(types)[k].timed
      ensures RunTimer(table, old(types)[k], types[k], n)
      ensures ProxyFrom(old(proxy), proxy, old(table).Keys)
      ensures AllSameConfig(types0, old(types)) ==> AllSameConfig(types0, types)
      ensures !displayProxy ==> proxy == old(proxy) && table == old(table)
      ensures forall j :: proxy != Some(j) ==>
                (j in table <==> j in old(table)) && (j in table ==> table[j] == old(table)[j])
      ensures k == PREVENT_DISPLAY_SLEEP ==> forall j :: j in types[k].timed ==> proxy != Some(j)
      ensures displayProxy && old(CanHandOff()) ==> HandedOff()
    {
      hide SoundAt, TimersAt, HouseAt, ReadyAt, DerivesAt, HandedOff, ViewOf, RunAllowed, HasFree, RunResult, Handle,
           AllSameConfig;
      if n == 0 {
        NothingExpired(k, table0, types0, displayProxy);
      } else {
        ghost var types1 := types;
        LaterDeadlines(table0, types0, table, types, k, n, displayProxy, now, powerd);
        ResetAfterRun(k);
        SetupsStay(types0, types1, types, k);
        if displayProxy {
          ghost var types2 := types;
          HandOffDisplay(k, Release);
          SetupsStay(types0, types2, types, INT_PREVENT_DISPLAY_SLEEP);
        }
        FinishHandler(k, Release);
      }
      OffTheList(k);
      FirstListed(k);
    }

    lemma FirstListed(k: TypeId)
      requires Sound()
      ensures types[k].timed != [] ==> types[k].timed[0] in types[k].timed && types[k].timed[0] in table
    {
      TimedFacts(table, types, limbo, exact, k);
    }

    /** powerd's proxy is never on the display type's own list. */
    lemma OffTheList(k: TypeId)
      requires Sound() && House()
      ensures k == PREVENT_DISPLAY_SLEEP ==> forall j :: j in types[k].timed ==> proxy != Some(j)
    {
      TimedFacts(table, types, limbo, exact, k);
      ProxyFacts(table, limbo, suspendedPids + suspending, proxy, powerd, nextIndex);
    }

    lemma NothingExpired(k: TypeId, table0: Table, types0: Types, displayProxy: bool)
      requires Timers(k) && RunAllowed(k)
                 && RunResult(table0, types0, table, types, k, 0, displayProxy, now, None, powerd)
      ensures Timers(-1)
    {
      assert types[k].timed != [] ==> types[k].timed[0] in types[k].timed;
      TimersClosed(table, types, now, k);
    }

    /** Re-arm after a run; the derived state does not look at timers. */
    method ResetAfterRun(k: TypeId)
      requires Sound() && Timers(k) && House() && Ready(k, Release)
      requires types[k].timed != [] ==> types[k].timer.created
      modifies `types
      ensures Base(k) && Ready(k, Release)
      ensures types == old(types)[k := types[k]] && types[k] == old(types)[k].(timer := types[k].timer)
      ensures types[k].timed != [] ==> types[k].timed[0] in table
      ensures types[k].timed == [] || table[types[k].timed[0]].timeout > now ==>
                RunTimer(table, old(types)[k], types[k], 1)
    {
      hide SoundAt, TimersAt, HouseAt, ReadyAt, ViewOf, ConfigOK;
      ghost var types0 := types;
      SoundConfig(table, types, limbo, exact);
      ResetAssertionTimer(k);
      SoundConfig(table, types, limbo, exact);
      StaysReady(types0, types, onBatt, DerivedState(), k);
      ReadyIsPending(types, onBatt, DerivedState(), k, Release);
    }

    /** The armed timer of a type goes off. */
    method TimerFires(k: TypeId) returns (n: nat, displayProxy: bool)
      requires Inv() && types[k].timer.created && types[k].timer.armed.Some? && types[k].timer.armed.value <= now
      modifies `table, `types, `limbo, `exact, `ker, `overrides, `agg, `nextIndex, `proxy
      ensures Inv() && exact == old(exact)
      ensures RunResult(old(table), old(types), table, types, k, n, displayProxy, now, if displayProxy
                then proxy else None, powerd)
      ensures !displayProxy ==> proxy == old(proxy)
      ensures ProxyFrom(old(proxy), proxy, Outlasting(old(table), k, now)) && AllSameConfig(old(types), types)
      ensures displayProxy && old(CanHandOff()) ==> HandedOff()
      ensures types[k].timed != [] ==> types[k].timed[0] in table
      ensures types[k].timer.runs == old(types)[k].timer.runs
      ensures types[k].timer.armed == if types[k].timed != [] then Some(table[types[k].timed[0]].timeout) else None
    {
      hide SoundAt, HouseAt, DerivesAt, AllSameConfig, Outlasting, HandedOff;
      ghost var types0 := types;
      TimersOne(table, types, now, k);
      TimersAllToOne(table, types, now, k);
      hide TimersAt;
      SetTimer(k, types[k].timer.(armed := None));
      ghost var types1 := types;
      n, displayProxy := HandleAssertionTimeout(k);
      assert types1[k].timed == types0[k].timed;
      SameIsSame(types0);
      SameSetupsFrom(types0, types1, types, k);
      RearmedAfter(old(table), types1, k, n, displayProxy);
    }

    /** A timeout run that was queued on the main queue starts. */
    method QueuedRun(k: TypeId) returns (n: nat, displayProxy: bool)
      requires Inv() && types[k].timer.runs > 0
      modifies `table, `types, `limbo, `exact, `ker, `overrides, `agg, `nextIndex, `proxy
      ensures Inv() && exact == old(exact)
      ensures RunResult(old(table), old(types), table, types, k, n, displayProxy, now, if displayProxy
                then proxy else None, powerd)
      ensures !displayProxy ==> proxy == old(proxy)
      ensures ProxyFrom(old(proxy), proxy, Outlasting(old(table), k, now)) && AllSameConfig(old(types), types)
      ensures displayProxy && old(CanHandOff()) ==> HandedOff()
      ensures types[k].timed != [] ==> types[k].timed[0] in table
      ensures types[k].timer.runs == old(types)[k].timer.runs - 1
      ensures types[k].timer.armed == if types[k].timed != [] then Some(table[types[k].timed[0]].timeout)
                else old(types)[k].timer.armed
    {
      hide SoundAt, HouseAt, DerivesAt, AllSameConfig, Outlasting, HandedOff;
      ghost var types0 := types;
      TimersOne(table, types, now, k);
      TimersAllToOne(table, types, now, k);
      hide TimersAt;
      SetTimer(k, types[k].timer.(runs := types[k].timer.runs - 1));
      ghost var types1 := types;
      n, displayProxy := HandleAssertionTimeout(k);
      assert types1[k].timed == types0[k].timed;
      SameIsSame(types0);
      SameSetupsFrom(types0, types1, types, k);
      RearmedAfter(old(table), types1, k, n, displayProxy);
    }

    /** Whatever is left is ahead, so the timer is armed for it. */
    lemma RearmedAfter(table0: Table, types0: Types, k: TypeId, n: nat, displayProxy: bool)
      requires Inv() && RunResult(table0, types0, table, types, k, n, displayProxy, now, if displayProxy then proxy
                 else None, powerd)
      ensures |types| == TYPE_COUNT
      ensures types[k].timed != [] ==>
                types[k].timed[0] in table && types[k].timer.armed == Some(table[types[k].timed[0]].timeout)
    {
      TimersOne(table, types, now, k);
      hide SoundAt, TimersAt, HouseAt, DerivesAt;
      assert types[k].timed != [] ==> types[k].timed[0] in types[k].timed;
    }

    method SetTimer(k: TypeId, timer: TypeTimer)
      requires Sound() && Timers(k) && House() && Derives(-1)
      modifies `types
      ensures Sound() && Timers(k) && House() && Derives(-1)
      ensures types == old(types)[k := old(types)[k].(timer := timer)]
    {
      hide SoundAt, TimersAt, HouseAt, DerivesAt;
      ghost var types0 := types;
      RetypeSound(table, types, limbo, exact, k, types[k].(timer := timer));
      SoundFacts(table, types, limbo, exact, MAX_ASSERTIONS);
      TimersFrame(table, types, limbo, exact, table, types[k := types[k].(timer := timer)], now, k, MAX_ASSERTIONS);
      types := types[k := types[k].(timer := timer)];
      SameActivity(types0, types, onBatt, DerivedState(), -1);
    }

    /** Time passes. */
    method Tick(later: nat)
      requires Inv() && now <= later
      modifies `now
      ensures Inv() && now == later
    {
      hide SoundAt, HouseAt, DerivesAt, TimersAt;
      TimersLater(table, types, now, later, -1);
      now := later;
    }

    /** Whenever a deadline has passed, the main queue has something to do about it:
        the timer of its type can go off, or a run is queued. */
    lemma NotForgotten(i: Index)
      requires Inv() && i in table && table[i].timed && table[i].timeout <= now
      ensures var r := types[table[i].kassert];
              r.timer.runs > 0 || (r.timer.created && r.timer.armed.Some? && r.timer.armed.value <= now)
    {
      var k := table[i].kassert;
      TimersOne(table, types, now, k);
      TimedFacts(table, types, limbo, exact, k);
      InItsList(table, types, limbo, exact, i);
    }
  }
}
