/**
 Whole runs of the assertion engine: any sequence of client calls, timer events, process events,
 power-source changes, reconfigurations and setting changes.
 */
module EngineRun {
  import opened Common
  import opened EffectMirror
  import opened AssertionLists
  import opened AssertionEngine
  import opened Reconfiguration
  import opened EngineSteps
  import ProcessExit
  import Suspension
  import Retiming

  // ---- events that touch one assertion -------------------------------------------------

  lemma CreateStepped(s: State, s': State, pid: Pid, q: Request, i: Index)
    requires Possible(s, Create(pid, q)) && AllSameConfig(s.types, s'.types)
    requires if Creates(s, Create(pid, q)) then i !in s.table && s'.table == s.table[i := NewRecord(s, Create(pid, q))]
               else s'.table == s.table
    requires s' == s.(table := s'.table, types := s'.types, derived := s'.derived, nextIndex := s'.nextIndex)
    ensures Stepped(s, Create(pid, q), s')
  {
    hide AllSameConfig, HasFree, NewRecord;
  }

  method PerformCreate(e: Engine, pid: Pid, q: Request)
    requires e.Inv() && Possible(StateOf(e), Create(pid, q))
    modifies e
    ensures e.Inv() && Stepped(old(StateOf(e)), Create(pid, q), StateOf(e))
  {
    hide SoundAt, TimersAt, HouseAt, DerivesAt, ViewOf, Handle, Raised, AllSameConfig, HasFree, Stepped;
    ghost var s := StateOf(e);
    SameIsSame(s.types);
    var ret, id := e.DoCreate(pid, q, -1);
    if ret.Success? {
      OneConfigured(s.types, s.types, e.types, s.Resolve(q.name.value));
    }
    CreateStepped(s, StateOf(e), pid, q, IndexFromId(id));
  }

  method PerformRetain(e: Engine, pid: Pid, id: nat)
    requires e.Inv()
    modifies e
    ensures e.Inv() && Stepped(old(StateOf(e)), Retain(pid, id), StateOf(e))
  {
    hide SoundAt, TimersAt, HouseAt, DerivesAt, ViewOf, AllSameConfig;
    SameIsSame(e.types);
    var _, _ := e.DoRetain(pid, id);
  }

  lemma ReleaseStepped(s: State, s': State, pid: Pid, id: nat)
    requires Possible(s, ReleaseOne(pid, id))
    requires ProxyFrom(s.proxy, s'.proxy, s.table.Keys) && AllSameConfig(s.types, s'.types)
    requires !Named(s, pid, id) ==> s'.table == s.table && s'.proxy == s.proxy
    requires s'.exact == s.exact - Miscounts(s, ReleaseOne(pid, id))
    requires Named(s, pid, id) ==>
               var i := IndexFromId(id); var a := s.table[i];
               && (a.retain > 1 ==> s'.table == s.table[i := a.(retain := a.retain - 1)])
               && (a.retain <= 1 ==> i !in s'.table && OthersKept(s.table, s'.table, i, s'.proxy))
               && (a.retain > 1 ==> s'.proxy == s.proxy)
               && (a.retain <= 1 && !HandsOff(s, ReleaseOne(pid, id)) ==>
                    s'.proxy == s.proxy && s'.table == s.table - {i})
               && (a.retain <= 1 ==>
                    |s'.types| == TYPE_COUNT && s'.types[a.kassert].validCnt == CountWithout(s.types[a.kassert], a))
    requires HandsOff(s, ReleaseOne(pid, id)) && s.CanHandOff() ==> s'.HandedOff()
    requires s' == s.(table := s'.table, types := s'.types, derived := s'.derived, nextIndex := s'.nextIndex,
               proxy := s'.proxy, exact := s'.exact)
    ensures Stepped(s, ReleaseOne(pid, id), s')
  {
    hide AllSameConfig, HasFree, Miscounts, HandsOff;
    ReleaseStaying(s, s', pid, id);
    hide ProxyFrom, Staying;
  }

  lemma ReleaseStaying(s: State, s': State, pid: Pid, id: nat)
    requires |s.types| == TYPE_COUNT && ProxyFrom(s.proxy, s'.proxy, s.table.Keys)
    ensures ProxyFrom(s.proxy, s'.proxy, Staying(s, ReleaseOne(pid, id)))
  {
    assert Staying(s, ReleaseOne(pid, id)) <= s.table.Keys;
  }

  method PerformRelease(e: Engine, pid: Pid, id: nat)
    requires e.Inv() && Possible(StateOf(e), ReleaseOne(pid, id))
    modifies e
    ensures e.Inv() && Stepped(old(StateOf(e)), ReleaseOne(pid, id), StateOf(e))
  {
    hide SoundAt, TimersAt, HouseAt, DerivesAt, ViewOf, Handle, AllSameConfig, HasFree, OthersKept, ProxyFrom, Stepped;
    ghost var s := StateOf(e);
    var _, _ := e.DoRelease(pid, id);
    ReleaseStepped(s, StateOf(e), pid, id);
  }

  predicate Permitted(s: State, pid: Pid, id: nat) {
    Named(s, pid, id) && !Refused(s.suspendedPids, s.table[IndexFromId(id)])
  }

  lemma UpdateStepped(s: State, s': State, pid: Pid, id: nat, props: Props)
    requires |s.types| == TYPE_COUNT && Possible(s, SetProperties(pid, id, props))
    requires ProxyFrom(s.proxy, s'.proxy, s.table.Keys) && AllSameConfig(s.types, s'.types)
    requires !Permitted(s, pid, id) ==> s'.table == s.table && s'.proxy == s.proxy && s'.exact == s.exact
    requires Permitted(s, pid, id) ==>
               var i := IndexFromId(id); var a := s.table[i];
               && i in s'.table && s'.table[i] == Updated(s.types, a, props, s.Resolve(a.name), s.now)
               && OthersKept(s.table, s'.table, i, s'.proxy)
               && var plan := PlanFor(a.inactive, props);
                  var missed := Missed(s.types, WithProps(a, props, s.types[a.kassert].notValidOnBatt), plan,
                      s.Resolve(a.name));
                  && s'.exact == s.exact - missed
                  && (forall t :: t in missed ==>
                       |s'.types| == TYPE_COUNT && s'.types[t].validCnt == CountAfterMiss(s.types[t], plan))
                  && (pid != s.powerd && a.kassert == PREVENT_DISPLAY_SLEEP && plan.TurnItOff? && s.CanHandOff() ==>
                       s'.HandedOff())
                  && (a.kassert != PREVENT_DISPLAY_SLEEP || pid == s.powerd || !plan.TurnItOff? ==>
                       s'.proxy == s.proxy && s'.table == s.table[i := s'.table[i]])
    requires s' == s.(table := s'.table, types := s'.types, derived := s'.derived, nextIndex := s'.nextIndex,
               proxy := s'.proxy, exact := s'.exact)
    ensures Stepped(s, SetProperties(pid, id, props), s')
  {
    hide AllSameConfig, HasFree, Updated, Missed, WithProps, PlanFor, CountAfterMiss;
  }

  method PerformUpdate(e: Engine, pid: Pid, id: nat, props: Props)
    requires e.Inv() && Possible(StateOf(e), SetProperties(pid, id, props))
    modifies e
    ensures e.Inv() && Stepped(old(StateOf(e)), SetProperties(pid, id, props), StateOf(e))
  {
    hide SoundAt, TimersAt, HouseAt, DerivesAt, ViewOf, Handle, AllSameConfig, HasFree, Updated, Missed, WithProps,
         PlanFor, CountAfterMiss, Stepped, OthersKept, ProxyFrom;
    ghost var s := StateOf(e);
    var _ := e.DoSetProperties(pid, id, props, -1);
    UpdateStepped(s, StateOf(e), pid, id, props);
  }

  // ---- declarations --------------------------------------------------------------------

  /** What a declaration of user or network activity comes to. */
  lemma DeclarationStepped(s: State, s': State, ev: Event, ret: IOReturn, id': nat)
    requires |s.types| == TYPE_COUNT && (ev.DeclareActive? || ev.DeclareNetwork?) && Possible(s, ev)
    requires Retiming.DeclaredSo(s.table, s.types, s'.table, s.suspendedPids, s.now, ev.pid, ev.id, DeclaredType(ev),
               ev.q, ev.given,
                                 DeclaredSeconds(s, ev), ev.DeclareActive?, ret, id')
    requires AllSameConfig(s.types, s'.types)
    requires s' == s.(table := s'.table, types := s'.types, derived := s'.derived, nextIndex := s'.nextIndex)
    ensures Stepped(s, ev, s')
  {
    hide AllSameConfig, HasFree, Retiming.Extended, Raised, Retiming.Asked, Retiming.AskedAnew, NewAssertion;
  }

  /** The name of an assertion that a declaration extends is its type's own. */
  lemma DeclarationAllowed(s: State, ev: Event)
    requires |s.types| == TYPE_COUNT && (ev.DeclareActive? || ev.DeclareNetwork?) && Possible(s, ev) && NamesAt(s)
    ensures Retiming.Declarable(s.table, ev.pid, ev.id, DeclaredType(ev), DeclaredProps(s, ev))
  {
  }

  method PerformDeclaration(e: Engine, ev: Event)
    requires e.Inv() && (ev.DeclareActive? || ev.DeclareNetwork?) && Possible(StateOf(e), ev) && NamesAt(StateOf(e))
    modifies e
    ensures e.Inv() && Stepped(old(StateOf(e)), ev, StateOf(e))
  {
    hide SoundAt, TimersAt, HouseAt, DerivesAt, ViewOf, Handle, AllSameConfig, Stepped, Retiming.DeclaredSo, NamesAt,
         Retiming.Declarable;
    ghost var s := StateOf(e);
    DeclarationAllowed(s, ev);
    var ret, id';
    if ev.DeclareActive? {
      ret, id' := Retiming.DeclareUserActive(e, ev.pid, ev.id, ev.q, ev.given);
    } else {
      ret, id' := Retiming.DeclareNetworkClient(e, ev.pid, ev.id, ev.q, ev.given);
    }
    DeclarationStepped(s, StateOf(e), ev, ret, id');
  }

  // ---- timers --------------------------------------------------------------------------

  /** A timeout run of type `k`. */
  lemma RunStepped(s: State, s': State, ev: Event, k: TypeId, n: nat, displayProxy: bool)
    requires InvAt(s) && InvAt(s') && (ev == TimerGoesOff(k) || ev == RunStarts(k)) && Possible(s, ev)
    requires RunResult(s.table, s.types, s'.table, s'.types, k, n, displayProxy, s.now, if displayProxy
               then s'.proxy else None, s.powerd)
    requires !displayProxy ==> s'.proxy == s.proxy
    requires ProxyFrom(s.proxy, s'.proxy, Outlasting(s.table, k, s.now)) && AllSameConfig(s.types, s'.types)
    requires displayProxy && s.CanHandOff() ==> s'.HandedOff()
    requires TimersAfter(s, ev, s')
    requires s' == s.(table := s'.table, types := s'.types, derived := s'.derived, nextIndex := s'.nextIndex,
               proxy := s'.proxy)
    ensures Stepped(s, ev, s')
  {
    hide TimersAt, DerivesAt, AllSameConfig, HasFree, RunResult, ProxyFrom, Become, Appear, Staying, Outlasting;
    OutlastingFacts(s.table, s.types, s.exact, k, s.now);
    hide SoundAt, HouseAt;
    ProxyElsewhere(s');
    RunHandsOff(s, s', ev, k, n, displayProxy);
    RunEntries(s, s', ev, k, n, displayProxy);
    RunProxy(s, s', ev, k);
  }

  lemma ProxyElsewhere(s: State)
    requires InvAt(s)
    ensures forall j :: j in s.types[PREVENT_DISPLAY_SLEEP].timed ==> s.proxy != Some(j)
  {
    TimedFacts(s.table, s.types, {}, s.exact, PREVENT_DISPLAY_SLEEP);
  }

  lemma RunEntries(s: State, s': State, ev: Event, k: TypeId, n: nat, displayProxy: bool)
    requires |s.types| == TYPE_COUNT && (ev == TimerGoesOff(k) || ev == RunStarts(k)) && Possible(s, ev)
    requires forall j :: j in s.table ==> (j in s.types[k].timed <==> s.table[j].kassert == k && s.table[j].timed)
    requires RunResult(s.table, s.types, s'.table, s'.types, k, n, displayProxy, s.now, if displayProxy
               then s'.proxy else None, s.powerd)
    requires ProxyFrom(s.proxy, s'.proxy, Outlasting(s.table, k, s.now)) && (!displayProxy ==> s'.proxy == s.proxy)
    requires displayProxy <==> HandsOff(s, ev)
    ensures Become(s, ev, s') && Appear(s, ev, s')
  {
    hide HandsOff;
    forall j | j in s.table && (s.proxy != Some(j) || !HandsOff(s, ev))
      ensures match After(s, ev, j, s.table[j])
              case Some(b) => j in s'.table && s'.table[j] == b
              case None => j !in s'.table || (s'.proxy == Some(j) && HandsOff(s, ev))
    {
      assert s.proxy != Some(j) && s'.proxy == Some(j) ==> j !in Outlasting(s.table, k, s.now);
    }
  }

  lemma RunProxy(s: State, s': State, ev: Event, k: TypeId)
    requires |s.types| == TYPE_COUNT && (ev == TimerGoesOff(k) || ev == RunStarts(k))
    requires ProxyFrom(s.proxy, s'.proxy, Outlasting(s.table, k, s.now))
    ensures ProxyFrom(s.proxy, s'.proxy, Staying(s, ev))
  {
  }

  lemma TailHas(l: seq<Index>, n: nat)
    requires n <= |l|
    ensures forall m :: n <= m < |l| ==> l[m] in l[n..]
  {
    assert forall m :: n <= m < |l| ==> l[n..][m - n] == l[m];
  }

  /** A client's expired display assertion is among those the run took off the list. */
  lemma RunHandsOff(s: State, s': State, ev: Event, k: TypeId, n: nat, displayProxy: bool)
    requires |s.types| == TYPE_COUNT && (ev == TimerGoesOff(k) || ev == RunStarts(k))
    requires forall j :: j in s.table ==> (j in s.types[k].timed <==> s.table[j].kassert == k && s.table[j].timed)
    requires RunResult(s.table, s.types, s'.table, s'.types, k, n, displayProxy, s.now, if displayProxy then s'.proxy
               else None, s.powerd)
    requires |s'.types| == TYPE_COUNT
    requires forall j :: j in s'.types[PREVENT_DISPLAY_SLEEP].timed ==> s'.proxy != Some(j)
    ensures displayProxy <==> HandsOff(s, ev)
  {
    if displayProxy {
      var m :| 0 <= m < n && s.types[k].timed[m] in s.table && s.table[s.types[k].timed[m]].pid != s.powerd;
      assert s.types[k].timed[m] in s.types[k].timed;
    }
    if HandsOff(s, ev) {
      ExpiryHandsOff(s, s', k, n, displayProxy);
    }
  }

  lemma ExpiryHandsOff(s: State, s': State, k: TypeId, n: nat, displayProxy: bool)
    requires |s.types| == TYPE_COUNT && k == PREVENT_DISPLAY_SLEEP && ClientExpires(s)
    requires forall j :: j in s.table ==> (j in s.types[k].timed <==> s.table[j].kassert == k && s.table[j].timed)
    requires RunResult(s.table, s.types, s'.table, s'.types, k, n, displayProxy, s.now, if displayProxy then s'.proxy
               else None, s.powerd)
    requires |s'.types| == TYPE_COUNT && forall j :: j in s'.types[k].timed ==> s'.proxy != Some(j)
    ensures displayProxy
  {
    var j :| j in s.table && s.table[j].kassert == k && s.table[j].timed && s.table[j].timeout <= s.now
        && s.table[j].pid != s.powerd;
    var l := s.types[k].timed;
    var m :| 0 <= m < |l| && l[m] == j;
    TailHas(l, n);
  }

  method PerformRun(e: Engine, ev: Event, k: TypeId)
    requires e.Inv() && (ev == TimerGoesOff(k) || ev == RunStarts(k)) && Possible(StateOf(e), ev)
    modifies e
    ensures e.Inv() && Stepped(old(StateOf(e)), ev, StateOf(e))
  {
    hide SoundAt, TimersAt, HouseAt, DerivesAt, ViewOf, Handle, AllSameConfig, Stepped, RunResult, Outlasting,
         ProxyFrom, HasFree, InvAt;
    ghost var s := StateOf(e);
    InvIsInvAt(e);
    var n, displayProxy;
    if ev.TimerGoesOff? {
      n, displayProxy := e.TimerFires(k);
    } else {
      n, displayProxy := e.QueuedRun(k);
    }
    InvIsInvAt(e);
    RunStepped(s, StateOf(e), ev, k, n, displayProxy);
  }

  // ---- processes -----------------------------------------------------------------------

  lemma ExitStepped(s: State, s': State, dead: Pid)
    requires InvAt(s) && Possible(s, ProcessExits(dead))
    requires ProcessExit.OnlyDead(s.table, s'.table, {}, dead, s'.proxy) && forall i :: i in s'.table ==>
               s'.table[i].pid != dead
    requires ProxyFrom(s.proxy, s'.proxy, ProcessExit.Survivors(s.table, dead)) && AllSameConfig(s.types, s'.types)
    requires s'.exact == s.exact - ProcessExit.LostAtExit(s.table, dead)
    requires |s'.types| == TYPE_COUNT && forall t: TypeId :: t in BATTERY_TYPES ==>
               s'.types[t].validCnt == ProcessExit.Down(s.types[t].validCnt, |ProcessExit.Off(s.table, dead, t)|)
    requires s.CanHandOff() && ProcessExit.LiveDisplay(s.table, dead) ==> s'.HandedOff()
    requires ProcessExit.Quiet(ProcessExit.LiveDisplay(s.table, dead), s.proxy, s.table, s'.proxy, s'.table)
    requires s' == s.(table := s'.table, types := s'.types, derived := s'.derived, nextIndex := s'.nextIndex,
               proxy := s'.proxy, exact := s'.exact)
    ensures Stepped(s, ProcessExits(dead), s')
  {
    hide SoundAt, TimersAt, DerivesAt, AllSameConfig, HasFree, ProcessExit.LiveDisplay, ProcessExit.LostAtExit, IsProxy;
    var ev := ProcessExits(dead);
    assert ProcessExit.Survivors(s.table, dead) == Staying(s, ev);
    assert forall j :: j in s.table && s.table[j].pid != dead && s.proxy != Some(j) ==> s'.proxy != Some(j);
  }

  method PerformExit(e: Engine, dead: Pid)
    requires e.Inv() && Possible(StateOf(e), ProcessExits(dead))
    modifies e
    ensures e.Inv() && Stepped(old(StateOf(e)), ProcessExits(dead), StateOf(e))
  {
    hide SoundAt, TimersAt, HouseAt, DerivesAt, ViewOf, Handle, AllSameConfig, Stepped, ProxyFrom, HasFree, InvAt,
         ProcessExit.OnlyDead, ProcessExit.Survivors, ProcessExit.LostAtExit, ProcessExit.LiveDisplay,
             ProcessExit.ListsFiltered;
    ghost var s := StateOf(e);
    InvIsInvAt(e);
    ProcessExit.HandleProcessExit(e, dead);
    ExitStepped(s, StateOf(e), dead);
  }

  lemma SuspendStepped(s: State, s': State, pid: Pid, known: bool)
    requires InvAt(s) && Possible(s, ProcessSuspends(pid, known))
    requires !known || pid in s.suspendedPids ==> s'.table == s.table && s'.suspendedPids == s.suspendedPids
    requires known && pid !in s.suspendedPids ==>
               && s'.suspendedPids == s.suspendedPids + {pid}
               && Suspension.SuspendedSo(s.table, s'.table, Suspension.Taken(s.table, pid), s.now, s'.proxy)
    requires ProxyFrom(s.proxy, s'.proxy, s.table.Keys) && AllSameConfig(s.types, s'.types)
    requires HandsOff(s, ProcessSuspends(pid, known)) && s.CanHandOff() ==> s'.HandedOff()
    requires !known || pid in s.suspendedPids ==> s'.proxy == s.proxy
    requires known && pid !in s.suspendedPids && !HandsOff(s, ProcessSuspends(pid, known)) ==>
               ProcessExit.Quiet(false, s.proxy, s.table, s'.proxy, s'.table)
    requires s' == s.(table := s'.table, types := s'.types, derived := s'.derived, nextIndex := s'.nextIndex,
               proxy := s'.proxy,
                      suspendedPids := s'.suspendedPids)
    ensures Stepped(s, ProcessSuspends(pid, known), s')
  {
    hide SoundAt, TimersAt, DerivesAt, AllSameConfig, HasFree, IsProxy, SuspendedForm, Suspension.DisplayAmong;
    assert known ==> s'.suspendedPids == s.suspendedPids + {pid};
  }

  method PerformSuspend(e: Engine, pid: Pid, known: bool)
    requires e.Inv() && Possible(StateOf(e), ProcessSuspends(pid, known))
    modifies e
    ensures e.Inv() && Stepped(old(StateOf(e)), ProcessSuspends(pid, known), StateOf(e))
  {
    hide SoundAt, TimersAt, HouseAt, DerivesAt, ViewOf, Handle, AllSameConfig, Stepped, ProxyFrom, InvAt,
         Suspension.SuspendedSo, Suspension.Taken, Suspension.DisplayAmong, HasFree;
    ghost var s := StateOf(e);
    InvIsInvAt(e);
    Suspension.HandleSuspend(e, pid, known);
    SuspendStepped(s, StateOf(e), pid, known);
  }

  lemma ResumeStepped(s: State, s': State, pid: Pid)
    requires |s.types| == TYPE_COUNT
    requires s'.table == s.table || (pid in s.suspendedPids && Suspension.ResumedSo(s.table, s'.table,
               Suspension.Held(s.table, pid), s.now))
    requires pid in s.suspendedPids ==> Suspension.ResumedSo(s.table, s'.table, Suspension.Held(s.table, pid), s.now)
    requires AllSameConfig(s.types, s'.types) && s'.suspendedPids == s.suspendedPids - {pid}
    requires Suspension.UnflaggedKept(s.types, s'.types)
    requires s.exact - Miscounts(s, ProcessResumes(pid)) == s'.exact
    requires s' == s.(table := s'.table, types := s'.types, derived := s'.derived, suspendedPids := s'.suspendedPids,
               exact := s'.exact)
    ensures Stepped(s, ProcessResumes(pid), s')
  {
    hide AllSameConfig, ResumedForm, Suspension.LostBy, Suspension.Flagged;
  }

  method PerformResume(e: Engine, pid: Pid)
    requires e.Inv()
    modifies e
    ensures e.Inv() && Stepped(old(StateOf(e)), ProcessResumes(pid), StateOf(e))
  {
    hide Engine.Inv, InvAt, SoundAt, TimersAt, HouseAt, DerivesAt, ViewOf, Handle, AllSameConfig, Stepped,
         Suspension.ResumedSo, Suspension.Held, Suspension.LostBy, Suspension.Flagged;
    ghost var s := StateOf(e);
    SizeNow(e);
    Suspension.HandleResume(e, pid);
    SizeNow(e);
    ResumeStepped(s, StateOf(e), pid);
  }

  lemma SizeNow(e: Engine)
    requires e.Inv()
    ensures |e.types| == TYPE_COUNT
  {
  }

  // ---- configuration, power source, settings -------------------------------------------

  lemma SourceStepped(s: State, s': State, source: bool, w: Surroundings)
    requires |s.types| == |s'.types| == TYPE_COUNT
    requires source == s.onBatt ==> s'.table == s.table && s'.types == s.types
    requires source != s.onBatt ==>
               && CappedSo(s.table, s'.table, Live(s.table, INTERACTIVE_PUSH),
                    s'.types[INTERACTIVE_PUSH].autoTimeout + s.now)
               && SwitchedSo(s.types, s'.types, w, source, s.backgroundDisabled)
    requires s' == Scalars(s, PowerSource(source, w)).(table := s'.table, types := s'.types, derived := s'.derived)
    ensures Stepped(s, PowerSource(source, w), s')
  {
    hide Choose, InteractiveAlias, BackgroundAfter, AllSameConfig, ProxyFrom, HandsOff, Miscounts, Counters,
         TimersAfter;
    NothingElse(s, PowerSource(source, w), s');
    SourceTypes(s, s', source, w);
    if source != s.onBatt {
      PushCapIs(s, source, w);
    }
    SourceProxy(s, s', source, w);
    hide ForSource, PushCap;
  }

  lemma PushCapIs(s: State, source: bool, w: Surroundings)
    requires |s.types| == TYPE_COUNT
    ensures ForSource(s.types, w, source, s.backgroundDisabled)[INTERACTIVE_PUSH].autoTimeout + s.now
              == PushCap(s, source, w)
  {
    hide Choose;
  }

  lemma SourceTypes(s: State, s': State, source: bool, w: Surroundings)
    requires |s.types| == |s'.types| == TYPE_COUNT
    requires source == s.onBatt ==> s'.types == s.types
    requires source != s.onBatt ==>
               SwitchedSo(s.types, s'.types, w, source, s.backgroundDisabled)
    ensures AllSameConfig(TypesAfter(s, PowerSource(source, w)), s'.types)
  {
    hide ForSource;
    var r := TypesAfter(s, PowerSource(source, w));
    SameIsSame(r);
    OneConfigured(r, r, s'.types, INTERACTIVE_PUSH);
  }

  lemma SourceProxy(s: State, s': State, source: bool, w: Surroundings)
    requires s'.proxy == s.proxy
    ensures |s.types| == TYPE_COUNT ==> ProxyFrom(s.proxy, s'.proxy, Staying(s, PowerSource(source, w)))
  {
  }

  method PerformSource(e: Engine, source: bool, w: Surroundings)
    requires e.Inv()
    modifies e
    ensures e.Inv() && Stepped(old(StateOf(e)), PowerSource(source, w), StateOf(e))
  {
    hide Engine.Inv, InvAt, SwitchedSo, InteractiveAlias, ForSource, SoundAt, TimersAt, HouseAt, DerivesAt, ViewOf,
         Handle, Stepped, CappedSo, Live, Choose;
    ghost var s := StateOf(e);
    SizeNow(e);
    PowerSourceChanged(e, source, w);
    SizeNow(e);
    SourceStepped(s, StateOf(e), source, w);
  }

  lemma ConfiguredStepped(s: State, s': State, ev: Event)
    requires |s.types| == TYPE_COUNT && (ev.Configured? || ev.Disabled? || ev.Enabled?)
    requires s'.table == s.table && s'.types == TypesAfter(s, ev)
    requires s' == Scalars(s, ev).(types := s'.types, derived := s'.derived)
    ensures Stepped(s, ev, s')
  {
    hide TypesAfter, BackgroundAfter, PushAlias, InteractiveAlias;
    SameIsSame(s'.types);
    hide AllSameConfig;
  }

  method PerformConfigured(e: Engine, k: TypeId, w: Surroundings)
    requires e.Inv()
    modifies e
    ensures e.Inv() && Stepped(old(StateOf(e)), Configured(k, w), StateOf(e))
  {
    hide Engine.Inv, InvAt, SoundAt, TimersAt, HouseAt, DerivesAt, ViewOf, Handle, Choose, Configure, Stepped,
         SameLists, SameConfig, PushAlias, InteractiveAlias;
    ghost var s := StateOf(e);
    SizeNow(e);
    ConfigAssertionType(e, k, w);
    SizeNow(e);
    ConfiguredStepped(s, StateOf(e), Configured(k, w));
  }

  method PerformDisabled(e: Engine, k: TypeId, w: Surroundings)
    requires e.Inv()
    modifies e
    ensures e.Inv() && Stepped(old(StateOf(e)), Disabled(k, w), StateOf(e))
  {
    hide Engine.Inv, InvAt, SoundAt, TimersAt, HouseAt, DerivesAt, ViewOf, Handle, Choose, Configure, Stepped,
         SameLists, SameConfig,
         PushAlias, InteractiveAlias;
    ghost var s := StateOf(e);
    SizeNow(e);
    DisableAssertionType(e, k, w);
    ConfiguredStepped(s, StateOf(e), Disabled(k, w));
  }

  method PerformEnabled(e: Engine, k: TypeId, w: Surroundings)
    requires e.Inv()
    modifies e
    ensures e.Inv() && Stepped(old(StateOf(e)), Enabled(k, w), StateOf(e))
  {
    hide Engine.Inv, InvAt, SoundAt, TimersAt, HouseAt, DerivesAt, ViewOf, Handle, Choose, Configure, Stepped,
         SameLists, SameConfig,
         PushAlias, InteractiveAlias;
    ghost var s := StateOf(e);
    SizeNow(e);
    EnableAssertionType(e, k, w);
    ConfiguredStepped(s, StateOf(e), Enabled(k, w));
  }

  lemma SettingStepped(s: State, s': State, ev: Event)
    requires |s.types| == TYPE_COUNT && (ev.DisplaySleep? || ev.IdleSleep?)
    requires ev.DisplaySleep? ==>
               if ev.minutes == s.displayTimer then s'.table == s.table
               else Retiming.RetimedSo(s.table, s'.table, DECLARE_USER_ACTIVITY, ev.minutes != 0,
                   Retiming.DisplayChange(ev.minutes, s.displayTimer),
                                       s.now + Retiming.DisplaySeconds(ev.minutes), s.now)
    requires ev.IdleSleep? ==>
               if Retiming.IdleChange(ev.minutes, s.idleTimer) == 0 then s'.table == s.table
               else Retiming.RetimedSo(s.table, s'.table, NETWORK_ACCESS, ev.minutes != 0,
                   Retiming.IdleChange(ev.minutes, s.idleTimer),
                                       s.now + Retiming.IdleSeconds(ev.minutes), s.now)
    requires AllSameConfig(s.types, s'.types)
    requires s' == Scalars(s, ev).(table := s'.table, types := s'.types, derived := s'.derived)
    ensures Stepped(s, ev, s')
  {
    hide AllSameConfig, Retiming.Retimed, Retiming.DisplayChange, Retiming.IdleChange, Retiming.DisplaySeconds,
         Retiming.IdleSeconds, Staying, HandsOff, Miscounts, Counters, TimersAfter;
    NothingElse(s, ev, s');
  }

  /** A setting or the power source hands no display over, miscounts nothing and starts no run. */
  lemma NothingElse(s: State, ev: Event, s': State)
    requires |s.types| == TYPE_COUNT && (ev.DisplaySleep? || ev.IdleSleep? || ev.PowerSource?)
    ensures !HandsOff(s, ev) && s.exact - Miscounts(s, ev) == s.exact && Counters(s, ev, s') && TimersAfter(s, ev, s')
  {
  }

  method PerformSetting(e: Engine, ev: Event)
    requires e.Inv() && (ev.DisplaySleep? || ev.IdleSleep?)
    modifies e
    ensures e.Inv() && Stepped(old(StateOf(e)), ev, StateOf(e))
  {
    hide SoundAt, TimersAt, HouseAt, DerivesAt, ViewOf, Handle, AllSameConfig, Retiming.RetimedSo,
         Retiming.DisplayChange, Retiming.IdleChange, Stepped;
    ghost var s := StateOf(e);
    if ev.DisplaySleep? {
      Retiming.EvalAllUserActivity(e, ev.minutes);
    } else {
      Retiming.EvalAllNetworkAccess(e, ev.minutes);
    }
    SettingStepped(s, StateOf(e), ev);
  }

  method PerformTick(e: Engine, seconds: nat)
    requires e.Inv()
    modifies e
    ensures e.Inv() && Stepped(old(StateOf(e)), TimePasses(seconds), StateOf(e))
  {
    hide SoundAt, TimersAt, HouseAt, DerivesAt, ViewOf, AllSameConfig;
    SameIsSame(e.types);
    e.Tick(e.now + seconds);
  }

  // ---- names ---------------------------------------------------------------------------

  lemma NameKept(s: State, ev: Event, j: Index, a: Assertion)
    requires |s.types| == TYPE_COUNT && NamesAt(s) && NameFits(a)
    ensures After(s, ev, j, a).Some? ==> NameFits(After(s, ev, j, a).value)
  {
    hide After;
    AfterKind(s, ev, j, a);
  }

  lemma NewNameFits(s: State, ev: Event)
    requires |s.types| == TYPE_COUNT && NamesAt(s) && Possible(s, ev) && Creates(s, ev)
    ensures NameFits(NewRecord(s, ev))
  {
    hide EffectiveTimeout;
  }

  /** Every step keeps the names of the assertions right. */
  lemma NamesStep(s: State, ev: Event, s': State)
    requires InvAt(s) && NamesAt(s) && Stepped(s, ev, s') && InvAt(s')
    ensures NamesAt(s')
  {
    hide InvAt, Stepped, Possible, After, NewRecord, Creates, NameFits;
    SizeOf(s);
    if Possible(s, ev) {
      ProxyNamed(s');
      AliasesStep(s, ev, s');
      forall j | j in s'.table ensures NameFits(s'.table[j]) {
        if s'.proxy != Some(j) {
          Origin(s, ev, s', j);
          if j in s.table && After(s, ev, j, s.table[j]) == Some(s'.table[j]) {
            NameKept(s, ev, j, s.table[j]);
          } else {
            NewNameFits(s, ev);
          }
        }
      }
    } else {
      NotPossibleSame(s, ev, s');
    }
  }

  lemma AliasesStep(s: State, ev: Event, s': State)
    requires NamesAt(s) && Stepped(s, ev, s') && Possible(s, ev)
    ensures s'.pushAlias in {PUSH_SERVICE_TASK, BACKGROUND_TASK}
              && s'.interactiveAlias in {PUSH_SERVICE_TASK, INTERACTIVE_PUSH}
  {
    hide Possible, Become, Appear, Staying, Miscounts, Counters, HandsOff, TypesAfter, AllSameConfig, ProxyFrom,
         NameFits,
         BackgroundAfter;
  }

  lemma ProxyNamed(s: State)
    requires InvAt(s)
    ensures s.proxy.Some? ==> s.proxy.value in s.table && NameFits(s.table[s.proxy.value])
  {
    hide SoundAt, TimersAt, DerivesAt;
  }

  // ---- runs ----------------------------------------------------------------------------

  /** One event; impossible ones are passed over. */
  method Perform(e: Engine, ev: Event)
    requires e.Inv() && NamesAt(StateOf(e))
    modifies e
    ensures e.Inv() && NamesAt(StateOf(e)) && Stepped(old(StateOf(e)), ev, StateOf(e))
  {
    hide SoundAt, TimersAt, HouseAt, DerivesAt, ViewOf, NamesAt, InvAt;
    ghost var s := StateOf(e);
    InvIsInvAt(e);
    if Possible(Visible(e), ev) {
      hide Stepped;
      match ev {
        case Create(pid, q) => PerformCreate(e, pid, q);
        case DeclareActive(_, _, _, _) => PerformDeclaration(e, ev);
        case DeclareNetwork(_, _, _, _) => PerformDeclaration(e, ev);
        case Retain(pid, id) => PerformRetain(e, pid, id);
        case ReleaseOne(pid, id) => PerformRelease(e, pid, id);
        case SetProperties(pid, id, props) => PerformUpdate(e, pid, id, props);
        case TimePasses(seconds) => PerformTick(e, seconds);
        case TimerGoesOff(k) => PerformRun(e, ev, k);
        case RunStarts(k) => PerformRun(e, ev, k);
        case ProcessExits(pid) => PerformExit(e, pid);
        case ProcessSuspends(pid, known) => PerformSuspend(e, pid, known);
        case ProcessResumes(pid) => PerformResume(e, pid);
        case PowerSource(source, w) => PerformSource(e, source, w);
        case Configured(k, w) => PerformConfigured(e, k, w);
        case Disabled(k, w) => PerformDisabled(e, k, w);
        case Enabled(k, w) => PerformEnabled(e, k, w);
        case DisplaySleep(_) => PerformSetting(e, ev);
        case IdleSleep(_) => PerformSetting(e, ev);
      }
    }
    InvIsInvAt(e);
    NamesStep(s, ev, StateOf(e));
  }

  lemma RunsStart(s: State)
    requires InvAt(s) && NamesAt(s)
    ensures Runs([s], [])
  {
  }

  lemma RunsSnoc(trace: seq<State>, events: seq<Event>, ev: Event, s: State)
    requires Runs(trace, events) && Stepped(trace[|events|], ev, s) && InvAt(s) && NamesAt(s)
    ensures Runs(trace + [s], events + [ev])
  {
    hide InvAt, NamesAt, Stepped;
    var t, evs := trace + [s], events + [ev];
    forall n | 0 <= n < |evs| ensures Stepped(t[n], evs[n], t[n + 1]) {
      if n < |events| {
        assert t[n] == trace[n] && t[n + 1] == trace[n + 1] && evs[n] == events[n];
      } else {
        assert t[n] == trace[|events|] && t[n + 1] == s && evs[n] == ev;
      }
    }
  }

  /** Any events in any order.  `trace` holds the state before the first event and after each one: every state
      satisfies the invariants, and every step is what its event makes of the state before. */
  method Run(e: Engine, events: seq<Event>) returns (ghost trace: seq<State>)
    requires e.Inv() && NamesAt(StateOf(e))
    modifies e
    ensures e.Inv() && Runs(trace, events) && trace[0] == old(StateOf(e)) && trace[|events|] == StateOf(e)
  {
    hide SoundAt, TimersAt, HouseAt, DerivesAt, ViewOf, NamesAt, InvAt, Stepped;
    InvIsInvAt(e);
    trace := [StateOf(e)];
    RunsStart(StateOf(e));
    assert events[..0] == [];
    for n := 0 to |events|
      invariant e.Inv() && NamesAt(StateOf(e)) && Runs(trace, events[..n])
      invariant trace[0] == old(StateOf(e)) && trace[n] == StateOf(e)
    {
      Perform(e, events[n]);
      InvIsInvAt(e);
      RunsSnoc(trace, events[..n], events[n], StateOf(e));
      assert events[..n + 1] == events[..n] + [events[n]];
      trace := trace + [StateOf(e)];
    }
    assert events[..|events|] == events;
  }

  /** The state a run from boot starts in. */
  ghost predicate AtBoot(s: State, powerd: Pid, now: nat, onBatt: bool, displayTimer: nat, idleTimer: nat,
                         w: Surroundings) {
    && s.table == map[] && s.types == InitialTypes(w, onBatt) && s.suspendedPids == {} && s.proxy.None?
    && s.exact == BATTERY_TYPES
    && s.powerd == powerd && s.now == now && s.onBatt == onBatt && s.displayTimer == displayTimer
    && s.idleTimer == idleTimer
    && s.pushAlias == (if w.sleepServiceWake then PUSH_SERVICE_TASK else BACKGROUND_TASK)
    && s.interactiveAlias == INTERACTIVE_PUSH && (s.backgroundDisabled <==> w.darkWakeTasks && !w.maintenanceWake)
    && s.nextIndex == 0 && s.derived == Derived({}, {}, {})
  }

  /** The same from boot on. */
  method RunFromBoot(powerd: Pid, now: nat, onBatt: bool, displayTimer: nat, idleTimer: nat, w: Surroundings,
                     events: seq<Event>)
    returns (e: Engine, ghost trace: seq<State>)
    requires w.sleepServiceWake ==> w.keepAlive
    ensures fresh(e) && e.Inv() && NamesAt(StateOf(e)) && Runs(trace, events) && trace[|events|] == StateOf(e)
    ensures AtBoot(trace[0], powerd, now, onBatt, displayTimer, idleTimer, w)
  {
    hide SoundAt, TimersAt, HouseAt, DerivesAt, ViewOf, InvAt, Stepped, InitialTypes;
    e := Boot(powerd, now, onBatt, displayTimer, idleTimer, w);
    trace := Run(e, events);
  }
}
