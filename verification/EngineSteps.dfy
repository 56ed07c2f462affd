/**
 One step of the assertion engine, seen from outside: what every event does to every assertion, to the
 configuration of the types and to the rest of the state.
 */
module EngineSteps {
  import opened Common
  import opened EffectMirror
  import opened AssertionLists
  import opened AssertionEngine
  import opened Reconfiguration
  import ProcessExit
  import Suspension
  import Retiming

  /** The engine's state between operations.  `exact` names the types whose counter is known to be exact. */
  datatype State = State(
    table: Table, types: Types, derived: Derived, now: nat, onBatt: bool, nextIndex: nat, suspendedPids: set<Pid>,
    proxy: Option<Index>, displayTimer: nat, idleTimer: nat, pushAlias: TypeId, interactiveAlias: TypeId,
    backgroundDisabled: bool, powerd: Pid, exact: set<TypeId>)
  {
    function Resolve(name: TypeName): TypeId {
      match name
      case Fixed(t) => t
      case ApplePushServiceTask => pushAlias
      case InteractivePushServiceTask => interactiveAlias
    }

    /** powerd has its proxy, or there is a free index for one. */
    ghost predicate CanHandOff() {
      proxy.Some? || HasFree(table)
    }

    /** powerd's proxy is raised for five minutes, or for the display setting when that is shorter. */
    ghost predicate HandedOff() {
      && proxy.Some? && proxy.value in table && table[proxy.value].timed
      && table[proxy.value].timeout == now + 60 * (if displayTimer == 0 || displayTimer > 5 then 5 else displayTimer)
    }
  }

  /** The part of the state that is no bookkeeping of the proof. */
  function Visible(e: Engine): State
    reads e
  {
    State(e.table, e.types, Derived(e.ker, e.overrides, e.agg), e.now, e.onBatt, e.nextIndex, e.suspendedPids, e.proxy,
          e.displayTimer, e.idleTimer, e.pushAlias, e.interactiveAlias, e.backgroundDisabled, e.powerd, {})
  }

  ghost function StateOf(e: Engine): State
    reads e
  {
    Visible(e).(exact := e.exact)
  }

  /** What holds between operations. */
  ghost predicate InvAt(s: State) {
    && |s.types| == TYPE_COUNT && SoundAt(s.table, s.types, {}, s.exact) && TimersAt(s.table, s.types, s.now, -1)
    && DerivesAt(s.types, s.onBatt, s.derived, -1)
    && HouseAt(s.table, {}, s.suspendedPids, s.proxy, s.powerd, s.nextIndex)
  }

  lemma SizeOf(s: State)
    requires InvAt(s)
    ensures |s.types| == TYPE_COUNT
  {
  }

  lemma InvIsInvAt(e: Engine)
    requires e.Inv()
    ensures InvAt(StateOf(e))
  {
    hide SoundAt, TimersAt, DerivesAt, HouseAt;
    assert e.suspendedPids + e.suspending == e.suspendedPids;
  }

  /** The type of an assertion is the one its name stands for, now or before a redirection changed. */
  predicate NameFits(a: Assertion) {
    match a.name
    case Fixed(t) => a.kassert == t
    case ApplePushServiceTask => a.kassert in {PUSH_SERVICE_TASK, BACKGROUND_TASK}
    case InteractivePushServiceTask => a.kassert in {PUSH_SERVICE_TASK, INTERACTIVE_PUSH}
  }

  ghost predicate NamesAt(s: State) {
    && s.pushAlias in {PUSH_SERVICE_TASK, BACKGROUND_TASK}
    && s.interactiveAlias in {PUSH_SERVICE_TASK, INTERACTIVE_PUSH}
    && forall j :: j in s.table ==> NameFits(s.table[j])
  }

  datatype Event =
    | Create(pid: Pid, q: Request)
    | DeclareActive(pid: Pid, id: nat, q: Request, given: Props)
    | DeclareNetwork(pid: Pid, id: nat, q: Request, given: Props)
    | Retain(pid: Pid, id: nat)
    | ReleaseOne(pid: Pid, id: nat)
    | SetProperties(pid: Pid, id: nat, props: Props)
    | TimePasses(seconds: nat)
    | TimerGoesOff(k: TypeId)
    | RunStarts(k: TypeId)
    | ProcessExits(pid: Pid)
    | ProcessSuspends(pid: Pid, known: bool)
    | ProcessResumes(pid: Pid)
    | PowerSource(source: bool, w: Surroundings)
    | Configured(k: TypeId, w: Surroundings)
    | Disabled(k: TypeId, w: Surroundings)
    | Enabled(k: TypeId, w: Surroundings)
    | DisplaySleep(minutes: nat)
    | IdleSleep(minutes: nat)

  /** The type a declaration is about, the seconds its setting gives, and whether it sets them even when zero. */
  function DeclaredType(ev: Event): TypeId
    requires ev.DeclareActive? || ev.DeclareNetwork?
  {
    if ev.DeclareActive? then DECLARE_USER_ACTIVITY else NETWORK_ACCESS
  }

  function DeclaredSeconds(s: State, ev: Event): nat {
    if ev.DeclareActive? then Retiming.DisplaySeconds(s.displayTimer) else Retiming.IdleSeconds(s.idleTimer)
  }

  function DeclaredProps(s: State, ev: Event): Props
    requires ev.DeclareActive? || ev.DeclareNetwork?
  {
    Retiming.Asked(ev.given, DeclaredSeconds(s, ev), ev.DeclareActive?)
  }

  predicate Named(s: State, pid: Pid, id: nat) {
    IndexFromId(id) in s.table && s.table[IndexFromId(id)].pid == pid
  }

  predicate LevelOffWithTimeout(props: Props) {
    props.level == Some(Off) && props.timeout.Some?
  }

  /** Calls the engine is not meant to get, and timer events that cannot happen now. */
  predicate Possible(s: State, ev: Event) {
    |s.types| == TYPE_COUNT &&
    match ev
    case Create(_, q) => q.age <= s.now
    case DeclareActive(pid, id, q, _) =>
      q.age <= s.now
          && (Retiming.Extends(s.table, pid, id, DeclaredType(ev)) ==> !LevelOffWithTimeout(DeclaredProps(s, ev)))
    case DeclareNetwork(pid, id, q, _) =>
      q.age <= s.now
          && (Retiming.Extends(s.table, pid, id, DeclaredType(ev)) ==> !LevelOffWithTimeout(DeclaredProps(s, ev)))
    case ReleaseOne(pid, id) => !(s.proxy == Some(IndexFromId(id)) && pid == s.powerd)
    case SetProperties(pid, id, props) =>
      var i := IndexFromId(id);
      && !LevelOffWithTimeout(props) && !(s.proxy == Some(i) && pid == s.powerd)
      && (i in s.table && props.limitedPower.Some? && s.types[s.table[i].kassert].notValidOnBatt ==>
            PlaceOf(s.table[i]) in {Timed, Active})
    case TimerGoesOff(k) =>
      var timer := s.types[k].timer;
      timer.created && timer.armed.Some? && timer.armed.value <= s.now
    case RunStarts(k) => s.types[k].timer.runs > 0
    case ProcessExits(pid) => pid != s.powerd
    case ProcessSuspends(pid, _) => pid != s.powerd && pid != 0
    case _ => true
  }

  // ---- what an event does --------------------------------------------------------------

  /** Cap on interactive-push deadlines once the types are configured for the source. */
  function PushCap(s: State, source: bool, w: Surroundings): nat
    requires |s.types| == TYPE_COUNT
  {
    Choose(INTERACTIVE_PUSH, s.types[INTERACTIVE_PUSH], w, source, s.backgroundDisabled).autoTimeout + s.now
  }

  /** What becomes of assertion `j`, whose record is `a`: its next record, or None when it is released. */
  function After(s: State, ev: Event, j: Index, a: Assertion): Option<Assertion>
    requires |s.types| == TYPE_COUNT
  {
    match ev
    case DeclareActive(pid, id, _, _) => Some(AfterDeclaration(s, ev, j, a))
    case DeclareNetwork(pid, id, _, _) => Some(AfterDeclaration(s, ev, j, a))
    case Retain(pid, id) => Some(if j == IndexFromId(id) && a.pid == pid then a.(retain := a.retain + 1) else a)
    case ReleaseOne(pid, id) =>
      if !(j == IndexFromId(id) && a.pid == pid) then Some(a) else if a.retain > 1 then Some(a.(retain := a.retain - 1))
          else None
    case SetProperties(pid, id, props) =>
      if j == IndexFromId(id) && a.pid == pid && !Refused(s.suspendedPids, a)
          then Some(Updated(s.types, a, props, s.Resolve(a.name), s.now)) else Some(a)
    case TimerGoesOff(k) => AfterRun(s, k, a)
    case RunStarts(k) => AfterRun(s, k, a)
    case ProcessExits(pid) => if a.pid == pid then None else Some(a)
    case ProcessSuspends(pid, known) =>
      Some(if known && pid !in s.suspendedPids && !a.suspended && Concerns(a, pid) then SuspendedForm(a, s.now) else a)
    case ProcessResumes(pid) =>
        Some(if pid in s.suspendedPids && a.suspended && Concerns(a, pid) then ResumedForm(a, s.now) else a)
    case PowerSource(source, w) =>
      Some(if source != s.onBatt && a.kassert == INTERACTIVE_PUSH && PlaceOf(a) in {Timed, Active}
          then Capped(a, PushCap(s, source, w)) else a)
    case DisplaySleep(minutes) =>
      Some(if minutes != s.displayTimer && a.kassert == DECLARE_USER_ACTIVITY
           then Retiming.Retimed(a, minutes != 0, Retiming.DisplayChange(minutes, s.displayTimer),
               s.now + Retiming.DisplaySeconds(minutes), s.now) else a)
    case IdleSleep(minutes) =>
      Some(if Retiming.IdleChange(minutes, s.idleTimer) != 0 && a.kassert == NETWORK_ACCESS
           then Retiming.Retimed(a, minutes != 0, Retiming.IdleChange(minutes, s.idleTimer),
               s.now + Retiming.IdleSeconds(minutes), s.now) else a)
    case _ => Some(a)
  }

  function AfterDeclaration(s: State, ev: Event, j: Index, a: Assertion): Assertion
    requires |s.types| == TYPE_COUNT && (ev.DeclareActive? || ev.DeclareNetwork?)
  {
    if ev.id != 0 && j == IndexFromId(ev.id) && a.pid == ev.pid && a.kassert == DeclaredType(ev)
    then Retiming.Extended(s.types, a, DeclaredProps(s, ev), Refused(s.suspendedPids, a), s.now)
        else a
  }

  function AfterRun(s: State, k: TypeId, a: Assertion): Option<Assertion> {
    if !(a.kassert == k && a.timed && a.timeout <= s.now) then Some(a)
    else if a.action.ReleaseIt? || a.async then None
    else Some(a.(timed := false, inactive := true))
  }

  /** The event makes a new assertion. */
  ghost predicate Creates(s: State, ev: Event) {
    match ev
    case Create(pid, q) => pid !in s.suspendedPids && HasFree(s.table) && q.name.Some?
    case DeclareActive(pid, id, _, _) => !Retiming.Extends(s.table, pid, id, DeclaredType(ev))
        && pid !in s.suspendedPids && HasFree(s.table)
    case DeclareNetwork(pid, id, _, _) => !Retiming.Extends(s.table, pid, id, DeclaredType(ev))
        && pid !in s.suspendedPids && HasFree(s.table)
    case _ => false
  }

  function NewRecord(s: State, ev: Event): Assertion
    requires Possible(s, ev)
    requires (ev.Create? && ev.q.name.Some?) || ev.DeclareActive? || ev.DeclareNetwork?
  {
    if ev.Create? then
      var k := s.Resolve(ev.q.name.value);
      Raised(s.types[k], NewAssertion(ev.pid, ev.q.name.value, ev.q), k, s.now - ev.q.age)
    else
      var k := DeclaredType(ev);
          var q := Retiming.AskedAnew(ev.q, ev.given, k, DeclaredSeconds(s, ev), ev.DeclareActive?);
      Raised(s.types[k], NewAssertion(ev.pid, TypeName.Fixed(k), q), k, s.now - ev.q.age).(sysTimer := true)
  }

  /** The types an event makes miscount their valid-on-battery assertions: a suspended one is counted down a second
      time, or one is linked while its type counts none. */
  ghost function Miscounts(s: State, ev: Event): set<TypeId>
    requires |s.types| == TYPE_COUNT
  {
    match ev
    case ReleaseOne(pid, id) =>
      if Named(s, pid, id) && var a := s.table[IndexFromId(id)];
          a.retain <= 1 && a.suspended && a.validOnBatt && s.types[a.kassert].validCnt > 0
      then {s.table[IndexFromId(id)].kassert} else {}
    case SetProperties(pid, id, props) =>
      if Named(s, pid, id) && !Refused(s.suspendedPids, s.table[IndexFromId(id)]) then
        var a := s.table[IndexFromId(id)];
        Missed(s.types, WithProps(a, props, s.types[a.kassert].notValidOnBatt), PlanFor(a.inactive, props),
            s.Resolve(a.name))
      else {}
    case ProcessExits(pid) => ProcessExit.LostAtExit(s.table, pid)
    case ProcessResumes(pid) =>
      if pid in s.suspendedPids
          then Suspension.LostBy(s.table, Suspension.Flagged(s.types), Suspension.Held(s.table, pid)) else {}
    case _ => {}
  }

  /** A client's display assertion goes away, is switched off or is suspended with its process. */
  ghost predicate HandsOff(s: State, ev: Event)
    requires |s.types| == TYPE_COUNT
  {
    match ev
    case ReleaseOne(pid, id) =>
      Named(s, pid, id) && pid != s.powerd &&
      var a := s.table[IndexFromId(id)]; a.retain <= 1 && a.kassert == PREVENT_DISPLAY_SLEEP && !a.inactive
    case SetProperties(pid, id, props) =>
      Named(s, pid, id) && pid != s.powerd &&
      var a := s.table[IndexFromId(id)];
          !Refused(s.suspendedPids, a) && a.kassert == PREVENT_DISPLAY_SLEEP && PlanFor(a.inactive, props).TurnItOff?
    case TimerGoesOff(k) => k == PREVENT_DISPLAY_SLEEP && ClientExpires(s)
    case RunStarts(k) => k == PREVENT_DISPLAY_SLEEP && ClientExpires(s)
    case ProcessExits(pid) => ProcessExit.LiveDisplay(s.table, pid)
    case ProcessSuspends(pid, known) =>
      && known && pid !in s.suspendedPids
      && Suspension.DisplayAmong(s.table, Suspension.Taken(s.table, pid), s.powerd)
    case _ => false
  }

  ghost predicate ClientExpires(s: State) {
    exists j :: j in s.table && s.table[j].kassert == PREVENT_DISPLAY_SLEEP && s.table[j].timed
        && s.table[j].timeout <= s.now && s.table[j].pid != s.powerd
  }

  /** The types once the event has configured them; their lists, counters and timers aside. */
  function TypesAfter(s: State, ev: Event): (r: Types)
    requires |s.types| == TYPE_COUNT
    ensures |r| == TYPE_COUNT
  {
    match ev
    case Configured(k, w) =>
        s.types[k := Configure(s.types[k], Choose(k, s.types[k], w, s.onBatt, s.backgroundDisabled))]
    case Disabled(k, w) => s.types[k := DisabledType(k, s.types[k], w, s.onBatt, s.backgroundDisabled)]
    case Enabled(k, w) => s.types[k := EnabledType(k, s.types[k], w, s.onBatt, s.backgroundDisabled)]
    case PowerSource(source, w) => if source == s.onBatt then s.types
        else ForSource(s.types, w, source, s.backgroundDisabled)
    case _ => s.types
  }

  /** Whether the daemon has disabled background tasks itself, after the event. */
  function BackgroundAfter(s: State, ev: Event): bool
    requires |s.types| == TYPE_COUNT
  {
    var r := s.types;
    match ev
    case Configured(k, w) => Choose(k, r[k], w, s.onBatt, s.backgroundDisabled).backgroundDisabled
    case Disabled(k, w) =>
        Choose(k, r[k].(disableCnt := r[k].disableCnt + 1), w, s.onBatt, s.backgroundDisabled).backgroundDisabled
    case Enabled(k, w) =>
      Choose(k, r[k].(disableCnt := if r[k].disableCnt > 0 then r[k].disableCnt - 1 else 0), w, s.onBatt,
          s.backgroundDisabled).backgroundDisabled
    case PowerSource(source, w) =>
      if source == s.onBatt then s.backgroundDisabled
      else Choose(BACKGROUND_TASK, r[BACKGROUND_TASK], w, source, s.backgroundDisabled).backgroundDisabled
    case _ => s.backgroundDisabled
  }

  /** Clock, power source, settings, suspended processes and redirected names after the event. */
  function Scalars(s: State, ev: Event): State
    requires |s.types| == TYPE_COUNT
  {
    var b := s.(backgroundDisabled := BackgroundAfter(s, ev));
    match ev
    case TimePasses(seconds) => b.(now := s.now + seconds)
    case ProcessSuspends(pid, known) => b.(suspendedPids := if known then s.suspendedPids + {pid} else s.suspendedPids)
    case ProcessResumes(pid) => b.(suspendedPids := s.suspendedPids - {pid})
    case PowerSource(source, w) =>
      b.(onBatt := source, interactiveAlias := if source == s.onBatt then s.interactiveAlias
          else InteractiveAlias(INTERACTIVE_PUSH, w, s.interactiveAlias))
    case Configured(k, w) => b.(pushAlias := PushAlias(k, w, s.pushAlias),
        interactiveAlias := InteractiveAlias(k, w, s.interactiveAlias))
    case Disabled(k, w) => b.(pushAlias := PushAlias(k, w, s.pushAlias),
        interactiveAlias := InteractiveAlias(k, w, s.interactiveAlias))
    case Enabled(k, w) => b.(pushAlias := PushAlias(k, w, s.pushAlias),
        interactiveAlias := InteractiveAlias(k, w, s.interactiveAlias))
    case DisplaySleep(minutes) => b.(displayTimer := minutes)
    case IdleSleep(minutes) => b.(idleTimer := minutes)
    case _ => b
  }

  // ---- the step relation ---------------------------------------------------------------

  /** Every assertion becomes what the event makes of it, powerd's proxy too unless the display is handed over. */
  ghost predicate Become(s: State, ev: Event, s': State)
    requires |s.types| == TYPE_COUNT
  {
    forall j :: j in s.table && (s.proxy != Some(j) || !HandsOff(s, ev)) ==>
      match After(s, ev, j, s.table[j])
      case Some(b) => j in s'.table && s'.table[j] == b
      case None => j !in s'.table || (s'.proxy == Some(j) && HandsOff(s, ev) && !ev.ReleaseOne?)
  }

  /** A new assertion appears exactly when the event creates one; powerd's proxy may be new when the display is
      handed over. */
  ghost predicate Appear(s: State, ev: Event, s': State)
    requires Possible(s, ev)
  {
    if Creates(s, ev)
        then exists i :: i !in s.table && s'.table.Keys == s.table.Keys + {i} && s'.table[i] == NewRecord(s, ev)
    else forall j :: j in s'.table ==> j in s.table || (s'.proxy == Some(j) && HandsOff(s, ev))
  }

  /** The assertions the event does not release. */
  ghost function Staying(s: State, ev: Event): set<Index>
    requires |s.types| == TYPE_COUNT
  {
    set j | j in s.table && After(s, ev, j, s.table[j]).Some?
  }

  /** Counters after the events that may leave one wrong; a configuration changes nothing else of the types. */
  ghost predicate Counters(s: State, ev: Event, s': State)
    requires |s.types| == TYPE_COUNT
  {
    && (ev.Configured? || ev.Disabled? || ev.Enabled? ==> s'.types == TypesAfter(s, ev))
    && (ev.ReleaseOne? && Named(s, ev.pid, ev.id) ==>
          var a := s.table[IndexFromId(ev.id)];
          a.retain <= 1 ==>
              |s'.types| == TYPE_COUNT && s'.types[a.kassert].validCnt == CountWithout(s.types[a.kassert], a))
    && (ev.ProcessExits? ==>
          |s'.types| == TYPE_COUNT
          && forall t: TypeId :: t in BATTERY_TYPES ==>
               s'.types[t].validCnt == ProcessExit.Down(s.types[t].validCnt, |ProcessExit.Off(s.table, ev.pid, t)|))
    && (ev.ProcessResumes? && ev.pid in s.suspendedPids ==> Suspension.UnflaggedKept(s.types, s'.types))
    && (ev.SetProperties? ==>
          forall t :: t in Miscounts(s, ev) ==>
            |s'.types| == TYPE_COUNT && IndexFromId(ev.id) in s.table &&
            s'.types[t].validCnt == CountAfterMiss(s.types[t], PlanFor(s.table[IndexFromId(ev.id)].inactive, ev.props)))
  }

  /** A timer that went off is armed again for the first deadline that is left, if there is one; a queued run is used
      up. */
  ghost predicate TimersAfter(s: State, ev: Event, s': State)
    requires |s.types| == TYPE_COUNT
  {
    ev.TimerGoesOff? || ev.RunStarts? ==>
      && |s'.types| == TYPE_COUNT
      && var r, r' := s.types[ev.k], s'.types[ev.k];
         && r'.timer.runs == (if ev.RunStarts? then r.timer.runs - 1 else r.timer.runs)
         && (r'.timed != [] ==> r'.timed[0] in s'.table)
         && r'.timer.armed == if r'.timed != [] then Some(s'.table[r'.timed[0]].timeout)
                              else if ev.RunStarts? then r.timer.armed else None
  }

  ghost predicate Stepped(s: State, ev: Event, s': State) {
    |s.types| == TYPE_COUNT &&
    if !Possible(s, ev) then s' == s
    else
      && Become(s, ev, s') && Appear(s, ev, s') && ProxyFrom(s.proxy, s'.proxy, Staying(s, ev))
      && s'.exact == s.exact - Miscounts(s, ev) && Counters(s, ev, s')
      && (HandsOff(s, ev) && s.CanHandOff() ==> s'.HandedOff()) && (!HandsOff(s, ev) ==> s'.proxy == s.proxy)
      && AllSameConfig(TypesAfter(s, ev), s'.types) && TimersAfter(s, ev, s')
      && s' == Scalars(s, ev).(table := s'.table, types := s'.types, derived := s'.derived, nextIndex := s'.nextIndex,
                               proxy := s'.proxy, exact := s'.exact)
  }

  lemma EntryAfter(s: State, ev: Event, s': State, j: Index)
    requires Stepped(s, ev, s') && j in s.table && s.proxy != Some(j)
    ensures if !Possible(s, ev) then s' == s
            else match After(s, ev, j, s.table[j])
                 case Some(b) => j in s'.table && s'.table[j] == b
                 case None => j !in s'.table || s'.proxy == Some(j)
  {
    hide Possible, After, Appear, Staying, Miscounts, HandsOff, TypesAfter, Scalars, AllSameConfig, ProxyFrom;
  }

  lemma NotPossibleSame(s: State, ev: Event, s': State)
    requires Stepped(s, ev, s') && !Possible(s, ev)
    ensures s' == s
  {
  }

  /** Where an assertion comes from that is there after a step. */
  lemma Origin(s: State, ev: Event, s': State, j: Index)
    requires Stepped(s, ev, s') && Possible(s, ev) && j in s'.table && s'.proxy != Some(j)
    ensures (Creates(s, ev) && s'.table[j] == NewRecord(s, ev))
            || (j in s.table && s.proxy != Some(j) && After(s, ev, j, s.table[j]) == Some(s'.table[j]))
  {
    hide After, NewRecord, Creates, Staying, Miscounts, HandsOff, TypesAfter, Scalars, AllSameConfig, Possible;
  }

  // ---- what no event changes -----------------------------------------------------------

  lemma ActedKind(r: AssertionType, b: Assertion, plan: Plan, t: nat, k: TypeId, now: nat)
    ensures var c := Acted(r, b, plan, t, k, now);
            c.name == b.name && c.sysTimer == b.sysTimer && (c.kassert == b.kassert || c.kassert == k)
  {
    hide Raised;
    RaisedFields(r, b.(inactive := false, timeout := t), k, now);
  }

  lemma UpdatedKind(types: Types, a: Assertion, props: Props, k: TypeId, now: nat)
    requires |types| == TYPE_COUNT
    ensures var b := Updated(types, a, props, k, now);
            b.name == a.name && b.sysTimer == a.sysTimer && (b.kassert == a.kassert || b.kassert == k)
  {
    hide PlanFor, Deadline, Acted, WithProps;
    var r := types[a.kassert];
    var t := if props.timeout.Some? then Deadline(r, props.timeout.value, now) else a.timeout;
    WithPropsFacts(a, props, r.notValidOnBatt, true);
    ActedKind(types[k], WithProps(a, props, r.notValidOnBatt), PlanFor(a.inactive, props), t, k, now);
  }

  lemma RetimedKind(a: Assertion, on: bool, change: int, restart: nat, now: nat)
    ensures var b := Retiming.Retimed(a, on, change, restart, now);
              b.name == a.name && b.sysTimer == a.sysTimer && b.kassert == a.kassert
  {
    hide Retiming.Shifted;
  }

  /** Name and system-timer mark stay, and only a property update can move an assertion, to the type its name
      stands for now. */
  predicate SameKind(s: State, ev: Event, a: Assertion, b: Assertion) {
    && b.name == a.name && b.sysTimer == a.sysTimer
    && (b.kassert == a.kassert || (ev.SetProperties? && b.kassert == s.Resolve(a.name)))
  }

  lemma FormsKind(a: Assertion, now: nat)
    ensures var b := SuspendedForm(a, now); b.name == a.name && b.sysTimer == a.sysTimer && b.kassert == a.kassert
    ensures var b := ResumedForm(a, now); b.name == a.name && b.sysTimer == a.sysTimer && b.kassert == a.kassert
  {
  }

  lemma AfterKind(s: State, ev: Event, j: Index, a: Assertion)
    requires |s.types| == TYPE_COUNT
    ensures After(s, ev, j, a).Some? ==> SameKind(s, ev, a, After(s, ev, j, a).value)
  {
    hide Updated, AfterDeclaration, Retiming.Retimed, Retiming.DisplayChange, Retiming.IdleChange, PushCap, Concerns,
         SuspendedForm, ResumedForm;
    match ev {
      case ProcessSuspends(_, _) => FormsKind(a, s.now);
      case ProcessResumes(_) => FormsKind(a, s.now);
      case SetProperties(_, _, props) => UpdatedKind(s.types, a, props, s.Resolve(a.name), s.now);
      case DeclareActive(_, _, _, _) => DeclarationKind(s, ev, j, a);
      case DeclareNetwork(_, _, _, _) => DeclarationKind(s, ev, j, a);
      case DisplaySleep(minutes) =>
        RetimedKind(a, minutes != 0, Retiming.DisplayChange(minutes, s.displayTimer),
            s.now + Retiming.DisplaySeconds(minutes), s.now);
      case IdleSleep(minutes) =>
        RetimedKind(a, minutes != 0, Retiming.IdleChange(minutes, s.idleTimer), s.now + Retiming.IdleSeconds(minutes),
            s.now);
      case _ =>
    }
  }

  lemma DeclarationKind(s: State, ev: Event, j: Index, a: Assertion)
    requires |s.types| == TYPE_COUNT && (ev.DeclareActive? || ev.DeclareNetwork?)
    ensures var b := AfterDeclaration(s, ev, j, a);
              b.name == a.name && b.sysTimer == a.sysTimer && b.kassert == a.kassert
  {
    hide Updated, DeclaredProps;
    UpdatedKind(s.types, a.(level := On), DeclaredProps(s, ev), a.kassert, s.now);
  }

  /** A run: every state satisfies the invariants, and each follows from the one before by its event. */
  ghost predicate Runs(trace: seq<State>, events: seq<Event>) {
    && |trace| == |events| + 1
    && (forall n :: 0 <= n < |trace| ==> InvAt(trace[n]) && NamesAt(trace[n]))
    && (forall n :: 0 <= n < |events| ==> Stepped(trace[n], events[n], trace[n + 1]))
  }
}
