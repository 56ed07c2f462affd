/**
 Deadlines that follow a setting, over whole runs: every system-set deadline stays at least as large as the
 setting, so that the unsigned arithmetic of a setting change is exact; which events break that, and a run that
 does.
 */
module FollowedDeadlines {
  import opened Common
  import opened EffectMirror
  import opened AssertionLists
  import opened Reconfiguration
  import opened EngineSteps
  import opened Retiming
  import AssertionEngine
  import EngineRun

  /** Minutes of a setting, and times, as large as they get: no product or sum below leaves its type. */
  const MINUTES_LIMIT: nat := TWO_32 / 120
  const TIME_LIMIT: nat := TWO_64 / 4

  /** The clock and the times clients ask for, as large as they get, and how often a setting is changed. */
  const SECONDS_LIMIT: nat := TWO_64 / 16
  const CHANGES_LIMIT: nat := 0x2000_0000

  predicate Follows(k: TypeId) {
    k in {DECLARE_USER_ACTIVITY, NETWORK_ACCESS}
  }

  /** The setting of a type. */
  function Minutes(s: State, k: TypeId): nat {
    if k == DECLARE_USER_ACTIVITY then s.displayTimer else s.idleTimer
  }

  /** The event sets it. */
  predicate Sets(ev: Event, k: TypeId) {
    (k == DECLARE_USER_ACTIVITY && ev.DisplaySleep?) || (k == NETWORK_ACCESS && ev.IdleSleep?)
  }

  function MinutesAfter(s: State, ev: Event, k: TypeId): nat {
    if Sets(ev, k) then ev.minutes else Minutes(s, k)
  }

  predicate Following(a: Assertion, k: TypeId) {
    a.kassert == k && a.sysTimer
  }

  ghost predicate Within(s: State, ev: Event, k: TypeId) {
    && Minutes(s, k) < MINUTES_LIMIT && MinutesAfter(s, ev, k) < MINUTES_LIMIT && s.now < TIME_LIMIT
    && forall j :: j in s.table && Following(s.table[j], k) ==> s.table[j].timeout < TIME_LIMIT
  }

  predicate AtFloor(a: Assertion, minutes: nat) {
    a.timed ==> a.timeout >= 60 * minutes
  }

  /** Every system-set deadline of the type is at least the setting. */
  ghost predicate Floor(s: State, k: TypeId) {
    forall j :: j in s.table && Following(s.table[j], k) ==> AtFloor(s.table[j], Minutes(s, k))
  }

  // ---- the exact condition of one step -------------------------------------------------

  function AskedTime(a: Assertion, props: Props): Seconds {
    if props.timeout.Some? then props.timeout.value else a.askedTimeout
  }

  predicate Permitted(s: State, j: Index, a: Assertion, pid: Pid, id: nat) {
    j == IndexFromId(id) && a.pid == pid && !Refused(s.suspendedPids, a)
  }

  /** The deadline a client's property update gives, if it gives one, is no lower than the setting. */
  predicate UpdateKeeps(a: Assertion, props: Props, now: nat, minutes: nat) {
    var plan, asked := PlanFor(a.inactive, props), AskedTime(a, props);
    var level := if props.level.Some? then props.level.value else a.level;
    (plan.Retime? || (plan.TurnItOn? && !level.Off?)) && asked != 0.0 ==>
      asked.Floor + now >= 60 * minutes || (plan.Retime? && asked.Floor + now == 0)
  }

  /** What a caller can check before the event: a client's update does not give too low a deadline, and the
      time left of what is resumed still reaches the setting. */
  predicate RecordKeeps(s: State, ev: Event, k: TypeId, j: Index, a: Assertion) {
    match ev
    case SetProperties(pid, id, props) => Permitted(s, j, a, pid, id) ==> UpdateKeeps(a, props, s.now, Minutes(s, k))
    case ProcessResumes(pid) =>
      pid in s.suspendedPids && a.suspended && Concerns(a, pid) && !a.level.Off? && a.resumeIn != 0 ==>
        a.resumeIn + s.now >= 60 * Minutes(s, k)
    case _ => true
  }

  ghost predicate KeepsFloor(s: State, ev: Event, k: TypeId) {
    forall j :: j in s.table && Following(s.table[j], k) ==> RecordKeeps(s, ev, k, j, s.table[j])
  }

  /** Deadline after the plan of an update is carried out, for a type whose timeouts no cap limits. */
  lemma ActedDeadline(r: AssertionType, b: Assertion, plan: Plan, t: nat, k: TypeId, now: nat)
    requires b.kassert == k && !r.autoTimed && OneBit(b) && (plan.TurnItOn? ==> b.inactive)
    ensures var c := Acted(r, b, plan, t, k, now);
            && c.kassert == k && c.sysTimer == b.sysTimer && c.resumeIn == b.resumeIn
            && match plan
               case TurnItOff => !c.timed && c.timeout == b.timeout
               case TurnItOn =>
                 if !b.level.Off? && b.askedTimeout != 0.0 then c.timed && c.timeout == b.askedTimeout.Floor + now
                     else !c.timed && c.timeout == t
               case Retime => (c.timed <==> t != 0) && c.timeout == t
               case Keep => c == b
  {
    hide Raised;
    if plan.TurnItOn? {
      RaisedDeadline(r, b.(inactive := false, timeout := t), k, now);
    }
  }

  lemma RaisedDeadline(r: AssertionType, x: Assertion, k: TypeId, now: nat)
    requires !r.autoTimed && !x.timed
    ensures var c := Raised(r, x, k, now);
            && c.kassert == k && c.sysTimer == x.sysTimer && c.resumeIn == x.resumeIn
            && if !x.level.Off? && x.askedTimeout != 0.0 then c.timed && c.timeout == x.askedTimeout.Floor + now
               else !c.timed && c.timeout == x.timeout
  {
    hide Raised;
    RaisedFields(r, x, k, now);
    RaisedParts(r, x, k, now);
  }

  /** An update of an assertion of the type, whose timeouts no cap limits. */
  lemma UpdatedDeadline(types: Types, a: Assertion, props: Props, k: TypeId, now: nat, minutes: nat)
    requires |types| == TYPE_COUNT && a.kassert == k && !types[k].autoTimed && OneBit(a) && !LevelOffWithTimeout(props)
    requires !a.suspended && AtFloor(a, minutes)
    ensures var b := Updated(types, a, props, k, now);
            && b.kassert == k && b.sysTimer == a.sysTimer && b.resumeIn == a.resumeIn
            && (AtFloor(b, minutes) <==> UpdateKeeps(a, props, now, minutes))
            && (b.timeout == a.timeout || b.timeout == 0
                || (b.timeout == AskedTime(a, props).Floor + now && AskedTime(a, props) != 0.0
                    && (props.timeout.Some? || (PlanFor(a.inactive, props).TurnItOn?
                         && !WithProps(a, props, types[k].notValidOnBatt).level.Off?))))
  {
    hide PlanFor, WithProps, Acted;
    PlanFacts(a.inactive, props);
    var b := WithProps(a, props, types[k].notValidOnBatt);
    WithPropsDeadline(a, props, types[k].notValidOnBatt);
    WithPropsFacts(a, props, types[k].notValidOnBatt, true);
    var t := if props.timeout.Some? then Deadline(types[k], props.timeout.value, now) else a.timeout;
    ActedDeadline(types[k], b, PlanFor(a.inactive, props), t, k, now);
  }

  lemma WithPropsDeadline(a: Assertion, props: Props, flagged: bool)
    ensures WithProps(a, props, flagged).askedTimeout == AskedTime(a, props)
    ensures WithProps(a, props, flagged).level == if props.level.Some? then props.level.value else a.level
  {
  }

  lemma SecondsFit(minutes: nat)
    requires minutes < MINUTES_LIMIT
    ensures DisplaySeconds(minutes) == IdleSeconds(minutes) == 60 * minutes
  {
  }

  /** Within the limits a retimed deadline is the old one plus the exact difference, floored at now, and it is at
      least the new setting when the old one was at least the old setting. */
  lemma RetimedDeadline(a: Assertion, k: TypeId, minutes: nat, before: nat, now: nat)
    requires Follows(k) && Following(a, k) && OneBit(a) && AtFloor(a, before)
    requires minutes < MINUTES_LIMIT && before < MINUTES_LIMIT && a.timeout < TIME_LIMIT && now < TIME_LIMIT
    ensures var b := RetimedFor(a, k, minutes, before, now);
            && Following(b, k) && b.resumeIn == a.resumeIn && AtFloor(b, minutes)
            && (a.timed && minutes != 0 ==>
                  b == a.(timeout := var t := a.timeout + (minutes - before) * 60; if t < now then now else t))
            && (if minutes == 0 then b.timeout == a.timeout || b.timeout == 0
                else if a.timed then true
                else if PlaceOf(a) == Active then b.timeout == now + 60 * minutes else b == a)
  {
    SecondsFit(minutes);
    ChangeExact(minutes, before);
    IdleShifts(minutes, before, a.timeout, now);
    ShiftExact(a.timeout, (minutes - before) * 60, now);
    hide DisplayChange, IdleChange, Shifted;
  }

  lemma NoIdleChange(minutes: nat, before: nat)
    requires minutes < MINUTES_LIMIT && before < MINUTES_LIMIT
    ensures IdleChange(minutes, before) == 0 <==> minutes == before
  {
    var d := (minutes - before) * 60;
    if d < 0 {
      assert d % TWO_64 == d + TWO_64;
    }
  }

  /** What a change of its setting makes of an assertion. */
  function RetimedFor(a: Assertion, k: TypeId, minutes: nat, before: nat, now: nat): Assertion {
    if k == DECLARE_USER_ACTIVITY
        then Retimed(a, minutes != 0, DisplayChange(minutes, before), now + DisplaySeconds(minutes), now)
    else Retimed(a, minutes != 0, IdleChange(minutes, before), now + IdleSeconds(minutes), now)
  }

  /** A declaration gives the time of the setting, if any. */
  lemma DeclarationKeeps(s: State, ev: Event, k: TypeId, j: Index, a: Assertion)
    requires |s.types| == TYPE_COUNT && Follows(k) && Following(a, k) && !s.types[k].autoTimed && OneBit(a)
    requires (ev.DeclareActive? || ev.DeclareNetwork?) && Minutes(s, k) < MINUTES_LIMIT && AtFloor(a, Minutes(s, k))
    requires a.suspended ==> Refused(s.suspendedPids, a)
    requires ev.id != 0 && j == IndexFromId(ev.id) && a.pid == ev.pid && a.kassert == DeclaredType(ev) ==>
               !LevelOffWithTimeout(DeclaredProps(s, ev))
    ensures var b := AfterDeclaration(s, ev, j, a);
            && Following(b, k) && AtFloor(b, Minutes(s, k)) && b.resumeIn == a.resumeIn
            && (b.timeout == a.timeout || b.timeout == 0 || b.timeout >= 60 * Minutes(s, k))
  {
    hide Updated;
    SecondsFit(Minutes(s, k));
    if ev.id != 0 && j == IndexFromId(ev.id) && a.pid == ev.pid && a.kassert == DeclaredType(ev)
        && !Refused(s.suspendedPids, a) {
      UpdatedDeadline(s.types, a.(level := On), DeclaredProps(s, ev), k, s.now, Minutes(s, k));
    }
  }

  /** What is known of an assertion that follows the setting. */
  ghost predicate Usual(s: State, ev: Event, k: TypeId, j: Index, a: Assertion) {
    && |s.types| == TYPE_COUNT && Follows(k) && Following(a, k) && !s.types[k].autoTimed && OneBit(a) && NameFits(a)
    && (a.suspended ==> Refused(s.suspendedPids, a))
    && Minutes(s, k) < MINUTES_LIMIT && MinutesAfter(s, ev, k) < MINUTES_LIMIT && s.now < TIME_LIMIT
    && a.timeout < TIME_LIMIT
    && (ev.SetProperties? ==> !LevelOffWithTimeout(ev.props))
    && ((ev.DeclareActive? || ev.DeclareNetwork?) && ev.id != 0 && j == IndexFromId(ev.id) && a.pid == ev.pid
         && a.kassert == DeclaredType(ev) ==>
          !LevelOffWithTimeout(DeclaredProps(s, ev)))
  }

  /** Deadline and remainder after an event that sets the setting of the type. */
  lemma AfterSetting(s: State, ev: Event, k: TypeId, j: Index, a: Assertion)
    requires Usual(s, ev, k, j, a) && Sets(ev, k)
    ensures After(s, ev, j, a)
              == Some(if ev.minutes == Minutes(s, k) then a else RetimedFor(a, k, ev.minutes, Minutes(s, k), s.now))
  {
    hide Retimed, DisplayChange, IdleChange, DisplaySeconds, IdleSeconds;
    if ev.IdleSleep? {
      NoIdleChange(ev.minutes, s.idleTimer);
    }
  }

  /** An event that neither sets the setting nor gives or brings back a deadline. */
  predicate Plain(ev: Event, k: TypeId) {
    !Sets(ev, k) && !ev.SetProperties? && !ev.DeclareActive? && !ev.DeclareNetwork? && !ev.ProcessResumes?
  }

  lemma AfterPlain(s: State, ev: Event, k: TypeId, j: Index, a: Assertion)
    requires Usual(s, ev, k, j, a) && Plain(ev, k)
    ensures match After(s, ev, j, a)
            case None => true
            case Some(b) =>
              && Following(b, k) && b.timeout == a.timeout && (b.timed ==> a.timed)
              && (b.resumeIn == a.resumeIn || (a.timeout > s.now && b.resumeIn + s.now == a.timeout))
  {
    hide Updated, Retimed, AfterDeclaration, PushCap, DisplayChange, IdleChange, DisplaySeconds, IdleSeconds;
  }

  /** One assertion of the type: its deadline is no lower than the setting afterwards exactly when it was checked. */
  lemma RecordFloor(s: State, ev: Event, k: TypeId, j: Index, a: Assertion)
    requires Usual(s, ev, k, j, a) && AtFloor(a, Minutes(s, k))
    ensures match After(s, ev, j, a)
            case Some(b) => Following(b, k) && (AtFloor(b, MinutesAfter(s, ev, k)) <==> RecordKeeps(s, ev, k, j, a))
            case None => RecordKeeps(s, ev, k, j, a)
  {
    hide Updated, RetimedFor, AfterDeclaration, UpdateKeeps, After;
    if Sets(ev, k) {
      AfterSetting(s, ev, k, j, a);
      RetimedDeadline(a, k, ev.minutes, Minutes(s, k), s.now);
    } else if Plain(ev, k) {
      AfterPlain(s, ev, k, j, a);
    } else {
      RecordFloorGiven(s, ev, k, j, a);
    }
  }

  lemma RecordFloorGiven(s: State, ev: Event, k: TypeId, j: Index, a: Assertion)
    requires Usual(s, ev, k, j, a) && AtFloor(a, Minutes(s, k)) && !Sets(ev, k) && !Plain(ev, k)
    ensures match After(s, ev, j, a)
            case Some(b) => Following(b, k) && (AtFloor(b, Minutes(s, k)) <==> RecordKeeps(s, ev, k, j, a))
            case None => false
  {
    hide Updated, AfterDeclaration, UpdateKeeps;
    match ev {
      case SetProperties(_, _, props) =>
        if !a.suspended {
          UpdatedDeadline(s.types, a, props, k, s.now, Minutes(s, k));
        }
      case DeclareActive(_, _, _, _) => DeclarationKeeps(s, ev, k, j, a);
      case DeclareNetwork(_, _, _, _) => DeclarationKeeps(s, ev, k, j, a);
      case ProcessResumes(_) =>
    }
  }

  lemma UsualFacts(s: State, ev: Event, k: TypeId, j: Index)
    requires InvAt(s) && NamesAt(s) && Possible(s, ev) && Follows(k) && Within(s, ev, k)
    requires j in s.table && Following(s.table[j], k)
    ensures Usual(s, ev, k, j, s.table[j]) && s.proxy != Some(j)
  {
    hide TimersAt, DerivesAt, DeclaredProps;
    InItsList(s.table, s.types, {}, s.exact, j);
    assert TypeOK(k, s.types[k]);
    hide SoundAt;
  }

  /** An assertion comes to follow a setting only by a declaration, and then its deadline is the setting's. */
  lemma NewFollower(s: State, ev: Event, k: TypeId)
    requires InvAt(s) && NamesAt(s) && Possible(s, ev) && Creates(s, ev) && Follows(k) && Minutes(s, k) < MINUTES_LIMIT
    ensures var b := NewRecord(s, ev);
            Following(b, k) ==>
                AtFloor(b, Minutes(s, k)) && b.resumeIn == 0 && (b.timeout > s.now ==> b.timeout >= 60 * Minutes(s, k))
  {
    hide InvAt, NamesAt, NewRecord, HasFree, Extends;
    if (ev.DeclareActive? || ev.DeclareNetwork?) && DeclaredType(ev) == k {
      NewOfType(s, ev, k);
      AskedForSetting(s, ev, k);
    } else {
      NewOther(s, ev, k);
    }
  }

  /** The time a declaration asks for is the setting, unless that is zero. */
  lemma AskedForSetting(s: State, ev: Event, k: TypeId)
    requires (ev.DeclareActive? || ev.DeclareNetwork?) && DeclaredType(ev) == k && Minutes(s, k) < MINUTES_LIMIT
    ensures var t := AskedAnew(ev.q, ev.given, k, DeclaredSeconds(s, ev), ev.DeclareActive?).timeout;
              t.Floor >= 60 * Minutes(s, k)
  {
    hide DisplaySeconds, IdleSeconds;
    SecondsFit(Minutes(s, k));
  }

  /** The record of a declaration of the type, in terms of the time it asks for. */
  lemma NewOfType(s: State, ev: Event, k: TypeId)
    requires InvAt(s) && Possible(s, ev) && Follows(k)
    requires (ev.DeclareActive? || ev.DeclareNetwork?) && DeclaredType(ev) == k
    ensures var b := NewRecord(s, ev);
            var t := AskedAnew(ev.q, ev.given, k, DeclaredSeconds(s, ev), ev.DeclareActive?).timeout;
            && b.resumeIn == 0 && b.askedTimeout == t
            && (if b.timed then t != 0.0 && b.timeout == t.Floor + (s.now - ev.q.age) else b.timeout == 0)
  {
    hide AskedAnew, Raised, DeclaredSeconds;
    NoCap(s, k);
    hide InvAt;
    var q := AskedAnew(ev.q, ev.given, k, DeclaredSeconds(s, ev), ev.DeclareActive?);
    var x := NewAssertion(ev.pid, TypeName.Fixed(k), q);
    RaisedDeadline(s.types[k], x, k, s.now - ev.q.age);
    RaisedFields(s.types[k], x, k, s.now - ev.q.age);
    RaisedAsked(s.types[k], x, k, s.now - ev.q.age);
  }

  lemma NoCap(s: State, k: TypeId)
    requires InvAt(s) && Follows(k)
    ensures |s.types| == TYPE_COUNT && !s.types[k].autoTimed
  {
    hide TimersAt, DerivesAt, HouseAt;
    assert TypeOK(k, s.types[k]);
  }

  lemma RaisedAsked(r: AssertionType, x: Assertion, k: TypeId, now: nat)
    ensures Raised(r, x, k, now).askedTimeout == x.askedTimeout
  {
  }

  /** Nothing else that is created follows the setting of the type. */
  lemma NewOther(s: State, ev: Event, k: TypeId)
    requires Possible(s, ev) && Creates(s, ev) && Follows(k) && (ev.Create? || DeclaredType(ev) != k)
    ensures !Following(NewRecord(s, ev), k)
  {
    hide AskedAnew, Raised, DeclaredSeconds;
    if ev.Create? {
      var t := s.Resolve(ev.q.name.value);
      RaisedFields(s.types[t], NewAssertion(ev.pid, ev.q.name.value, ev.q), t, s.now - ev.q.age);
    } else {
      var t := DeclaredType(ev);
      var q := AskedAnew(ev.q, ev.given, t, DeclaredSeconds(s, ev), ev.DeclareActive?);
      RaisedFields(s.types[t], NewAssertion(ev.pid, TypeName.Fixed(t), q), t, s.now - ev.q.age);
    }
  }

  lemma FollowerBefore(s: State, ev: Event, k: TypeId, j: Index, a: Assertion)
    requires |s.types| == TYPE_COUNT && NamesAt(s) && NameFits(a) && Follows(k)
    ensures After(s, ev, j, a).Some? && Following(After(s, ev, j, a).value, k) ==> Following(a, k)
  {
    hide After;
    AfterKind(s, ev, j, a);
  }

  /** Where an assertion that follows the setting after a step comes from. */
  lemma FollowerOrigin(s: State, ev: Event, s': State, k: TypeId, j: Index)
    requires InvAt(s) && NamesAt(s) && InvAt(s') && Possible(s, ev) && Stepped(s, ev, s') && Follows(k)
    requires j in s'.table && Following(s'.table[j], k)
    ensures (Creates(s, ev) && s'.table[j] == NewRecord(s, ev))
            || (j in s.table && Following(s.table[j], k) && After(s, ev, j, s.table[j]) == Some(s'.table[j]))
  {
    hide InvAt, Stepped, Possible, After, NewRecord, Creates;
    SizeOf(s);
    NotTheProxy(s', k, j);
    Origin(s, ev, s', j);
    if j in s.table {
      FollowerBefore(s, ev, k, j, s.table[j]);
    }
  }

  lemma NotTheProxy(s: State, k: TypeId, j: Index)
    requires InvAt(s) && j in s.table && Following(s.table[j], k) && Follows(k)
    ensures s.proxy != Some(j)
  {
    hide SoundAt, TimersAt, DerivesAt;
  }

  /** The floor holds after a step if and only if what the step puts at risk was checked before. */
  lemma FloorStep(s: State, ev: Event, s': State, k: TypeId)
    requires InvAt(s) && NamesAt(s) && InvAt(s') && Possible(s, ev) && Stepped(s, ev, s')
    requires Follows(k) && Within(s, ev, k) && Floor(s, k)
    ensures Floor(s', k) <==> KeepsFloor(s, ev, k)
  {
    hide InvAt, NamesAt, Possible, Stepped, After, Creates, NewRecord, RecordKeeps, Usual;
    SettingAfter(s, ev, s', k);
    assert |s.types| == TYPE_COUNT by { SizeOf(s); }
    forall j | j in s.table && Following(s.table[j], k)
      ensures RecordKeeps(s, ev, k, j, s.table[j])
                || (j in s'.table && Following(s'.table[j], k) && !AtFloor(s'.table[j], Minutes(s', k)))
    {
      UsualFacts(s, ev, k, j);
      RecordFloor(s, ev, k, j, s.table[j]);
      EntryAfter(s, ev, s', j);
    }
    if KeepsFloor(s, ev, k) {
      forall j | j in s'.table && Following(s'.table[j], k) ensures AtFloor(s'.table[j], Minutes(s', k)) {
        FollowerOrigin(s, ev, s', k, j);
        if j in s.table && Following(s.table[j], k) && After(s, ev, j, s.table[j]) == Some(s'.table[j]) {
          UsualFacts(s, ev, k, j);
          RecordFloor(s, ev, k, j, s.table[j]);
        } else {
          NewFollower(s, ev, k);
          CreatesSetsNothing(s, ev, k);
        }
      }
    }
  }

  lemma CreatesSetsNothing(s: State, ev: Event, k: TypeId)
    requires Creates(s, ev)
    ensures !Sets(ev, k) && !ev.TimePasses?
  {
  }

  lemma SettingAfter(s: State, ev: Event, s': State, k: TypeId)
    requires Possible(s, ev) && Stepped(s, ev, s') && Follows(k)
    ensures Minutes(s', k) == MinutesAfter(s, ev, k)
    ensures s'.now == if ev.TimePasses? then s.now + ev.seconds else s.now
  {
    hide Possible, Become, Appear, Staying, Miscounts, HandsOff, TypesAfter, AllSameConfig, ProxyFrom, BackgroundAfter;
  }

  // ---- whole runs ----------------------------------------------------------------------

  /** What an assertion that is not timed now may bring back later: an old deadline still ahead, or a remainder. */
  predicate Carries(a: Assertion, now: nat, minutes: nat) {
    (a.timeout > now ==> a.timeout >= 60 * minutes) && (a.resumeIn != 0 ==> a.resumeIn + now >= 60 * minutes)
  }

  ghost predicate Carried(s: State, k: TypeId) {
    forall j :: j in s.table && Following(s.table[j], k) ==> Carries(s.table[j], s.now, Minutes(s, k))
  }

  /** No client gives the assertion too low a deadline, and the setting is not raised above what the assertion
      carries while it is switched off or suspended.  Lowering a setting, or changing it while every assertion
      that follows it is live and has no remainder, is always calm. */
  predicate Calm(s: State, ev: Event, k: TypeId, j: Index, a: Assertion) {
    match ev
    case SetProperties(pid, id, props) =>
      Permitted(s, j, a, pid, id) ==>
        && UpdateKeeps(a, props, s.now, Minutes(s, k))
        && (props.timeout.Some? && props.timeout.value != 0.0 ==>
             props.timeout.value.Floor + s.now >= 60 * Minutes(s, k))
    case DisplaySleep(minutes) => Sets(ev, k) ==> CarriesOver(a, s.now, minutes)
    case IdleSleep(minutes) => Sets(ev, k) ==> CarriesOver(a, s.now, minutes)
    case _ => true
  }

  predicate CarriesOver(a: Assertion, now: nat, minutes: nat) {
    && (PlaceOf(a) in {Inactive, Suspended} && a.timeout > now ==> a.timeout >= 60 * minutes)
    && (a.resumeIn != 0 ==> a.resumeIn + now >= 60 * minutes)
  }

  ghost predicate AllCalm(s: State, ev: Event, k: TypeId) {
    forall j :: j in s.table && Following(s.table[j], k) ==> Calm(s, ev, k, j, s.table[j])
  }

  /** A lower setting endangers nothing. */
  lemma LoweringIsCalm(s: State, ev: Event, k: TypeId)
    requires Carried(s, k) && Sets(ev, k) && ev.minutes <= Minutes(s, k)
    ensures AllCalm(s, ev, k)
  {
  }

  lemma CalmRecord(s: State, ev: Event, k: TypeId, j: Index, a: Assertion)
    requires Usual(s, ev, k, j, a) && AtFloor(a, Minutes(s, k)) && Carries(a, s.now, Minutes(s, k))
               && Calm(s, ev, k, j, a)
    ensures RecordKeeps(s, ev, k, j, a)
    ensures var now := if ev.TimePasses? then s.now + ev.seconds else s.now;
            After(s, ev, j, a).Some? ==> Carries(After(s, ev, j, a).value, now, MinutesAfter(s, ev, k))
  {
    hide Updated, RetimedFor, AfterDeclaration, UpdateKeeps, After;
    if Sets(ev, k) {
      AfterSetting(s, ev, k, j, a);
      RetimedDeadline(a, k, ev.minutes, Minutes(s, k), s.now);
    } else if Plain(ev, k) {
      AfterPlain(s, ev, k, j, a);
    } else {
      CalmGiven(s, ev, k, j, a);
    }
  }

  lemma CalmGiven(s: State, ev: Event, k: TypeId, j: Index, a: Assertion)
    requires Usual(s, ev, k, j, a) && AtFloor(a, Minutes(s, k)) && Carries(a, s.now, Minutes(s, k))
               && Calm(s, ev, k, j, a)
    requires !Sets(ev, k) && !Plain(ev, k)
    ensures RecordKeeps(s, ev, k, j, a)
    ensures After(s, ev, j, a).Some? ==> Carries(After(s, ev, j, a).value, s.now, Minutes(s, k))
  {
    hide Updated, AfterDeclaration, UpdateKeeps;
    match ev {
      case SetProperties(pid, id, props) =>
        if Permitted(s, j, a, pid, id) {
          UpdatedDeadline(s.types, a, props, k, s.now, Minutes(s, k));
          WithPropsDeadline(a, props, s.types[k].notValidOnBatt);
          SwitchedOnKeeps(a, props, s.now, Minutes(s, k));
        }
      case DeclareActive(_, _, _, _) => DeclarationKeeps(s, ev, k, j, a);
      case DeclareNetwork(_, _, _, _) => DeclarationKeeps(s, ev, k, j, a);
      case ProcessResumes(_) =>
    }
  }

  lemma SwitchedOnKeeps(a: Assertion, props: Props, now: nat, minutes: nat)
    requires UpdateKeeps(a, props, now, minutes)
    ensures PlanFor(a.inactive, props).TurnItOn? && AskedTime(a, props) != 0.0
              && !(if props.level.Some? then props.level.value else a.level).Off? ==>
              AskedTime(a, props).Floor + now >= 60 * minutes
  {
  }

  /** A calm step keeps the floor, and what is carried stays above it. */
  lemma CalmStep(s: State, ev: Event, s': State, k: TypeId)
    requires InvAt(s) && NamesAt(s) && InvAt(s') && Possible(s, ev) && Stepped(s, ev, s')
    requires Follows(k) && Within(s, ev, k) && Floor(s, k) && Carried(s, k) && AllCalm(s, ev, k)
    ensures KeepsFloor(s, ev, k) && Floor(s', k) && Carried(s', k)
  {
    hide InvAt, NamesAt, Possible, Stepped, After, Creates, NewRecord, RecordKeeps, Usual, Calm, Carries;
    SettingAfter(s, ev, s', k);
    SizeOf(s);
    forall j | j in s.table && Following(s.table[j], k) ensures RecordKeeps(s, ev, k, j, s.table[j]) {
      UsualFacts(s, ev, k, j);
      CalmRecord(s, ev, k, j, s.table[j]);
    }
    FloorStep(s, ev, s', k);
    forall j | j in s'.table && Following(s'.table[j], k) ensures Carries(s'.table[j], s'.now, Minutes(s', k)) {
      FollowerOrigin(s, ev, s', k, j);
      if j in s.table && Following(s.table[j], k) && After(s, ev, j, s.table[j]) == Some(s'.table[j]) {
        UsualFacts(s, ev, k, j);
        CalmRecord(s, ev, k, j, s.table[j]);
      } else {
        NewFollower(s, ev, k);
        CreatesSetsNothing(s, ev, k);
        NewCarries(s'.table[j], s'.now, Minutes(s', k));
      }
    }
  }

  lemma NewCarries(b: Assertion, now: nat, minutes: nat)
    requires b.resumeIn == 0 && (b.timeout > now ==> b.timeout >= 60 * minutes)
    ensures Carries(b, now, minutes)
  {
  }

  // ---- how far ahead a deadline gets ---------------------------------------------------

  predicate Short(t: Seconds) {
    t.Floor < SECONDS_LIMIT
  }

  /** Settings, clock and the time a client asks for are below their limits. */
  predicate Modest(s: State, ev: Event, k: TypeId) {
    && Minutes(s, k) < MINUTES_LIMIT && MinutesAfter(s, ev, k) < MINUTES_LIMIT && s.now < SECONDS_LIMIT
    && match ev
       case SetProperties(_, _, props) => props.timeout.Some? ==> Short(props.timeout.value)
       case DeclareActive(_, _, _, given) => given.timeout.Some? ==> Short(given.timeout.value)
       case DeclareNetwork(_, _, _, given) => given.timeout.Some? ==> Short(given.timeout.value)
       case _ => true
  }

  /** Deadline and remainder are at most `r` seconds ahead. */
  predicate Ahead(a: Assertion, now: nat, r: nat) {
    Short(a.askedTimeout) && a.timeout <= now + r && a.resumeIn <= r
  }

  ghost predicate AllAhead(s: State, k: TypeId, r: nat) {
    forall j :: j in s.table && Following(s.table[j], k) ==> Ahead(s.table[j], s.now, r)
  }

  /** A change of the setting may move a deadline further ahead, by no more than the largest setting. */
  function Further(ev: Event, k: TypeId, r: nat): nat {
    if Sets(ev, k) then r + 60 * MINUTES_LIMIT else r
  }

  lemma ActedAsked(r: AssertionType, b: Assertion, plan: Plan, t: nat, k: TypeId, now: nat)
    ensures Acted(r, b, plan, t, k, now).askedTimeout == b.askedTimeout
  {
  }

  lemma UpdatedAsked(types: Types, a: Assertion, props: Props, k: TypeId, now: nat)
    requires |types| == TYPE_COUNT
    ensures Updated(types, a, props, k, now).askedTimeout == AskedTime(a, props)
  {
    hide WithProps, Acted, PlanFor;
    var b := WithProps(a, props, types[a.kassert].notValidOnBatt);
    WithPropsDeadline(a, props, types[a.kassert].notValidOnBatt);
    var t := if props.timeout.Some? then Deadline(types[a.kassert], props.timeout.value, now) else a.timeout;
    ActedAsked(types[k], b, PlanFor(a.inactive, props), t, k, now);
  }

  lemma UpdateAhead(types: Types, a: Assertion, props: Props, k: TypeId, now: nat, minutes: nat, r: nat)
    requires |types| == TYPE_COUNT && a.kassert == k && !types[k].autoTimed && OneBit(a) && !LevelOffWithTimeout(props)
    requires !a.suspended && AtFloor(a, minutes) && Ahead(a, now, r) && SECONDS_LIMIT <= r
    requires props.timeout.Some? ==> Short(props.timeout.value)
    ensures Ahead(Updated(types, a, props, k, now), now, r)
  {
    hide Updated, UpdateKeeps;
    UpdatedDeadline(types, a, props, k, now, minutes);
    UpdatedAsked(types, a, props, k, now);
  }

  lemma DeclarationAhead(s: State, ev: Event, k: TypeId, j: Index, a: Assertion, r: nat)
    requires Usual(s, ev, k, j, a) && (ev.DeclareActive? || ev.DeclareNetwork?) && Modest(s, ev, k)
    requires AtFloor(a, Minutes(s, k)) && Ahead(a, s.now, r) && SECONDS_LIMIT <= r
    ensures Ahead(AfterDeclaration(s, ev, j, a), s.now, r)
  {
    hide Updated, DisplaySeconds, IdleSeconds;
    SecondsFit(Minutes(s, k));
    if ev.id != 0 && j == IndexFromId(ev.id) && a.pid == ev.pid && a.kassert == DeclaredType(ev)
        && !Refused(s.suspendedPids, a) {
      UpdateAhead(s.types, a.(level := On), DeclaredProps(s, ev), k, s.now, Minutes(s, k), r);
    }
  }

  lemma AskedKept(s: State, ev: Event, k: TypeId, j: Index, a: Assertion)
    requires Usual(s, ev, k, j, a) && (Plain(ev, k) || Sets(ev, k) || ev.ProcessResumes?)
    ensures After(s, ev, j, a).Some? ==> After(s, ev, j, a).value.askedTimeout == a.askedTimeout
  {
    hide Updated, AfterDeclaration, PushCap, DisplayChange, IdleChange, DisplaySeconds, IdleSeconds, Shifted;
  }

  lemma RecordAhead(s: State, ev: Event, k: TypeId, j: Index, a: Assertion, r: nat)
    requires Usual(s, ev, k, j, a) && Modest(s, ev, k) && AtFloor(a, Minutes(s, k))
    requires Ahead(a, s.now, r) && SECONDS_LIMIT <= r
    ensures var now := if ev.TimePasses? then s.now + ev.seconds else s.now;
            After(s, ev, j, a).Some? ==> Ahead(After(s, ev, j, a).value, now, Further(ev, k, r))
  {
    hide Updated, RetimedFor, AfterDeclaration, After, Usual;
    if Sets(ev, k) {
      AskedKept(s, ev, k, j, a);
      SettingAhead(s, ev, k, j, a, r);
    } else if Plain(ev, k) {
      AskedKept(s, ev, k, j, a);
      AfterPlain(s, ev, k, j, a);
    } else {
      GivenAhead(s, ev, k, j, a, r);
    }
  }

  lemma SettingAhead(s: State, ev: Event, k: TypeId, j: Index, a: Assertion, r: nat)
    requires Usual(s, ev, k, j, a) && Modest(s, ev, k) && AtFloor(a, Minutes(s, k)) && Sets(ev, k)
    requires Ahead(a, s.now, r) && SECONDS_LIMIT <= r
    ensures var b := After(s, ev, j, a); b.Some? && b.value.timeout <= s.now + r + 60 * MINUTES_LIMIT
                                          && b.value.resumeIn == a.resumeIn
  {
    hide RetimedFor, After;
    AfterSetting(s, ev, k, j, a);
    RetimedDeadline(a, k, ev.minutes, Minutes(s, k), s.now);
  }

  lemma GivenAhead(s: State, ev: Event, k: TypeId, j: Index, a: Assertion, r: nat)
    requires Usual(s, ev, k, j, a) && Modest(s, ev, k) && AtFloor(a, Minutes(s, k)) && !Sets(ev, k) && !Plain(ev, k)
    requires Ahead(a, s.now, r) && SECONDS_LIMIT <= r
    ensures After(s, ev, j, a).Some? && Ahead(After(s, ev, j, a).value, s.now, r)
  {
    hide Updated, AfterDeclaration;
    match ev {
      case SetProperties(pid, id, props) =>
        if Permitted(s, j, a, pid, id) {
          UpdateAhead(s.types, a, props, k, s.now, Minutes(s, k), r);
        }
      case DeclareActive(_, _, _, _) => DeclarationAhead(s, ev, k, j, a, r);
      case DeclareNetwork(_, _, _, _) => DeclarationAhead(s, ev, k, j, a, r);
      case ProcessResumes(_) =>
    }
  }

  /** A new follower's deadline is the setting's or the one its client asked for. */
  lemma NewAhead(s: State, ev: Event, k: TypeId)
    requires InvAt(s) && NamesAt(s) && Possible(s, ev) && Creates(s, ev) && Follows(k) && Modest(s, ev, k)
    ensures var b := NewRecord(s, ev); Following(b, k) ==> Ahead(b, s.now, SECONDS_LIMIT)
  {
    hide InvAt, NamesAt, Possible, NewRecord, HasFree, Extends;
    if (ev.DeclareActive? || ev.DeclareNetwork?) && DeclaredType(ev) == k {
      NewOfType(s, ev, k);
      NewAsked(s, ev, k);
    } else {
      NewOther(s, ev, k);
    }
  }

  lemma NewAsked(s: State, ev: Event, k: TypeId)
    requires (ev.DeclareActive? || ev.DeclareNetwork?) && DeclaredType(ev) == k && Modest(s, ev, k)
    ensures Short(AskedAnew(ev.q, ev.given, k, DeclaredSeconds(s, ev), ev.DeclareActive?).timeout)
  {
    hide DisplaySeconds, IdleSeconds;
    SecondsFit(Minutes(s, k));
  }

  /** A step moves no deadline further ahead than a change of the setting may. */
  lemma AheadStep(s: State, ev: Event, s': State, k: TypeId, r: nat)
    requires InvAt(s) && NamesAt(s) && InvAt(s') && Possible(s, ev) && Stepped(s, ev, s')
    requires Follows(k) && Within(s, ev, k) && Modest(s, ev, k) && Floor(s, k) && AllAhead(s, k, r)
               && SECONDS_LIMIT <= r
    ensures AllAhead(s', k, Further(ev, k, r))
  {
    hide InvAt, NamesAt, Possible, Stepped, After, Creates, NewRecord, Usual, Modest, Ahead, Further;
    SettingAfter(s, ev, s', k);
    SizeOf(s);
    forall j | j in s'.table && Following(s'.table[j], k) ensures Ahead(s'.table[j], s'.now, Further(ev, k, r)) {
      FollowerOrigin(s, ev, s', k, j);
      if j in s.table && Following(s.table[j], k) && After(s, ev, j, s.table[j]) == Some(s'.table[j]) {
        UsualFacts(s, ev, k, j);
        RecordAhead(s, ev, k, j, s.table[j], r);
      } else {
        NewAhead(s, ev, k);
        CreatesSetsNothing(s, ev, k);
        AheadMore(s'.table[j], s'.now, SECONDS_LIMIT, Further(ev, k, r), ev, k, r);
      }
    }
  }

  lemma AheadMore(a: Assertion, now: nat, r: nat, r': nat, ev: Event, k: TypeId, r0: nat)
    requires Ahead(a, now, r) && r' == Further(ev, k, r0) && r <= r0
    ensures Ahead(a, now, r')
  {
  }

  /** How often the first `n` events set the setting. */
  function Changes(events: seq<Event>, k: TypeId, n: nat): nat
    requires n <= |events|
  {
    if n == 0 then 0 else (if Sets(events[n - 1], k) then 1 else 0) + Changes(events, k, n - 1)
  }

  /** How far ahead a deadline can be after the first `n` events. */
  function Reach(events: seq<Event>, k: TypeId, n: nat): nat
    requires n <= |events|
  {
    SECONDS_LIMIT + 60 * MINUTES_LIMIT * Changes(events, k, n)
  }

  lemma ReachStep(events: seq<Event>, k: TypeId, n: nat)
    requires 0 < n <= |events|
    ensures Reach(events, k, n) == Further(events[n - 1], k, Reach(events, k, n - 1))
    ensures Changes(events, k, n - 1) <= Changes(events, k, n)
  {
  }

  /** So with settings, clock and clients' times below their limits, and no more changes than there may be, no
      deadline leaves its type. */
  lemma AheadWithin(s: State, ev: Event, events: seq<Event>, k: TypeId, n: nat)
    requires n <= |events| && Changes(events, k, n) < CHANGES_LIMIT && Modest(s, ev, k)
    requires AllAhead(s, k, Reach(events, k, n))
    ensures Within(s, ev, k)
  {
    ReachBound(Changes(events, k, n));
    hide Modest, Changes;
    AheadTimes(s, k, Reach(events, k, n));
    ModestLimits(s, ev, k);
  }

  lemma ReachBound(n: nat)
    requires n < CHANGES_LIMIT
    ensures SECONDS_LIMIT + 60 * MINUTES_LIMIT * n < TIME_LIMIT - SECONDS_LIMIT
  {
  }

  lemma AheadTimes(s: State, k: TypeId, r: nat)
    requires AllAhead(s, k, r) && s.now < SECONDS_LIMIT && r < TIME_LIMIT - SECONDS_LIMIT
    ensures forall j :: j in s.table && Following(s.table[j], k) ==> s.table[j].timeout < TIME_LIMIT
  {
  }

  lemma ModestLimits(s: State, ev: Event, k: TypeId)
    requires Modest(s, ev, k)
    ensures Minutes(s, k) < MINUTES_LIMIT && MinutesAfter(s, ev, k) < MINUTES_LIMIT
    ensures s.now < SECONDS_LIMIT <= TIME_LIMIT
  {
  }

  /** The state may start a run: nothing is below the setting, and nothing too far ahead.  After boot there is no
      assertion at all. */
  ghost predicate Starts(s: State, k: TypeId) {
    Floor(s, k) && Carried(s, k) && AllAhead(s, k, SECONDS_LIMIT)
  }

  /** The first `n` events are calm and modest. */
  ghost predicate AllModest(trace: seq<State>, events: seq<Event>, k: TypeId, n: nat)
    requires |trace| == |events| + 1 && n <= |events|
  {
    && Changes(events, k, n) < CHANGES_LIMIT
    && forall m :: 0 <= m < n && Possible(trace[m], events[m]) ==>
         Modest(trace[m], events[m], k) && AllCalm(trace[m], events[m], k)
  }

  /** In a run of calm events every system-set deadline of the type is at least the setting, in every state. */
  lemma {:induction false} FloorThroughout(trace: seq<State>, events: seq<Event>, k: TypeId, n: nat)
    requires Runs(trace, events) && n <= |events| && Follows(k) && Starts(trace[0], k)
    requires AllModest(trace, events, k, n)
    ensures Floor(trace[n], k) && Carried(trace[n], k) && AllAhead(trace[n], k, Reach(events, k, n))
  {
    hide InvAt, NamesAt, Possible, Stepped, Within, AllCalm, Floor, Carried, Modest, AllAhead, Further, Reach, Changes;
    if n == 0 {
      assert Reach(events, k, 0) == SECONDS_LIMIT by { ReachStart(events, k); }
    } else {
      var s, ev, r := trace[n - 1], events[n - 1], Reach(events, k, n - 1);
      ReachStep(events, k, n);
      FloorThroughout(trace, events, k, n - 1);
      assert Stepped(trace[n - 1], events[n - 1], trace[n - 1 + 1]);
      ReachLarge(events, k, n - 1);
      if Possible(s, ev) {
        AheadWithin(s, ev, events, k, n - 1);
        CalmStep(s, ev, trace[n], k);
        AheadStep(s, ev, trace[n], k, r);
      } else {
        NotPossibleSame(s, ev, trace[n]);
        AheadAnyway(s, k, r, Reach(events, k, n));
      }
    }
  }

  lemma ReachStart(events: seq<Event>, k: TypeId)
    ensures Reach(events, k, 0) == SECONDS_LIMIT
  {
  }

  lemma ReachLarge(events: seq<Event>, k: TypeId, n: nat)
    requires n <= |events|
    ensures SECONDS_LIMIT <= Reach(events, k, n)
    ensures n < |events| ==> Reach(events, k, n) <= Reach(events, k, n + 1)
  {
  }

  lemma AheadAnyway(s: State, k: TypeId, r: nat, r': nat)
    requires AllAhead(s, k, r) && r <= r'
    ensures AllAhead(s, k, r')
  {
  }

  /** So a change of the setting moves every system-set deadline by the exact difference, floored at now: the
      unsigned addition never wraps. */
  lemma ChangesAreExact(trace: seq<State>, events: seq<Event>, k: TypeId, n: nat, j: Index)
    requires Runs(trace, events) && n < |events| && Follows(k) && Starts(trace[0], k)
    requires AllModest(trace, events, k, n) && Changes(events, k, n) < CHANGES_LIMIT && Modest(trace[n], events[n], k)
    requires Sets(events[n], k) && events[n].minutes != 0 && events[n].minutes != Minutes(trace[n], k)
    requires j in trace[n].table && Following(trace[n].table[j], k) && trace[n].table[j].timed
    ensures j in trace[n + 1].table
    ensures var a := trace[n].table[j]; var t := a.timeout + (events[n].minutes - Minutes(trace[n], k)) * 60;
            trace[n + 1].table[j].timed && trace[n + 1].table[j].timeout == if t < trace[n].now then trace[n].now else t
  {
    hide InvAt, NamesAt, Stepped, AllCalm, Carried, Starts, AllModest, AllAhead, Modest, Within, Changes, Reach;
    FloorThroughout(trace, events, k, n);
    var s, ev := trace[n], events[n];
    AheadWithin(s, ev, events, k, n);
    assert Stepped(trace[n], events[n], trace[n + 1]);
    SizeOf(s);
    UsualFacts(s, ev, k, j);
    EntryAfter(s, ev, trace[n + 1], j);
    ExactRecord(s, ev, k, j, s.table[j]);
  }

  lemma ExactRecord(s: State, ev: Event, k: TypeId, j: Index, a: Assertion)
    requires Usual(s, ev, k, j, a) && AtFloor(a, Minutes(s, k)) && a.timed
    requires Sets(ev, k) && ev.minutes != 0 && ev.minutes != Minutes(s, k)
    ensures var t := a.timeout + (ev.minutes - Minutes(s, k)) * 60;
            After(s, ev, j, a) == Some(a.(timeout := if t < s.now then s.now else t))
  {
    hide After, RetimedFor;
    AfterSetting(s, ev, k, j, a);
    RetimedDeadline(a, k, ev.minutes, Minutes(s, k), s.now);
  }

  // ---- a run that loses the floor ------------------------------------------------------

  /** Declared for one minute at time 100, suspended at once; the setting goes up to 100 minutes and, once the
      assertion is back, down to one minute again. */
  function LosingEvents(q: Request, given: Props): seq<Event> {
    [DeclareActive(7, 0, q, given), ProcessSuspends(7, true), DisplaySleep(100), TimePasses(10), ProcessResumes(7),
        DisplaySleep(1)]
  }

  /** The suspended list is not walked when the setting changes, so the remainder of a minute comes back under a
      setting of 100 minutes; going back to one minute takes 99 minutes off a deadline of 170 seconds, and the
      unsigned sum wraps around. */
  lemma FloorLost(trace: seq<State>, q: Request, given: Props)
    requires Runs(trace, LosingEvents(q, given)) && q.age == 0 && given.level != Some(Off)
    requires trace[0].table == map[] && trace[0].suspendedPids == {} && trace[0].powerd != 7
    requires trace[0].now == 100 && trace[0].displayTimer == 1 && trace[0].proxy.None?
    ensures exists j :: j in trace[6].table && trace[6].table[j].timed && trace[6].table[j].timeout == TWO_64 - 5770
    ensures trace[6].now == 110 && trace[6].displayTimer == 1
  {
    hide InvAt, NamesAt, Stepped, After, NewRecord, Scalars, SuspendedForm, ResumedForm, Retimed;
    var evs := LosingEvents(q, given);
    assert forall n :: 0 <= n < 6 ==> Stepped(trace[n], evs[n], trace[n + 1]);
    SizeOf(trace[0]);
    var j := LosingDeclared(trace[0], trace[1], q, given);
    var a := trace[1].table[j];
    LosingRecord(a);
    LosingSuspended(trace[1], trace[2], j);
    LosingChange(trace[2], 100, trace[3], j);
    LosingWait(trace[3], trace[4], j);
    LosingResumed(trace[4], trace[5], j);
    LosingChange(trace[5], 1, trace[6], j);
  }

  lemma LosingSuspended(s: State, s': State, j: Index)
    requires InvAt(s) && Stepped(s, ProcessSuspends(7, true), s') && j in s.table && LosingStart(s.table[j])
               && s.powerd != 7
    requires s.suspendedPids == {}
    ensures j in s'.table && s'.table[j] == SuspendedForm(s.table[j], s.now)
    ensures s'.powerd == s.powerd && s'.now == s.now && s'.displayTimer == s.displayTimer && s'.suspendedPids == {7}
  {
    hide InvAt, Stepped, SuspendedForm;
    SizeOf(s);
    LosingStep(s, ProcessSuspends(7, true), s', j);
    assert {} + {7} == {7};
  }

  lemma LosingChange(s: State, minutes: nat, s': State, j: Index)
    requires InvAt(s) && Stepped(s, DisplaySleep(minutes), s') && j in s.table
               && s.table[j].kassert == DECLARE_USER_ACTIVITY
    requires s.table[j].pid != s.powerd && minutes != s.displayTimer
    ensures j in s'.table
    ensures s'.table[j] == Retimed(s.table[j], minutes != 0, DisplayChange(minutes, s.displayTimer),
              s.now + DisplaySeconds(minutes), s.now)
    ensures s'.powerd == s.powerd && s'.now == s.now && s'.displayTimer == minutes
              && s'.suspendedPids == s.suspendedPids
  {
    hide InvAt, Stepped, Retimed, DisplayChange, DisplaySeconds;
    SizeOf(s);
    LosingStep(s, DisplaySleep(minutes), s', j);
  }

  lemma LosingWait(s: State, s': State, j: Index)
    requires InvAt(s) && Stepped(s, TimePasses(10), s') && j in s.table && s.table[j].pid != s.powerd
    ensures j in s'.table && s'.table[j] == s.table[j]
    ensures s'.powerd == s.powerd && s'.now == s.now + 10 && s'.displayTimer == s.displayTimer
              && s'.suspendedPids == s.suspendedPids
  {
    hide InvAt, Stepped;
    SizeOf(s);
    LosingStep(s, TimePasses(10), s', j);
  }

  lemma LosingResumed(s: State, s': State, j: Index)
    requires InvAt(s) && Stepped(s, ProcessResumes(7), s') && j in s.table && s.table[j].pid == 7
               && s.table[j].suspended && s.powerd != 7
    requires 7 in s.suspendedPids
    ensures j in s'.table && s'.table[j] == ResumedForm(s.table[j], s.now)
    ensures s'.powerd == s.powerd && s'.now == s.now && s'.displayTimer == s.displayTimer
  {
    hide InvAt, Stepped, ResumedForm;
    SizeOf(s);
    LosingStep(s, ProcessResumes(7), s', j);
  }

  lemma LosingDeclared(s: State, s': State, q: Request, given: Props) returns (j: Index)
    requires InvAt(s) && InvAt(s') && Stepped(s, DeclareActive(7, 0, q, given), s') && q.age == 0
               && given.level != Some(Off)
    requires s.table == map[] && s.suspendedPids == {} && s.powerd != 7 && s.now == 100 && s.displayTimer == 1
    ensures s'.now == s.now && s'.displayTimer == 1 && s'.suspendedPids == {} && s'.powerd != 7
    ensures j in s'.table && LosingStart(s'.table[j])
  {
    var ev := DeclareActive(7, 0, q, given);
    hide TimersAt, DerivesAt, HouseAt, NewRecord, ProxyFrom, Miscounts, Staying, AllSameConfig, HandsOff, Become;
    assert 0 !in s.table;
    assert HasFree(s.table) && Possible(s, ev) && Creates(s, ev);
    j :| j !in s.table && s'.table.Keys == s.table.Keys + {j} && s'.table[j] == NewRecord(s, ev);
    assert TypeOK(DECLARE_USER_ACTIVITY, s.types[DECLARE_USER_ACTIVITY]);
    hide SoundAt;
    LosingNew(s, q, given);
  }

  /** What the run starts from. */
  predicate LosingStart(a: Assertion) {
    && a.pid == 7 && Following(a, DECLARE_USER_ACTIVITY) && a.timed && !a.inactive && !a.suspended && a.timeout == 160
    && !a.level.Off?
  }

  lemma LosingNew(s: State, q: Request, given: Props)
    requires Possible(s, DeclareActive(7, 0, q, given)) && !s.types[DECLARE_USER_ACTIVITY].autoTimed
    requires q.age == 0 && given.level != Some(Off) && s.now == 100 && s.displayTimer == 1
    ensures LosingStart(NewRecord(s, DeclareActive(7, 0, q, given)))
  {
  }

  lemma LosingStep(s: State, ev: Event, s': State, j: Index)
    requires InvAt(s) && Stepped(s, ev, s') && Possible(s, ev) && j in s.table && s.table[j].pid != s.powerd
    ensures match After(s, ev, j, s.table[j])
            case Some(b) => j in s'.table && s'.table[j] == b
            case None => true
    ensures s'.powerd == s.powerd && s'.now == Scalars(s, ev).now && s'.displayTimer == Scalars(s, ev).displayTimer
    ensures s'.suspendedPids == Scalars(s, ev).suspendedPids
  {
    hide SoundAt, TimersAt, DerivesAt, After, Possible, Become, Appear, Staying, Miscounts, HandsOff, TypesAfter,
         AllSameConfig, ProxyFrom, BackgroundAfter;
    LosingEntry(s, ev, s', j);
  }

  lemma LosingEntry(s: State, ev: Event, s': State, j: Index)
    requires InvAt(s) && Stepped(s, ev, s') && Possible(s, ev) && j in s.table && s.table[j].pid != s.powerd
    ensures match After(s, ev, j, s.table[j])
            case Some(b) => j in s'.table && s'.table[j] == b
            case None => true
  {
    hide SoundAt, TimersAt, DerivesAt, After, Possible, Stepped;
    EntryAfter(s, ev, s', j);
  }

  lemma LosingRecord(a: Assertion)
    requires LosingStart(a)
    ensures SuspendedForm(a, 100).suspended && SuspendedForm(a, 100).pid == 7
              && SuspendedForm(a, 100).kassert == DECLARE_USER_ACTIVITY
    ensures var b := ResumedForm(SuspendedForm(a, 100), 110);
            && b.pid == 7 && b.kassert == DECLARE_USER_ACTIVITY
            && Retimed(SuspendedForm(a, 100), true, DisplayChange(100, 1), 100 + DisplaySeconds(100), 100)
                 == SuspendedForm(a, 100)
            && b.timed && b.timeout == 170
            && Retimed(b, true, DisplayChange(1, 100), 110 + DisplaySeconds(1), 110) == b.(timeout := TWO_64 - 5770)
  {
    assert DisplayChange(1, 100) == -5940;
    assert (170 - 5940) % TWO_64 == TWO_64 - 5770;
  }

  /** The engine really gets there. */
  method LoseFloor(onBatt: bool, idleTimer: nat, w: Surroundings, q: Request, given: Props)
      returns (e: AssertionEngine.Engine)
    requires (w.sleepServiceWake ==> w.keepAlive) && q.age == 0 && given.level != Some(Off)
    ensures e.Inv() && e.now == 110 && e.displayTimer == 1
    ensures exists j :: j in e.table && e.table[j].timed && e.table[j].timeout == TWO_64 - 5770
  {
    hide SoundAt, TimersAt, HouseAt, DerivesAt, ViewOf, InvAt, Stepped, NamesAt;
    ghost var trace;
    e, trace := EngineRun.RunFromBoot(1, 100, onBatt, 1, idleTimer, w, LosingEvents(q, given));
    FloorLost(trace, q, given);
  }
}
