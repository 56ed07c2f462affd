/**
 The life of one assertion over a run: what a creation asks for is what later events act on, and how many
 references keep it in the table.
 */
module EngineLifetimes {
  import opened Common
  import opened EffectMirror
  import opened AssertionLists
  import opened EngineSteps
  import Retiming

  // ---- what a creation gives -----------------------------------------------------------

  /** The record is what the client asked for: its own, with one reference, of the type its name stands for, with the
      properties given; inactive exactly when the level asked for is off, otherwise live; exempt on battery exactly
      when it was asked to be and its type keeps assertions out there.  Times count from the creation
      date. */
  predicate AsAsked(b: Assertion, pid: Pid, q: Request, k: TypeId, r: AssertionType, now: nat) {
    && b.pid == pid && b.retain == 1 && b.kassert == k && q.name == Some(b.name)
    && b.level == q.level && b.askedTimeout == q.timeout && b.action == q.action && b.async == q.async
    && b.limitedPower == q.limitedPower && b.onBehalfOf == q.onBehalfOf
    && !b.suspended && b.resumeIn == 0
    && (b.inactive <==> q.level.Off?) && b.createTime == now - q.age
    && (b.validOnBatt <==> !q.level.Off? && q.limitedPower && r.notValidOnBatt)
    && b.causing == (if !q.level.Off? && q.onBehalfOf.Some? then q.onBehalfOf.value else 0)
    && (b.timed <==> !q.level.Off? && Limited(r, q.timeout))
    && (if b.timed then Due(b.timeout, r, q.timeout, now - q.age) else b.timeout == 0)
  }

  /** The type has an automatic timeout, or a time was asked for. */
  predicate Limited(r: AssertionType, asked: Seconds) {
    if r.autoTimed then r.autoTimeout > 0 else asked != 0.0
  }

  /** The deadline is the time asked for from `start` on; a type with an automatic timeout grants no more than that,
      also when nothing was asked for. */
  predicate Due(deadline: nat, r: AssertionType, asked: Seconds, start: int) {
    if r.autoTimed && (asked == 0.0 || asked > r.autoTimeout as real) then deadline == r.autoTimeout + start
    else deadline == asked.Floor + start
  }

  lemma NewIsAsAsked(s: State, ev: Event)
    requires |s.types| == TYPE_COUNT && Possible(s, ev) && ev.Create? && ev.q.name.Some?
    ensures var k := s.Resolve(ev.q.name.value);
              AsAsked(NewRecord(s, ev), ev.pid, ev.q, k, s.types[k], s.now) && !NewRecord(s, ev).sysTimer
  {
  }

  /** A creation by a process that is not suspended, of a known type and with room in the table, adds exactly one
      assertion, and it is as asked; any other creation changes nothing in the table. */
  lemma CreateMeans(s: State, ev: Event, s': State)
    requires InvAt(s) && InvAt(s') && Possible(s, ev) && Stepped(s, ev, s') && ev.Create?
    ensures |s.types| == TYPE_COUNT && s'.proxy == s.proxy
    ensures if ev.pid !in s.suspendedPids && HasFree(s.table) && ev.q.name.Some?
            then exists i :: i !in s.table && i in s'.table && s'.table == s.table[i := s'.table[i]] &&
                   var k := s.Resolve(ev.q.name.value); AsAsked(s'.table[i], ev.pid, ev.q, k, s.types[k], s.now)
            else s'.table == s.table
  {
    hide InvAt, Possible, AsAsked, NewRecord, ProxyFrom, Staying, Miscounts, Scalars, Counters, AllSameConfig;
    SizeOf(s);
    assert Possible(s, ev);
    assert forall j :: j in s.table ==> j in s'.table && s'.table[j] == s.table[j];
    if Creates(s, ev) {
      NewIsAsAsked(s, ev);
      var i :| i !in s.table && s'.table.Keys == s.table.Keys + {i} && s'.table[i] == NewRecord(s, ev);
      assert s'.table == s.table[i := s'.table[i]];
    } else {
      assert s'.table == s.table;
    }
  }

  // ---- what an update gives ------------------------------------------------------------

  /** The record after an update that is not refused.  The properties given replace the old ones, the limited-power
      property only under a type that keeps assertions out on battery.  A live assertion goes inactive when the level
      given is off, and otherwise gets the time given, if any, from now on.  An inactive one is raised again, under
      the type its name stands for now, when the level given is on or a time is given, and is live then unless its
      level is off. */
  predicate UpdatedAsAsked(a: Assertion, b: Assertion, props: Props, r: AssertionType, k: TypeId, r': AssertionType,
                           now: nat)
  {
    && b == a.(level := b.level, askedTimeout := b.askedTimeout, limitedPower := b.limitedPower, action := b.action,
               onBehalfOf := b.onBehalfOf, validOnBatt := b.validOnBatt, causing := b.causing, kassert := b.kassert,
               createTime := b.createTime, timeout := b.timeout, timed := b.timed, inactive := b.inactive)
    && b.level == (if props.level.Some? then props.level.value else a.level)
    && b.askedTimeout == (if props.timeout.Some? then props.timeout.value else a.askedTimeout)
    && b.action == (if props.action.Some? then props.action.value else a.action)
    && b.onBehalfOf == (if props.onBehalfOf.Some? then props.onBehalfOf else a.onBehalfOf)
    && b.limitedPower == (if props.limitedPower.Some? && r.notValidOnBatt then props.limitedPower.value
                          else a.limitedPower)
    && var flag := if props.limitedPower.Some? && r.notValidOnBatt then props.limitedPower.value else a.validOnBatt;
       if !a.inactive then
         && b.kassert == a.kassert && b.validOnBatt == flag && b.causing == a.causing
         && (b.inactive <==> props.level == Some(Off))
         && (if b.inactive then !b.timed && b.timeout == a.timeout && b.createTime == a.createTime
             else if props.timeout.Some? then
               && b.createTime == now && (b.timed <==> b.timeout != 0)
               && (if Limited(r, props.timeout.value) then Due(b.timeout, r, props.timeout.value, now)
                   else b.timeout == 0)
             else b.timed == a.timed && b.timeout == a.timeout && b.createTime == a.createTime)
       else if props.level == Some(On) || props.timeout.Some? then
         && b.kassert == k && b.createTime == now && (b.inactive <==> b.level.Off?)
         && (b.validOnBatt <==> flag || (!b.inactive && r'.notValidOnBatt && b.limitedPower))
         && b.causing == (if !b.inactive && b.onBehalfOf.Some? then b.onBehalfOf.value else a.causing)
         && (b.timed <==> !b.inactive && Limited(r', b.askedTimeout))
         && (if b.timed then Due(b.timeout, r', b.askedTimeout, now)
             else if props.timeout.None? then b.timeout == a.timeout
             else if Limited(r, props.timeout.value) then Due(b.timeout, r, props.timeout.value, now)
             else b.timeout == 0)
       else
         && b.inactive && !b.timed && b.kassert == a.kassert && b.validOnBatt == flag && b.causing == a.causing
         && b.timeout == a.timeout && b.createTime == a.createTime
  }

  lemma UpdatedMeans(types: Types, a: Assertion, props: Props, k: TypeId, now: nat)
    requires |types| == TYPE_COUNT && !LevelOffWithTimeout(props) && OneBit(a) && !a.suspended
    ensures UpdatedAsAsked(a, Updated(types, a, props, k, now), props, types[a.kassert], k, types[k], now)
  {
    if a.inactive {
      UpdatedInactive(types, a, props, k, now);
    } else {
      UpdatedLive(types, a, props, k, now);
    }
  }

  lemma Granted(r: AssertionType, asked: Seconds, start: nat)
    ensures EffectiveTimeout(r, asked) != 0.0 <==> Limited(r, asked)
    ensures Limited(r, asked) ==> Due(EffectiveTimeout(r, asked).Floor + start, r, asked, start)
  {
  }

  lemma UpdatedLive(types: Types, a: Assertion, props: Props, k: TypeId, now: nat)
    requires |types| == TYPE_COUNT && !LevelOffWithTimeout(props) && OneBit(a) && !a.suspended && !a.inactive
    ensures UpdatedAsAsked(a, Updated(types, a, props, k, now), props, types[a.kassert], k, types[k], now)
  {
    hide EffectiveTimeout, Limited, Due;
    if props.timeout.Some? {
      Granted(types[a.kassert], props.timeout.value, now);
    }
  }

  lemma UpdatedInactive(types: Types, a: Assertion, props: Props, k: TypeId, now: nat)
    requires |types| == TYPE_COUNT && !LevelOffWithTimeout(props) && OneBit(a) && a.inactive
    ensures UpdatedAsAsked(a, Updated(types, a, props, k, now), props, types[a.kassert], k, types[k], now)
  {
    hide EffectiveTimeout, Limited, Due, Raised, WithProps, PlanFor;
    var r := types[a.kassert];
    var b := WithProps(a, props, r.notValidOnBatt);
    PropsGiven(a, props, r.notValidOnBatt);
    PlanWhenInactive(props);
    if props.timeout.Some? {
      Granted(r, props.timeout.value, now);
    }
    var t := if props.timeout.Some? then Deadline(r, props.timeout.value, now) else a.timeout;
    RaisedMeans(types[k], b.(inactive := false, timeout := t), k, now);
  }

  lemma PlanWhenInactive(props: Props)
    requires !LevelOffWithTimeout(props)
    ensures PlanFor(true, props) == if props.level == Some(On) || props.timeout.Some? then Plan.TurnItOn else Keep
  {
  }

  lemma PropsGiven(a: Assertion, props: Props, flagged: bool)
    ensures var b := WithProps(a, props, flagged);
            && b == a.(level := b.level, askedTimeout := b.askedTimeout, limitedPower := b.limitedPower,
                       action := b.action, onBehalfOf := b.onBehalfOf, validOnBatt := b.validOnBatt)
            && b.level == (if props.level.Some? then props.level.value else a.level)
            && b.askedTimeout == (if props.timeout.Some? then props.timeout.value else a.askedTimeout)
            && b.action == (if props.action.Some? then props.action.value else a.action)
            && b.onBehalfOf == (if props.onBehalfOf.Some? then props.onBehalfOf else a.onBehalfOf)
            && b.limitedPower == (if props.limitedPower.Some? && flagged then props.limitedPower.value
                                  else a.limitedPower)
            && b.validOnBatt
                 == (if props.limitedPower.Some? && flagged then props.limitedPower.value else a.validOnBatt)
  {
  }

  lemma RaisedMeans(r: AssertionType, x: Assertion, k: TypeId, now: nat)
    requires !x.timed && !x.inactive
    ensures var c := Raised(r, x, k, now);
            && c == x.(validOnBatt := c.validOnBatt, causing := c.causing, kassert := k, createTime := now,
                       timeout := c.timeout, timed := c.timed, inactive := c.inactive)
            && (c.inactive <==> x.level.Off?)
            && (c.validOnBatt <==> x.validOnBatt || (!c.inactive && r.notValidOnBatt && x.limitedPower))
            && c.causing == (if !c.inactive && x.onBehalfOf.Some? then x.onBehalfOf.value else x.causing)
            && (c.timed <==> !c.inactive && Limited(r, x.askedTimeout))
            && (if c.timed then Due(c.timeout, r, x.askedTimeout, now) else c.timeout == x.timeout)
  {
    hide EffectiveTimeout, Limited, Due;
    Granted(r, x.askedTimeout, now);
  }

  /** An update by the owner of an assertion that concerns no suspended process does that and changes no other
      assertion but powerd's proxy, when the display is handed over; any other update changes nothing. */
  lemma UpdateMeans(s: State, ev: Event, s': State)
    requires InvAt(s) && InvAt(s') && Possible(s, ev) && Stepped(s, ev, s') && ev.SetProperties?
    ensures |s.types| == TYPE_COUNT
    ensures var i := IndexFromId(ev.id);
            if Named(s, ev.pid, ev.id) && !Refused(s.suspendedPids, s.table[i]) then
              && i in s'.table
              && var a := s.table[i]; var k := s.Resolve(a.name);
                 UpdatedAsAsked(a, s'.table[i], ev.props, s.types[a.kassert], k, s.types[k], s.now)
            else s'.table == s.table
    ensures forall j :: j != IndexFromId(ev.id) && (s'.proxy != Some(j) || !HandsOff(s, ev)) ==>
              (j in s'.table <==> j in s.table) && (j in s.table ==> s'.table[j] == s.table[j])
  {
    hide InvAt, Possible, Stepped, UpdatedAsAsked, HandsOff;
    var i := IndexFromId(ev.id);
    SizeOf(s);
    UpdateAllowed(s, ev);
    UpdateStep(s, ev, s');
    if Named(s, ev.pid, ev.id) && !Refused(s.suspendedPids, s.table[i]) {
      NotHeld(s, i);
      UpdatedMeans(s.types, s.table[i], ev.props, s.Resolve(s.table[i].name), s.now);
    }
  }

  lemma UpdateAllowed(s: State, ev: Event)
    requires Possible(s, ev) && ev.SetProperties?
    ensures !LevelOffWithTimeout(ev.props) && (s.proxy == Some(IndexFromId(ev.id)) ==> ev.pid != s.powerd)
  {
  }

  lemma NotHeld(s: State, i: Index)
    requires InvAt(s) && i in s.table && !Refused(s.suspendedPids, s.table[i])
    ensures OneBit(s.table[i]) && !s.table[i].suspended
  {
    hide TimersAt, DerivesAt;
  }

  lemma UpdateStep(s: State, ev: Event, s': State)
    requires InvAt(s) && InvAt(s') && Possible(s, ev) && Stepped(s, ev, s') && ev.SetProperties?
    ensures |s.types| == TYPE_COUNT
    ensures var i := IndexFromId(ev.id);
            if Named(s, ev.pid, ev.id) && !Refused(s.suspendedPids, s.table[i]) then
              && i in s'.table
              && s'.table[i] == Updated(s.types, s.table[i], ev.props, s.Resolve(s.table[i].name), s.now)
            else s'.table == s.table
    ensures forall j :: j != IndexFromId(ev.id) && (s'.proxy != Some(j) || !HandsOff(s, ev)) ==>
              (j in s'.table <==> j in s.table) && (j in s.table ==> s'.table[j] == s.table[j])
  {
    hide SoundAt, TimersAt, DerivesAt, Possible, Miscounts, Scalars, Counters, AllSameConfig, Updated;
    UpdateAllowed(s, ev);
  }

  // ---- what a declaration gives --------------------------------------------------------

  /** The properties a declaration extends an assertion with: the time of the setting, to be released then, in place of
      the client's own; an idle setting of zero leaves these. */
  predicate ExtendsWith(p: Props, given: Props, secs: nat, always: bool) {
    && p.level == given.level && p.onBehalfOf == given.onBehalfOf && p.limitedPower.None?
    && if always || secs != 0 then p.timeout == Some(secs as real) && p.action == Some(ReleaseIt)
       else p.timeout == given.timeout && p.action == given.action
  }

  /** The request it makes for a new assertion. */
  predicate AsksFor(q: Request, asked: Request, given: Props, k: TypeId, secs: nat, always: bool) {
    && q.name == Some(Fixed(k)) && q.age == asked.age && q.async == asked.async && q.onBehalfOf == given.onBehalfOf
    && q.level == (if given.level.Some? then given.level.value else On)
    && (q.limitedPower <==> given.limitedPower == Some(true))
    && if always || secs != 0 then q.timeout == secs as real && q.action == ReleaseIt
       else
         && q.timeout == (if given.timeout.Some? then given.timeout.value else 0.0)
         && q.action == (if given.action.Some? then given.action.value else TurnOff)
  }

  /** The record of an assertion after its owner declares activity on it. */
  ghost predicate DeclaredAsAsked(a: Assertion, b: Assertion, given: Props, secs: nat, always: bool, refused: bool,
                                  r: AssertionType, now: nat)
  {
    if refused then b == a.(level := On)
    else exists p :: ExtendsWith(p, given, secs, always)
           && UpdatedAsAsked(a.(level := On), b, p, r, a.kassert, r, now)
  }

  lemma ExtendedMeans(types: Types, a: Assertion, given: Props, secs: nat, always: bool, refused: bool, now: nat)
    requires |types| == TYPE_COUNT && OneBit(a) && (a.suspended ==> refused)
    requires !LevelOffWithTimeout(Retiming.Asked(given, secs, always))
    ensures var p := Retiming.Asked(given, secs, always);
            DeclaredAsAsked(a, Retiming.Extended(types, a, p, refused, now), given, secs, always, refused,
                types[a.kassert], now)
  {
    hide Updated, UpdatedAsAsked;
    var p := Retiming.Asked(given, secs, always);
    if !refused {
      UpdatedMeans(types, a.(level := On), p, a.kassert, now);
      assert ExtendsWith(p, given, secs, always);
    }
  }

  /** The record of an assertion that a declaration creates. */
  ghost predicate NewAsAsked(b: Assertion, pid: Pid, asked: Request, given: Props, k: TypeId, secs: nat, always: bool,
                             r: AssertionType, now: nat)
  {
    b.sysTimer && exists q :: AsksFor(q, asked, given, k, secs, always) && AsAsked(b, pid, q, k, r, now)
  }

  lemma DeclaredNewMeans(s: State, ev: Event)
    requires |s.types| == TYPE_COUNT && Possible(s, ev) && (ev.DeclareActive? || ev.DeclareNetwork?)
    ensures NewAsAsked(NewRecord(s, ev), ev.pid, ev.q, ev.given, DeclaredType(ev), DeclaredSeconds(s, ev),
              ev.DeclareActive?, s.types[DeclaredType(ev)], s.now)
  {
    hide Retiming.AskedAnew, AsksFor, DeclaredSeconds, AsAsked, Raised, NewAssertion;
    var k := DeclaredType(ev);
    var q := Retiming.AskedAnew(ev.q, ev.given, k, DeclaredSeconds(s, ev), ev.DeclareActive?);
    AskedAnewMeans(ev.q, ev.given, k, DeclaredSeconds(s, ev), ev.DeclareActive?);
    NewIsAsAsked(s, Create(ev.pid, q));
    SameButTimer(NewRecord(s, Create(ev.pid, q)), ev.pid, q, k, s.types[k], s.now);
  }

  lemma AskedAnewMeans(q: Request, given: Props, k: TypeId, secs: nat, always: bool)
    ensures AsksFor(Retiming.AskedAnew(q, given, k, secs, always), q, given, k, secs, always)
    ensures Retiming.AskedAnew(q, given, k, secs, always).name == Some(Fixed(k))
    ensures Retiming.AskedAnew(q, given, k, secs, always).age == q.age
  {
  }

  lemma SameButTimer(b: Assertion, pid: Pid, q: Request, k: TypeId, r: AssertionType, now: nat)
    requires AsAsked(b, pid, q, k, r, now)
    ensures AsAsked(b.(sysTimer := true), pid, q, k, r, now)
  {
  }

  /** The owner names an assertion of the type it declares activity of. */
  predicate Extending(s: State, ev: Event)
    requires ev.DeclareActive? || ev.DeclareNetwork?
  {
    ev.id != 0 && Named(s, ev.pid, ev.id) && s.table[IndexFromId(ev.id)].kassert == DeclaredType(ev)
  }

  /** A declaration of user activity, with the seconds of the display setting, or of network activity, with those of the
      idle setting: the owner's assertion of that type is extended, or refused with its level set all the same;
      without one a system-timed assertion is created, if the process is not suspended and there is room. */
  lemma DeclareMeans(s: State, ev: Event, s': State)
    requires InvAt(s) && InvAt(s') && Possible(s, ev) && Stepped(s, ev, s')
    requires ev.DeclareActive? || ev.DeclareNetwork?
    ensures |s.types| == TYPE_COUNT && s'.proxy == s.proxy
    ensures var k := if ev.DeclareActive? then DECLARE_USER_ACTIVITY else NETWORK_ACCESS;
            var secs := if ev.DeclareActive? then (s.displayTimer * 60) % TWO_32
                        else (s.idleTimer * 60) % Retiming.TWO_64;
            var i := IndexFromId(ev.id);
            if Extending(s, ev) then
              && i in s'.table && s'.table == s.table[i := s'.table[i]]
              && DeclaredAsAsked(s.table[i], s'.table[i], ev.given, secs, ev.DeclareActive?,
                     Refused(s.suspendedPids, s.table[i]), s.types[k], s.now)
            else if ev.pid !in s.suspendedPids && HasFree(s.table) then
              exists j :: j !in s.table && j in s'.table && s'.table == s.table[j := s'.table[j]]
                && NewAsAsked(s'.table[j], ev.pid, ev.q, ev.given, k, secs, ev.DeclareActive?, s.types[k], s.now)
            else s'.table == s.table
  {
    hide InvAt, Possible, Stepped, NewAsAsked, DeclaredAsAsked, HasFree, Extending;
    SizeOf(s);
    DeclareProxy(s, ev, s');
    if Extending(s, ev) {
      DeclareExtends(s, ev, s');
    } else if ev.pid !in s.suspendedPids && HasFree(s.table) {
      DeclareCreates(s, ev, s');
    } else {
      DeclareNothing(s, ev, s');
    }
  }

  lemma DeclareProxy(s: State, ev: Event, s': State)
    requires |s.types| == TYPE_COUNT && Possible(s, ev) && Stepped(s, ev, s')
               && (ev.DeclareActive? || ev.DeclareNetwork?)
    ensures s'.proxy == s.proxy && !HandsOff(s, ev)
  {
    hide Possible, Become, Appear, ProxyFrom, Staying, Miscounts, Scalars, Counters, AllSameConfig;
  }

  lemma DeclareExtends(s: State, ev: Event, s': State)
    requires InvAt(s) && |s.types| == TYPE_COUNT && Possible(s, ev) && Stepped(s, ev, s')
    requires (ev.DeclareActive? || ev.DeclareNetwork?) && Extending(s, ev)
    ensures var i := IndexFromId(ev.id);
            && i in s'.table && s'.table == s.table[i := s'.table[i]]
            && DeclaredAsAsked(s.table[i], s'.table[i], ev.given, DeclaredSeconds(s, ev), ev.DeclareActive?,
                   Refused(s.suspendedPids, s.table[i]), s.types[DeclaredType(ev)], s.now)
  {
    hide InvAt, Possible, ProxyFrom, Staying, Miscounts, Scalars, Counters, AllSameConfig, DeclaredAsAsked,
         Retiming.Extended, HasFree, Retiming.Asked, DeclaredSeconds;
    RecordFacts(s);
    DeclareProxy(s, ev, s');
    ExtensionAllowed(s, ev);
    var i := IndexFromId(ev.id);
    ExtendedMeans(s.types, s.table[i], ev.given, DeclaredSeconds(s, ev), ev.DeclareActive?,
        Refused(s.suspendedPids, s.table[i]), s.now);
    hide HandsOff;
    assert !Creates(s, ev);
    assert forall j :: j in s'.table <==> j in s.table;
    assert s'.table == s.table[i := s'.table[i]];
  }

  lemma DeclareCreates(s: State, ev: Event, s': State)
    requires |s.types| == TYPE_COUNT && Possible(s, ev) && Stepped(s, ev, s')
    requires (ev.DeclareActive? || ev.DeclareNetwork?) && !Extending(s, ev)
    requires ev.pid !in s.suspendedPids && HasFree(s.table)
    ensures var k := DeclaredType(ev);
            exists j :: j !in s.table && j in s'.table && s'.table == s.table[j := s'.table[j]]
              && NewAsAsked(s'.table[j], ev.pid, ev.q, ev.given, k, DeclaredSeconds(s, ev), ev.DeclareActive?,
                   s.types[k],
                     s.now)
  {
    hide Possible, NewRecord, ProxyFrom, Staying, Miscounts, Scalars, Counters, AllSameConfig, NewAsAsked, HasFree,
         Retiming.Extended, DeclaredSeconds;
    DeclareProxy(s, ev, s');
    DeclaredNewMeans(s, ev);
    hide HandsOff;
    assert Creates(s, ev);
    var j :| j !in s.table && s'.table.Keys == s.table.Keys + {j} && s'.table[j] == NewRecord(s, ev);
    assert s'.table == s.table[j := s'.table[j]];
  }

  lemma DeclareNothing(s: State, ev: Event, s': State)
    requires |s.types| == TYPE_COUNT && Possible(s, ev) && Stepped(s, ev, s')
    requires (ev.DeclareActive? || ev.DeclareNetwork?) && !Extending(s, ev)
    requires ev.pid in s.suspendedPids || !HasFree(s.table)
    ensures s'.table == s.table
  {
    hide Possible, NewRecord, ProxyFrom, Staying, Miscounts, Scalars, Counters, AllSameConfig, HasFree,
         Retiming.Extended;
    DeclareProxy(s, ev, s');
    hide HandsOff;
    assert !Creates(s, ev);
  }

  lemma RecordFacts(s: State)
    requires InvAt(s)
    ensures forall j :: j in s.table ==> OneBit(s.table[j])
    ensures forall j :: j in s.table && s.table[j].suspended ==> Refused(s.suspendedPids, s.table[j])
  {
    hide TimersAt, DerivesAt;
  }

  lemma ExtensionAllowed(s: State, ev: Event)
    requires Possible(s, ev) && (ev.DeclareActive? || ev.DeclareNetwork?)
    requires ev.id != 0 && Named(s, ev.pid, ev.id) && s.table[IndexFromId(ev.id)].kassert == DeclaredType(ev)
    ensures !LevelOffWithTimeout(DeclaredProps(s, ev))
  {
  }

  // ---- references ----------------------------------------------------------------------

  /** The event names the assertion, and its owner sends it. */
  predicate Names(ev: Event, i: Index, pid: Pid) {
    match ev
    case Retain(p, id) => p == pid && IndexFromId(id) == i
    case ReleaseOne(p, id) => p == pid && IndexFromId(id) == i
    case SetProperties(p, id, _) => p == pid && IndexFromId(id) == i
    case DeclareActive(p, id, _, _) => p == pid && IndexFromId(id) == i
    case DeclareNetwork(p, id, _, _) => p == pid && IndexFromId(id) == i
    case _ => false
  }

  /** References after the creation and the first `n` events: one, one more for each retain, one less for each
      release. */
  function References(events: seq<Event>, i: Index, pid: Pid, n: nat): int
    requires 1 <= n <= |events|
  {
    if n == 1 then 1
    else
      var ev := events[n - 1];
      References(events, i, pid, n - 1)
        + (if !Names(ev, i, pid) then 0 else if ev.Retain? then 1 else if ev.ReleaseOne? then -1 else 0)
  }

  /** The event ends the assertion although nobody releases it: its process exits, or its time is up and it asked
      to be released then, or is asynchronous. */
  predicate EndsAnyway(s: State, ev: Event, i: Index) {
    && i in s.table && Possible(s, ev)
    && var a := s.table[i];
       || (ev.ProcessExits? && ev.pid == a.pid)
       || ((ev == TimerGoesOff(a.kassert) || ev == RunStarts(a.kassert))
           && a.timed && a.timeout <= s.now && (a.action.ReleaseIt? || a.async))
  }

  /** One event keeps the assertion, and its owner; retains and releases count its references. */
  lemma ReferenceStep(s: State, ev: Event, s': State, i: Index)
    requires InvAt(s) && InvAt(s') && Stepped(s, ev, s') && i in s.table && s.proxy != Some(i)
    requires !EndsAnyway(s, ev, i) && s.table[i].retain >= 1
    ensures var a := s.table[i]; var last := ev.ReleaseOne? && Names(ev, i, a.pid) && a.retain == 1;
            && (i in s'.table <==> !last)
            && (!last ==>
                 && s'.proxy != Some(i) && s'.table[i].pid == a.pid
                 && s'.table[i].retain
                      == a.retain + (if !Names(ev, i, a.pid) then 0 else if ev.Retain? then 1 else if ev.ReleaseOne?
                             then -1 else 0))
  {
    hide InvAt, After, Appear, Miscounts, Counters, AllSameConfig, HandsOff;
    SizeOf(s);
    if Possible(s, ev) {
      hide Possible, Scalars;
      AfterReferences(s, ev, i, s.table[i]);
    } else {
      NamedReleasePossible(s, ev, i);
    }
  }

  lemma NamedReleasePossible(s: State, ev: Event, i: Index)
    requires |s.types| == TYPE_COUNT && i in s.table && s.proxy != Some(i)
    ensures Names(ev, i, s.table[i].pid) && (ev.ReleaseOne? || ev.Retain?) ==> Possible(s, ev)
  {
  }

  lemma AfterReferences(s: State, ev: Event, i: Index, a: Assertion)
    requires |s.types| == TYPE_COUNT && Possible(s, ev) && i in s.table && s.table[i] == a && !EndsAnyway(s, ev, i)
               && a.retain >= 1
    ensures var b := After(s, ev, i, a);
            && (b.None? <==> ev.ReleaseOne? && Names(ev, i, a.pid) && a.retain == 1)
            && (b.Some? ==>
                 && b.value.pid == a.pid
                 && b.value.retain == a.retain + (if !Names(ev, i, a.pid) then 0 else if ev.Retain? then 1
                      else if ev.ReleaseOne? then -1 else 0))
  {
    hide Updated, PushCap, Retiming.DisplayChange, Retiming.IdleChange, Retiming.Retimed, Retiming.Extended,
         DeclaredProps, Possible, SuspendedForm, ResumedForm, AfterRun;
    match ev {
      case SetProperties(_, _, props) => UpdatedIdentity(s.types, a, props, s.Resolve(a.name), s.now);
      case DeclareActive(_, _, _, _) => ExtendedIdentity(s.types, a, DeclaredProps(s, ev), s.now);
      case DeclareNetwork(_, _, _, _) => ExtendedIdentity(s.types, a, DeclaredProps(s, ev), s.now);
      case TimerGoesOff(k) => RunIdentity(s, k, a);
      case RunStarts(k) => RunIdentity(s, k, a);
      case ProcessSuspends(_, _) => FormsIdentity(a, s.now);
      case ProcessResumes(_) => FormsIdentity(a, s.now);
      case DisplaySleep(minutes) =>
        RetimedIdentity(a, minutes != 0, Retiming.DisplayChange(minutes, s.displayTimer),
            s.now + Retiming.DisplaySeconds(minutes), s.now);
      case IdleSleep(minutes) =>
        RetimedIdentity(a, minutes != 0, Retiming.IdleChange(minutes, s.idleTimer),
            s.now + Retiming.IdleSeconds(minutes), s.now);
      case Retain(_, _) => RetainReferences(s, ev, i, a);
      case ReleaseOne(_, _) => ReleaseReferences(s, ev, i, a);
      case _ => OtherReferences(s, ev, i, a);
    }
  }

  lemma ReleaseReferences(s: State, ev: Event, i: Index, a: Assertion)
    requires |s.types| == TYPE_COUNT && a.retain >= 1 && ev.ReleaseOne?
    ensures var b := After(s, ev, i, a);
            && (b.None? <==> Names(ev, i, a.pid) && a.retain == 1)
            && (b.Some? ==>
                 b.value.pid == a.pid && b.value.retain == a.retain - (if Names(ev, i, a.pid) then 1 else 0))
  {
  }

  lemma RetainReferences(s: State, ev: Event, i: Index, a: Assertion)
    requires |s.types| == TYPE_COUNT && ev.Retain?
    ensures var b := After(s, ev, i, a);
            && b.Some? && b.value.pid == a.pid
            && b.value.retain == a.retain + (if Names(ev, i, a.pid) then 1 else 0)
  {
  }

  lemma OtherReferences(s: State, ev: Event, i: Index, a: Assertion)
    requires |s.types| == TYPE_COUNT
    requires ev.Create? || ev.TimePasses? || (ev.ProcessExits? && ev.pid != a.pid) || ev.PowerSource? || ev.Configured?
             || ev.Disabled? || ev.Enabled?
    ensures var b := After(s, ev, i, a); b.Some? && b.value.pid == a.pid && b.value.retain == a.retain
  {
    hide PushCap;
  }

  lemma ExtendedIdentity(types: Types, a: Assertion, props: Props, now: nat)
    requires |types| == TYPE_COUNT
    ensures forall refused ::
              var b := Retiming.Extended(types, a, props, refused, now); b.pid == a.pid && b.retain == a.retain
  {
    hide Updated;
    UpdatedIdentity(types, a.(level := On), props, a.kassert, now);
  }

  lemma RunIdentity(s: State, k: TypeId, a: Assertion)
    ensures var b := AfterRun(s, k, a);
            && (b.Some? ==> b.value.pid == a.pid && b.value.retain == a.retain)
            && (b.None? <==> a.kassert == k && a.timed && a.timeout <= s.now && (a.action.ReleaseIt? || a.async))
  {
  }

  lemma FormsIdentity(a: Assertion, now: nat)
    ensures SuspendedForm(a, now).pid == a.pid && SuspendedForm(a, now).retain == a.retain
    ensures ResumedForm(a, now).pid == a.pid && ResumedForm(a, now).retain == a.retain
  {
  }

  lemma RetimedIdentity(a: Assertion, on: bool, change: int, restart: nat, now: nat)
    ensures var b := Retiming.Retimed(a, on, change, restart, now); b.pid == a.pid && b.retain == a.retain
  {
    hide Retiming.Shifted;
  }

  lemma UpdatedIdentity(types: Types, a: Assertion, props: Props, k: TypeId, now: nat)
    requires |types| == TYPE_COUNT
    ensures var b := Updated(types, a, props, k, now);
              b.pid == a.pid && b.retain == a.retain && b.async == a.async && b.name == a.name
  {
    hide WithProps, PlanFor, Acted, Deadline;
    var r := types[a.kassert];
    PropsIdentity(a, props, r.notValidOnBatt);
    var t := if props.timeout.Some? then Deadline(r, props.timeout.value, now) else a.timeout;
    ActedIdentity(types[k], WithProps(a, props, r.notValidOnBatt), PlanFor(a.inactive, props), t, k, now);
  }

  lemma ActedIdentity(r: AssertionType, a: Assertion, plan: Plan, t: nat, k: TypeId, now: nat)
    ensures var b := Acted(r, a, plan, t, k, now);
              b.pid == a.pid && b.retain == a.retain && b.async == a.async && b.name == a.name
  {
    hide Raised;
    if plan.TurnItOn? {
      RaisedFields(r, a.(inactive := false, timeout := t), k, now);
    }
  }

  lemma PropsIdentity(a: Assertion, props: Props, flagged: bool)
    ensures var b := WithProps(a, props, flagged);
              b.pid == a.pid && b.retain == a.retain && b.async == a.async && b.name == a.name
  {
  }

  /** From its creation on an assertion is in the table exactly as long as it has references, unless its process
      exits or it expires and is to be released then. */
  lemma {:induction false} Lifetime(trace: seq<State>, events: seq<Event>, i: Index, n: nat)
    requires Runs(trace, events) && 1 <= n <= |events| && events[0].Create? && i !in trace[0].table
               && i in trace[1].table
    requires Possible(trace[0], events[0])
    requires forall m :: 1 <= m < n ==>
               !EndsAnyway(trace[m], events[m], i) && References(events, i, events[0].pid, m) > 0
    ensures i in trace[n].table <==> References(events, i, events[0].pid, n) > 0
    ensures i in trace[n].table ==>
              && trace[n].table[i].pid == events[0].pid && trace[n].proxy != Some(i)
              && trace[n].table[i].retain == References(events, i, events[0].pid, n)
  {
    hide InvAt, NamesAt, Stepped, EndsAnyway, Names, AsAsked, Possible;
    assert Stepped(trace[n - 1], events[n - 1], trace[n - 1 + 1]);
    if n == 1 {
      CreateMeans(trace[0], events[0], trace[1]);
      OwnRecord(trace[0], events[0], trace[1], i);
    } else {
      Lifetime(trace, events, i, n - 1);
      ReferenceStep(trace[n - 1], events[n - 1], trace[n], i);
    }
  }

  lemma OwnRecord(s: State, ev: Event, s': State, i: Index)
    requires InvAt(s) && InvAt(s') && Possible(s, ev) && Stepped(s, ev, s') && ev.Create?
    requires i !in s.table && i in s'.table
    ensures |s.types| == TYPE_COUNT && ev.q.name.Some?
    ensures var k := s.Resolve(ev.q.name.value);
              s'.table[i].pid == ev.pid && s'.table[i].retain == 1
                  && AsAsked(s'.table[i], ev.pid, ev.q, k, s.types[k], s.now)
    ensures s'.proxy == s.proxy && s'.proxy != Some(i)
  {
    hide Possible, SoundAt, TimersAt, DerivesAt, Stepped;
    CreateMeans(s, ev, s');
  }

  /** Created and released once by the same process: the id is free again. */
  lemma CreatedAndReleased(trace: seq<State>, events: seq<Event>, i: Index)
    requires Runs(trace, events) && |events| == 2 && events[0].Create? && i !in trace[0].table && i in trace[1].table
    requires Possible(trace[0], events[0])
    requires events[1] == ReleaseOne(events[0].pid, IdFromIndex(i)) && i < MAX_ASSERTIONS
    ensures i !in trace[2].table
  {
    hide InvAt, NamesAt, Stepped, Possible;
    IdRoundTrip(i);
    assert References(events, i, events[0].pid, 1) == 1;
    assert Names(events[1], i, events[0].pid);
    Lifetime(trace, events, i, 2);
  }

  // ---- properties that later events act on ---------------------------------------------

  /** The properties that decide about the assertion later are the same, and so is its owner. */
  predicate SameWishes(a: Assertion, b: Assertion) {
    && b.pid == a.pid && b.name == a.name && b.askedTimeout == a.askedTimeout && b.action == a.action
    && b.async == a.async && b.limitedPower == a.limitedPower && b.onBehalfOf == a.onBehalfOf && b.level == a.level
  }

  /** The owner changes properties of the assertion, by an update or a declaration. */
  predicate Changes(ev: Event, i: Index, pid: Pid) {
    Names(ev, i, pid) && (ev.SetProperties? || ev.DeclareActive? || ev.DeclareNetwork?)
  }

  lemma WishesKept(s: State, ev: Event, i: Index, a: Assertion)
    requires |s.types| == TYPE_COUNT && i in s.table && s.table[i] == a && !Changes(ev, i, a.pid)
    ensures After(s, ev, i, a).Some? ==> SameWishes(a, After(s, ev, i, a).value)
  {
    hide Updated, PushCap, Retiming.DisplayChange, Retiming.IdleChange, Retiming.Retimed, Retiming.Extended,
         DeclaredProps, SuspendedForm, ResumedForm, SameWishes, AfterRun;
    match ev {
      case DisplaySleep(minutes) =>
        RetimedWishes(a, minutes != 0, Retiming.DisplayChange(minutes, s.displayTimer),
            s.now + Retiming.DisplaySeconds(minutes), s.now);
      case IdleSleep(minutes) =>
        RetimedWishes(a, minutes != 0, Retiming.IdleChange(minutes, s.idleTimer), s.now + Retiming.IdleSeconds(minutes),
            s.now);
      case ProcessSuspends(_, _) => FormsWishes(a, s.now);
      case ProcessResumes(_) => FormsWishes(a, s.now);
      case TimerGoesOff(k) => RunWishes(s, k, a);
      case RunStarts(k) => RunWishes(s, k, a);
      case _ => SmallWishes(s, ev, i, a);
    }
  }

  lemma SmallWishes(s: State, ev: Event, i: Index, a: Assertion)
    requires |s.types| == TYPE_COUNT && !Changes(ev, i, a.pid) && !ev.DisplaySleep? && !ev.IdleSleep?
    requires !ev.ProcessSuspends? && !ev.ProcessResumes? && !ev.TimerGoesOff? && !ev.RunStarts?
    ensures After(s, ev, i, a).Some? ==> SameWishes(a, After(s, ev, i, a).value)
  {
    hide Updated, PushCap, Retiming.Extended, DeclaredProps;
  }

  lemma RetimedWishes(a: Assertion, on: bool, change: int, restart: nat, now: nat)
    ensures SameWishes(a, Retiming.Retimed(a, on, change, restart, now)) && SameWishes(a, a)
  {
    hide Retiming.Shifted;
  }

  lemma FormsWishes(a: Assertion, now: nat)
    ensures SameWishes(a, SuspendedForm(a, now)) && SameWishes(a, ResumedForm(a, now)) && SameWishes(a, a)
  {
  }

  lemma RunWishes(s: State, k: TypeId, a: Assertion)
    ensures AfterRun(s, k, a).Some? ==> SameWishes(a, AfterRun(s, k, a).value)
  {
  }

  /** Neither its owner nor anything else changes what was asked for, or ends the assertion. */
  ghost predicate LeftAlone(trace: seq<State>, events: seq<Event>, i: Index, pid: Pid, first: nat, end: nat)
    requires |trace| == |events| + 1 && end <= |events|
  {
    forall m :: first <= m < end ==>
      |trace[m].types| == TYPE_COUNT && i in trace[m].table && !Changes(events[m], i, pid)
      && After(trace[m], events[m], i, trace[m].table[i]).Some?
  }

  lemma {:induction false} WishesThroughout(trace: seq<State>, events: seq<Event>, i: Index, first: nat, end: nat)
    requires Runs(trace, events) && first <= end <= |events| && i in trace[first].table && trace[first].proxy != Some(i)
    requires LeftAlone(trace, events, i, trace[first].table[i].pid, first, end)
    ensures i in trace[end].table && trace[end].proxy != Some(i)
              && SameWishes(trace[first].table[i], trace[end].table[i])
    decreases end
  {
    hide InvAt, NamesAt, Stepped, Changes;
    if first < end {
      assert LeftAlone(trace, events, i, trace[first].table[i].pid, first, end - 1);
      WishesThroughout(trace, events, i, first, end - 1);
      var s, ev, s' := trace[end - 1], events[end - 1], trace[end];
      assert Stepped(trace[end - 1], events[end - 1], trace[end - 1 + 1]);
      StaysClients(s, ev, s', i);
      EntryAfter(s, ev, s', i);
      WishesKept(s, ev, i, s.table[i]);
    }
  }

  lemma StaysClients(s: State, ev: Event, s': State, i: Index)
    requires |s.types| == TYPE_COUNT && Stepped(s, ev, s') && i in s.table && s.proxy != Some(i)
    requires After(s, ev, i, s.table[i]).Some?
    ensures s'.proxy != Some(i)
  {
    hide After, Become, Appear, Counters, Miscounts, AllSameConfig, HandsOff, Scalars, Possible;
  }

  /** Created by the first event, left alone until the last, which is a timeout run that finds its deadline passed:
      then it is gone exactly when it had asked to be released on timeout, or is asynchronous, and inactive
      otherwise. */
  lemma TimedOutAsAsked(trace: seq<State>, events: seq<Event>, i: Index)
    requires Runs(trace, events) && |events| >= 2 && events[0].Create? && Possible(trace[0], events[0])
    requires i !in trace[0].table && i in trace[1].table
    requires LeftAlone(trace, events, i, events[0].pid, 1, |events| - 1)
    requires var n := |events| - 1; var s, ev := trace[n], events[n];
             && i in s.table && s.table[i].timed && s.table[i].timeout <= s.now && Possible(s, ev)
             && (ev == TimerGoesOff(s.table[i].kassert) || ev == RunStarts(s.table[i].kassert))
    ensures var n := |events|; var q := events[0].q;
            if q.action.ReleaseIt? || q.async then i !in trace[n].table || trace[n].proxy == Some(i)
            else i in trace[n].table && trace[n].table[i].inactive && !trace[n].table[i].timed
  {
    hide InvAt, NamesAt, Stepped, Possible, Changes;
    var n := |events| - 1;
    assert Stepped(trace[0], events[0], trace[0 + 1]) && Stepped(trace[n], events[n], trace[n + 1]);
    OwnRecord(trace[0], events[0], trace[1], i);
    WishesThroughout(trace, events, i, 1, n);
    SizeOf(trace[n]);
    RunEnds(trace[n], events[n], trace[n + 1], i);
  }

  /** Whenever a deadline has passed, the timer of its type can go off or a queued run can start. */
  lemma ExpiredRunPossible(s: State, i: Index)
    requires InvAt(s) && i in s.table && s.table[i].timed && s.table[i].timeout <= s.now
    ensures var k := s.table[i].kassert; Possible(s, TimerGoesOff(k)) || Possible(s, RunStarts(k))
  {
    hide HouseAt, DerivesAt;
    var k := s.table[i].kassert;
    InItsList(s.table, s.types, {}, s.exact, i);
    TimedFacts(s.table, s.types, {}, s.exact, k);
    TimersOne(s.table, s.types, s.now, k);
    var x :| 0 <= x < |s.types[k].timed| && s.types[k].timed[x] == i;
    hide SoundAt, TimersAt;
  }

  /** Whichever happens, the assertion is gone or inactive after it, unless it is powerd's proxy, raised again. */
  lemma ExpiredIsDealtWith(s: State, ev: Event, s': State, i: Index)
    requires InvAt(s) && i in s.table && s.table[i].timed && s.table[i].timeout <= s.now
    requires Possible(s, ev) && Stepped(s, ev, s')
    requires ev == TimerGoesOff(s.table[i].kassert) || ev == RunStarts(s.table[i].kassert)
    ensures i !in s'.table || s'.proxy == Some(i) || (s'.table[i].inactive && !s'.table[i].timed)
  {
    hide InvAt, Possible, Stepped;
    if s.proxy != Some(i) {
      RunEnds(s, ev, s', i);
    } else {
      ProxyRemains(s, ev, s');
    }
  }

  lemma ProxyRemains(s: State, ev: Event, s': State)
    requires Possible(s, ev) && Stepped(s, ev, s') && s.proxy.Some?
    ensures s'.proxy == s.proxy
  {
    hide Possible, Become, Appear, HandsOff, Counters, Miscounts, AllSameConfig, Staying, Scalars, TimersAfter;
  }

  lemma RunEnds(s: State, ev: Event, s': State, i: Index)
    requires Possible(s, ev) && Stepped(s, ev, s') && i in s.table && s.proxy != Some(i)
    requires s.table[i].timed && s.table[i].timeout <= s.now
    requires ev == TimerGoesOff(s.table[i].kassert) || ev == RunStarts(s.table[i].kassert)
    ensures if s.table[i].action.ReleaseIt? || s.table[i].async then i !in s'.table || s'.proxy == Some(i)
            else i in s'.table && s'.table[i].inactive && !s'.table[i].timed
  {
    hide Possible, Appear, HandsOff, Counters, Miscounts, AllSameConfig, ProxyFrom, Staying, Scalars;
    var b := After(s, ev, i, s.table[i]);
    assert b.None? <==> s.table[i].action.ReleaseIt? || s.table[i].async;
  }
}
