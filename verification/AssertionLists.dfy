/**
 Entities of the assertion engine (pmconfigd/PMAssertions.h) and what it means for the
 id table and the four lists of every assertion type to agree.
 */
module AssertionLists {
  import opened Common
  import opened EffectMirror

  const MAX_ASSERTIONS: nat := 10240

  type Pid = nat
  type Index = nat

  datatype Level = Off | On | OtherLevel

  datatype TimeoutAction = TurnOff | ReleaseIt | KillProcess

  /** A type name in a client's request.  Two names are aliases that the configuration redirects. */
  datatype TypeName = Fixed(t: TypeId) | ApplePushServiceTask | InteractivePushServiceTask

  /** An assertion with the state bits and the properties the engine reads back.
      `askedTimeout` is 0.0 when the property is missing, `resumeIn` is 0 when it is missing. */
  datatype Assertion = Assertion(
    pid: Pid, causing: Pid, kassert: TypeId, retain: nat, createTime: nat, timeout: nat,
    timed: bool, inactive: bool, suspended: bool, validOnBatt: bool, sysTimer: bool,
    name: TypeName, level: Level, askedTimeout: Seconds, limitedPower: bool, onBehalfOf: Option<Pid>,
    resumeIn: nat, action: TimeoutAction, async: bool)

  /** The four lists of a type. */
  datatype Place = Timed | Active | Inactive | Suspended

  function PlaceOf(a: Assertion): Place {
    if a.timed then Timed else if a.inactive then Inactive else if a.suspended then Suspended else Active
  }

  predicate OneBit(a: Assertion) {
    !(a.timed && a.inactive) && !(a.timed && a.suspended) && !(a.inactive && a.suspended)
  }

  /** The dispatch timer of a type, and how many timeout runs are queued on the main queue. */
  datatype TypeTimer = TypeTimer(created: bool, armed: Option<nat>, runs: nat)

  datatype AssertionType = AssertionType(
    timed: seq<Index>, active: seq<Index>, inactive: seq<Index>, suspended: seq<Index>,
    notValidOnBatt: bool, autoTimed: bool, autoTimeout: nat,
    effect: Effect, handler: Handler, linked: bool, disableCnt: nat, validCnt: nat, timer: TypeTimer)
  {
    function ListAt(p: Place): seq<Index> {
      match p case Timed => timed case Active => active case Inactive => inactive case Suspended => suspended
    }

    /** The code's own test for an active type (checkForActives). */
    predicate IsOn(onBatt: bool) {
      if notValidOnBatt && onBatt then validCnt > 0 else active != [] || timed != []
    }

    predicate HasLive() { active != [] || timed != [] }

    /** LIST_REMOVE: the assertion leaves whichever list it is on. */
    function Unlinked(i: Index): AssertionType {
      this.(timed := Without(timed, i), active := Without(active, i),
            inactive := Without(inactive, i), suspended := Without(suspended, i))
    }

    function LessValid(a: Assertion): (r: AssertionType) {
      if a.validOnBatt && validCnt > 0 then this.(validCnt := validCnt - 1) else this
    }

    function MoreValid(a: Assertion): (r: AssertionType) {
      if a.validOnBatt && notValidOnBatt then this.(validCnt := validCnt + 1) else this
    }
  }

  type Table = map<Index, Assertion>
  type Types = seq<AssertionType>

  ghost predicate SameLists(r: AssertionType, r': AssertionType) {
    r.timed == r'.timed && r.active == r'.active && r.inactive == r'.inactive && r.suspended == r'.suspended
  }

  /** A list holds exactly the assertions of type `t` whose state bits name that list.
      Assertions in `limbo` have been unlinked and not yet linked again. */
  ghost predicate Holds(table: Table, limbo: set<Index>, t: TypeId, p: Place, l: seq<Index>) {
    NoDup(l) &&
    forall i :: i in l <==> i in table && i !in limbo && table[i].kassert == t && PlaceOf(table[i]) == p
  }

  ghost predicate Sorted(table: Table, l: seq<Index>) {
    (forall i :: i in l ==> i in table) &&
    forall x, y :: 0 <= x < y < |l| ==> table[l[x]].timeout <= table[l[y]].timeout
  }

  ghost predicate ListsOK(table: Table, limbo: set<Index>, t: TypeId, r: AssertionType) {
    && Holds(table, limbo, t, Timed, r.timed)
    && Holds(table, limbo, t, Active, r.active)
    && Holds(table, limbo, t, Inactive, r.inactive)
    && Holds(table, limbo, t, Suspended, r.suspended)
    && Sorted(table, r.timed)
  }

  function SlotOf(r: AssertionType, onBatt: bool): Slot {
    Slot(r.effect, r.handler, r.linked && r.IsOn(onBatt))
  }

  /** Every table entry lies in exactly one list of exactly one type, as its bits say; timed lists are sorted. */
  ghost predicate Shape(table: Table, types: Types, limbo: set<Index>) {
    && |types| == TYPE_COUNT
    && limbo <= table.Keys
    && (forall i :: i in table ==> i < MAX_ASSERTIONS)
    && (forall i :: i in table && i !in limbo ==> OneBit(table[i]))
    && (forall t: TypeId :: ListsOK(table, limbo, t, types[t]))
  }

  /** The assertions a not-valid-on-battery type should count. */
  ghost function ValidSet(table: Table, limbo: set<Index>, t: TypeId): set<Index> {
    set i | i in table && i !in limbo && table[i].kassert == t && PlaceOf(table[i]) in {Timed, Active}
        && table[i].validOnBatt
  }

  /** The types that may be kept out on battery.  Interactive push is one only while keep-alive is off. */
  const BATTERY_TYPES: set<TypeId> := {PREVENT_SLEEP, BACKGROUND_TASK, SR_PREVENT_SLEEP, INTERACTIVE_PUSH}

  ghost predicate CountOK(table: Table, limbo: set<Index>, t: TypeId, r: AssertionType) {
    t in BATTERY_TYPES && r.validCnt == |ValidSet(table, limbo, t)|
  }

  /** Linking this assertion under the type does not count it, although its flag is set. */
  predicate Uncounted(r: AssertionType, a: Assertion) {
    a.validOnBatt && !r.notValidOnBatt
  }

  ghost predicate Counts(table: Table, types: Types, limbo: set<Index>, exact: set<TypeId>)
    requires |types| == TYPE_COUNT
  {
    forall t: TypeId :: t in exact ==> CountOK(table, limbo, t, types[t])
  }

  /** A type with timed assertions has its timer set for the first deadline, or a timeout run is
      queued and the first deadline has passed. */
  ghost predicate TimerOK(table: Table, r: AssertionType, now: nat) {
    r.timed != [] ==>
      && r.timed[0] in table
      && r.timer.created
      && (|| r.timer.armed == Some(table[r.timed[0]].timeout)
          || (r.timer.runs > 0 && table[r.timed[0]].timeout <= now))
  }

  // ---- moving one assertion ------------------------------------------------------------

  lemma OtherTypeUnaffected(table: Table, limbo: set<Index>, table': Table, limbo': set<Index>, t: TypeId,
                            r: AssertionType, i: Index)
    requires ListsOK(table, limbo, t, r)
    requires forall j :: j != i ==> (j in table <==> j in table') && (j in limbo <==> j in limbo')
    requires forall j :: j != i && j in table ==> table'[j] == table[j]
    requires i in table && i !in limbo ==> table[i].kassert != t
    requires i in table' && i !in limbo' ==> table'[i].kassert != t
    ensures ListsOK(table', limbo', t, r)
    ensures ValidSet(table', limbo', t) == ValidSet(table, limbo, t)
  {
  }

  lemma UnlinkOne(table: Table, limbo: set<Index>, k: TypeId, r: AssertionType, i: Index)
    requires ListsOK(table, limbo, k, r)
    ensures ListsOK(table, limbo + {i}, k, r.Unlinked(i))
  {
    WithoutNoDup(r.timed, i);
    WithoutNoDup(r.active, i);
    WithoutNoDup(r.inactive, i);
    WithoutNoDup(r.suspended, i);
    WithoutKeepsSorted(table, r.timed, i);
  }

  lemma UnlinkKeepsShape(table: Table, types: Types, limbo: set<Index>, i: Index)
    requires Shape(table, types, limbo) && i in table && i !in limbo
    ensures var k := table[i].kassert; Shape(table, types[k := types[k].Unlinked(i)], limbo + {i})
    ensures forall t: TypeId :: ValidSet(table, limbo + {i}, t) == ValidSet(table, limbo, t) - {i}
  {
    var k := table[i].kassert;
    UnlinkOne(table, limbo, k, types[k], i);
    forall t: TypeId | t != k ensures ListsOK(table, limbo + {i}, t, types[t]) {
      OtherTypeUnaffected(table, limbo, table, limbo + {i}, t, types[t], i);
    }
  }

  lemma SortedParts(table: Table, l: seq<Index>)
    requires Sorted(table, l) && l != []
    ensures Sorted(table, l[1..])
    ensures forall j :: j in l ==> table[l[0]].timeout <= table[j].timeout
  {
    assert forall x :: 0 <= x < |l[1..]| ==> l[1..][x] == l[x + 1];
  }

  lemma SortedCons(table: Table, i: Index, l: seq<Index>)
    requires Sorted(table, l) && i in table
    requires forall j :: j in l ==> table[i].timeout <= table[j].timeout
    ensures Sorted(table, [i] + l)
  {
    assert forall x :: 0 < x < |l| + 1 ==> ([i] + l)[x] == l[x - 1] && l[x - 1] in l;
  }

  lemma {:induction false} WithoutKeepsSorted(table: Table, l: seq<Index>, i: Index)
    requires Sorted(table, l)
    ensures Sorted(table, Without(l, i))
  {
    if l != [] {
      SortedParts(table, l);
      assert forall j :: j in l[1..] ==> j in l;
      WithoutKeepsSorted(table, l[1..], i);
      if l[0] != i {
        SortedCons(table, l[0], Without(l[1..], i));
        assert Without(l, i) == [l[0]] + Without(l[1..], i);
      }
    }
  }

  /** An assertion in limbo is put on the list its new bits name. */
  lemma LinkKeepsShape(table: Table, types: Types, limbo: set<Index>, i: Index, a: Assertion, r: AssertionType)
    requires Shape(table, types, limbo) && i in limbo && OneBit(a)
    requires var old_r := types[a.kassert];
             forall p :: p != PlaceOf(a) ==> r.ListAt(p) == old_r.ListAt(p)
    requires var old_r := types[a.kassert]; var l := r.ListAt(PlaceOf(a));
             NoDup(l) && forall j :: j in l <==> j == i || j in old_r.ListAt(PlaceOf(a))
    requires Sorted(table[i := a], r.timed)
    ensures Shape(table[i := a], types[a.kassert := r], limbo - {i})
    ensures forall t: TypeId :: ValidSet(table[i := a], limbo - {i}, t)
              == ValidSet(table, limbo, t)
                  + (if t == a.kassert && PlaceOf(a) in {Timed, Active} && a.validOnBatt then {i} else {})
  {
    var k := a.kassert;
    var table', limbo', types' := table[i := a], limbo - {i}, types[k := r];
    assert types[k].ListAt(Timed) == types[k].timed && r.ListAt(Timed) == r.timed;
    assert types[k].ListAt(Active) == types[k].active && r.ListAt(Active) == r.active;
    assert types[k].ListAt(Inactive) == types[k].inactive && r.ListAt(Inactive) == r.inactive;
    assert types[k].ListAt(Suspended) == types[k].suspended && r.ListAt(Suspended) == r.suspended;
    assert ListsOK(table, limbo, k, types[k]);
    forall t: TypeId ensures ListsOK(table', limbo', t, types'[t]) {
      if t != k {
        OtherTypeUnaffected(table, limbo, table', limbo', t, types[t], i);
      }
    }
  }

  /** Fields that no list looks at may change anywhere; anything may change in limbo. */
  lemma RewriteKeepsShape(table: Table, types: Types, limbo: set<Index>, i: Index, a: Assertion)
    requires Shape(table, types, limbo) && i in table
    requires i in limbo ||
             (a.kassert == table[i].kassert && a.timeout == table[i].timeout && a.timed == table[i].timed
              && a.inactive == table[i].inactive && a.suspended == table[i].suspended)
    ensures Shape(table[i := a], types, limbo)
    ensures i in limbo || a.validOnBatt == table[i].validOnBatt ==>
              forall t: TypeId :: ValidSet(table[i := a], limbo, t) == ValidSet(table, limbo, t)
  {
    forall t: TypeId ensures ListsOK(table[i := a], limbo, t, types[t]) {
      assert ListsOK(table, limbo, t, types[t]);
    }
  }

  lemma NewEntryKeepsShape(table: Table, types: Types, limbo: set<Index>, i: Index, a: Assertion)
    requires Shape(table, types, limbo) && i !in table && i < MAX_ASSERTIONS
    ensures Shape(table[i := a], types, limbo + {i})
    ensures forall t: TypeId :: ValidSet(table[i := a], limbo + {i}, t) == ValidSet(table, limbo, t)
  {
    forall t: TypeId ensures ListsOK(table[i := a], limbo + {i}, t, types[t]) {
      assert ListsOK(table, limbo, t, types[t]);
    }
  }

  lemma DropEntryKeepsShape(table: Table, types: Types, limbo: set<Index>, i: Index)
    requires Shape(table, types, limbo) && i in limbo
    ensures Shape(table - {i}, types, limbo - {i})
    ensures forall t: TypeId :: ValidSet(table - {i}, limbo - {i}, t) == ValidSet(table, limbo, t)
  {
    forall t: TypeId ensures ListsOK(table - {i}, limbo - {i}, t, types[t]) {
      assert ListsOK(table, limbo, t, types[t]);
    }
  }

  lemma SameListsKeepShape(table: Table, types: Types, limbo: set<Index>, k: TypeId, r: AssertionType)
    requires Shape(table, types, limbo) && SameLists(types[k], r)
    ensures Shape(table, types[k := r], limbo)
  {
    assert ListsOK(table, limbo, k, types[k]);
    assert forall t: TypeId :: t != k ==> types[k := r][t] == types[t];
  }

  // ---- the timed list ------------------------------------------------------------------

  /** The list with `i`, whose deadline is `d`, before the first later deadline. */
  function SortedInsert(table: Table, l: seq<Index>, i: Index, d: nat): (r: seq<Index>)
    requires forall j :: j in l ==> j in table
    ensures forall j :: j in r <==> j == i || j in l
  {
    if l == [] then [i]
    else if table[l[0]].timeout > d then [i] + l
    else [l[0]] + SortedInsert(table, l[1..], i, d)
  }

  lemma {:induction false} SortedInsertAt(table: Table, l: seq<Index>, i: Index, d: nat, x: nat)
    requires forall j :: j in l ==> j in table
    requires x <= |l| && (forall y :: 0 <= y < x ==> table[l[y]].timeout <= d)
    requires x == |l| || table[l[x]].timeout > d
    ensures SortedInsert(table, l, i, d) == l[..x] + [i] + l[x..]
  {
    if x == 0 {
      assert l[..0] == [] && l[0..] == l && [] + [i] + l == [i] + l;
    } else {
      var t := l[1..];
      assert forall y :: 0 <= y < |t| ==> t[y] == l[y + 1];
      SortedInsertAt(table, t, i, d, x - 1);
      SplitTail(l, x);
      Regroup(l[0], t[..x - 1], i, t[x - 1..]);
    }
  }

  lemma SplitTail(l: seq<Index>, x: nat)
    requires 0 < x <= |l|
    ensures l[..x] == [l[0]] + l[1..][..x - 1] && l[x..] == l[1..][x - 1..]
  {
  }

  lemma {:induction false} SortedInsertSorts(table: Table, l: seq<Index>, i: Index, a: Assertion)
    requires Sorted(table, l) && NoDup(l) && i !in l
    ensures var r := SortedInsert(table, l, i, a.timeout);
            && NoDup(r) && Sorted(table[i := a], r)
            && r[0] == (if l == [] || table[l[0]].timeout > a.timeout then i else l[0])
  {
    if l != [] && table[l[0]].timeout <= a.timeout {
      assert Sorted(table, l[1..]) && NoDup(l[1..]) by {
        assert forall x :: 0 <= x < |l[1..]| ==> l[1..][x] == l[x + 1];
      }
      SortedInsertSorts(table, l[1..], i, a);
      var w := SortedInsert(table, l[1..], i, a.timeout);
      assert SortedInsert(table, l, i, a.timeout) == [l[0]] + w;
      HeadFirst(table, l, w, i, a);
      HeadKeepsOrder(table[i := a], l[0], w);
    } else {
      HeadKeepsOrder(table[i := a], i, l);
    }
  }

  /** The first of a sorted list comes before everything inserted behind it. */
  lemma HeadFirst(table: Table, l: seq<Index>, w: seq<Index>, i: Index, a: Assertion)
    requires Sorted(table, l) && NoDup(l) && i !in l && l != [] && table[l[0]].timeout <= a.timeout
    requires forall j :: j in w ==> j == i || j in l[1..]
    ensures forall j :: j in w ==> j != l[0] && j in table[i := a] && table[l[0]].timeout <= table[i := a][j].timeout
  {
    forall j | j in w && j != i ensures j != l[0] && j in table && table[l[0]].timeout <= table[j].timeout {
      var z :| 0 <= z < |l[1..]| && l[1..][z] == j;
      assert l[z + 1] == j;
    }
  }

  lemma HeadKeepsOrder(table: Table, h: Index, w: seq<Index>)
    requires NoDup(w) && Sorted(table, w) && h in table
    requires forall j :: j in w ==> j != h && table[h].timeout <= table[j].timeout
    ensures NoDup([h] + w) && Sorted(table, [h] + w)
  {
    var r := [h] + w;
    assert forall x :: 0 < x < |r| ==> r[x] == w[x - 1] && r[x] in w;
  }

  /** Timer of a type after resetAssertionTimer: queue a run when the first deadline has passed, else arm for it. */
  function Rearmed(table: Table, r: AssertionType, now: nat): AssertionType
    requires r.timed != [] ==> r.timed[0] in table
  {
    if r.timed == [] then r
    else if table[r.timed[0]].timeout <= now then r.(timer := r.timer.(runs := r.timer.runs + 1))
    else r.(timer := r.timer.(armed := Some(table[r.timed[0]].timeout)))
  }

  /** The timer after a timeout run of type `r0` that took `n` assertions off its list: armed for the first deadline
      that is left, if something was taken off; nothing is queued. */
  ghost predicate RunTimer(table: Table, r0: AssertionType, r: AssertionType, n: nat) {
    && r.timer.created == r0.timer.created && r.timer.runs == r0.timer.runs
    && (r.timed != [] ==> r.timed[0] in table)
    && r.timer.armed == if n > 0 && r.timed != [] then Some(table[r.timed[0]].timeout) else r0.timer.armed
  }

  // ---- the invariants together ---------------------------------------------------------

  /** Handler, effect and flags fit the type, and the type is linked to its effect. */
  ghost predicate TypeOK(t: TypeId, r: AssertionType) {
    && SlotFits(t, SlotOf(r, false)) && r.linked
    && (r.handler.OtherHandler? <==> KernelBitOf(t).None? && SettingOf(t).None?)
    && (t in {PREVENT_SLEEP, BACKGROUND_TASK, SR_PREVENT_SLEEP} ==> r.notValidOnBatt)
    && (r.notValidOnBatt ==> t in BATTERY_TYPES)
    && (r.autoTimed ==> t == INTERACTIVE_PUSH)
  }

  ghost predicate ConfigOK(types: Types) {
    |types| == TYPE_COUNT && forall t: TypeId :: TypeOK(t, types[t])
  }

  /** Lists, configuration and counters; the counters of the types in `exact` are exact. */
  ghost predicate SoundAt(table: Table, types: Types, limbo: set<Index>, exact: set<TypeId>) {
    Shape(table, types, limbo) && ConfigOK(types) && Counts(table, types, limbo, exact)
  }

  /** Every type but `x` is watched by its timer; no exception when `x` is no type. */
  ghost predicate TimersAt(table: Table, types: Types, now: nat, x: int) {
    |types| == TYPE_COUNT && forall t: TypeId :: t != x ==> TimerOK(table, types[t], now)
  }

  ghost predicate SameConfig(r: AssertionType, r': AssertionType) {
    r.effect == r'.effect && r.handler == r'.handler && r.linked == r'.linked
    && r.notValidOnBatt == r'.notValidOnBatt && r.autoTimed == r'.autoTimed
    && r.autoTimeout == r'.autoTimeout && r.disableCnt == r'.disableCnt
  }

  predicate Counted(a: Assertion) {
    PlaceOf(a) in {Timed, Active} && a.validOnBatt
  }

  lemma SoundFacts(table: Table, types: Types, limbo: set<Index>, exact: set<TypeId>, i: Index)
    requires SoundAt(table, types, limbo, exact)
    ensures i in limbo ==> i in table
    ensures i in table ==> i < MAX_ASSERTIONS
    ensures i in table && i !in limbo ==> OneBit(table[i]) && i in types[table[i].kassert].ListAt(PlaceOf(table[i]))
    ensures forall t: TypeId :: forall j :: j in types[t].timed ==>
              j in table && j !in limbo && table[j].kassert == t && table[j].timed
    ensures forall t: TypeId :: Sorted(table, types[t].timed) && NoDup(types[t].timed)
  {
    forall t: TypeId ensures ListsOK(table, limbo, t, types[t]) { }
  }

  lemma ExactIsCounted(table: Table, types: Types, limbo: set<Index>, exact: set<TypeId>, k: TypeId)
    requires SoundAt(table, types, limbo, exact)
    ensures k in exact ==> k in BATTERY_TYPES && types[k].validCnt == |ValidSet(table, limbo, k)|
    ensures k !in BATTERY_TYPES ==> exact - {k} == exact
  {
    if k in exact {
      assert CountOK(table, limbo, k, types[k]);
    }
  }

  lemma SoundFewer(table: Table, types: Types, limbo: set<Index>, exact: set<TypeId>, exact': set<TypeId>)
    requires SoundAt(table, types, limbo, exact) && exact' <= exact
    ensures SoundAt(table, types, limbo, exact')
  {
    assert |types| == TYPE_COUNT;
    assert Counts(table, types, limbo, exact);
    hide CountOK, Shape, ConfigOK;
  }

  lemma CountedIsCounted(table: Table, types: Types, limbo: set<Index>, exact: set<TypeId>, i: Index)
    requires SoundAt(table, types, limbo, exact) && i in table && i !in limbo
    ensures Counted(table[i]) && table[i].kassert in exact ==> types[table[i].kassert].validCnt > 0
  {
    var k := table[i].kassert;
    ExactIsCounted(table, types, limbo, exact, k);
    if Counted(table[i]) {
      assert i in ValidSet(table, limbo, k);
    }
  }

  lemma TimersAllToOne(table: Table, types: Types, now: nat, k: TypeId)
    ensures TimersAt(table, types, now, -1) ==> TimersAt(table, types, now, k)
  {
  }

  lemma TimersOne(table: Table, types: Types, now: nat, k: TypeId)
    requires TimersAt(table, types, now, -1)
    ensures TimerOK(table, types[k], now)
  {
  }

  lemma InItsList(table: Table, types: Types, limbo: set<Index>, exact: set<TypeId>, i: Index)
    requires SoundAt(table, types, limbo, exact) && i in table && i !in limbo
    ensures OneBit(table[i]) && (i in types[table[i].kassert].timed <==> table[i].timed)
    ensures i in types[table[i].kassert].active <==> PlaceOf(table[i]) == Active
    ensures i in types[table[i].kassert].suspended <==> PlaceOf(table[i]) == Suspended
  {
    assert ListsOK(table, limbo, table[i].kassert, types[table[i].kassert]);
  }

  lemma UnlinkSound(table: Table, types: Types, limbo: set<Index>, exact: set<TypeId>, exact': set<TypeId>,
                    i: Index, a: Assertion, r: AssertionType)
    requires SoundAt(table, types, limbo, exact) && i in table && i !in limbo
    requires var k := table[i].kassert; var r0 := types[k].Unlinked(i);
             && SameLists(r0, r) && SameConfig(r0, r) && exact' <= exact
             && (k in exact' ==> r.validCnt == r0.validCnt - if Counted(table[i]) then 1 else 0)
    ensures SoundAt(table[i := a], types[table[i].kassert := r], limbo + {i}, exact')
  {
    var k := table[i].kassert;
    assert |types| == TYPE_COUNT && i in limbo + {i};
    hide Shape, ConfigOK, Without;
    var types1, limbo1 := types[k := types[k].Unlinked(i)], limbo + {i};
    UnlinkKeepsShape(table, types, limbo, i);
    RewriteKeepsShape(table, types1, limbo1, i, a);
    SameListsKeepShape(table[i := a], types1, limbo1, k, r);
    assert types1[k := r] == types[k := r];
    ConfigFrame(types, k, r);
    forall t: TypeId | t in exact' ensures CountOK(table[i := a], limbo1, t, types[k := r][t]) {
      assert Counts(table, types, limbo, exact);
      assert CountOK(table, limbo, t, types[t]);
      assert ValidSet(table[i := a], limbo1, t) == ValidSet(table, limbo, t) - {i};
      assert i in ValidSet(table, limbo, t) <==> t == k && Counted(table[i]);
    }
  }

  lemma ConfigFrame(types: Types, k: TypeId, r: AssertionType)
    requires ConfigOK(types) && SameConfig(types[k], r)
    ensures ConfigOK(types[k := r])
  {
    var types' := types[k := r];
    forall t: TypeId ensures TypeOK(t, types'[t]) {
      assert TypeOK(t, types[t]);
    }
  }

  /** The list part of linking. */
  lemma LinkShape(table: Table, types: Types, limbo: set<Index>, i: Index, a: Assertion, r: AssertionType)
    requires Shape(table, types, limbo) && i in limbo && OneBit(a)
    requires var old_r := types[a.kassert];
             forall p :: p != PlaceOf(a) ==> r.ListAt(p) == old_r.ListAt(p)
    requires var old_r := types[a.kassert]; var p := PlaceOf(a);
             || (p != Timed && r.ListAt(p) == [i] + old_r.ListAt(p))
             || (p == Timed && r.timed == SortedInsert(table, old_r.timed, i, a.timeout))
    ensures Shape(table[i := a], types[a.kassert := r], limbo - {i})
    ensures forall t: TypeId :: i !in ValidSet(table, limbo, t)
    ensures forall t: TypeId :: ValidSet(table[i := a], limbo - {i}, t)
              == ValidSet(table, limbo, t) + (if t == a.kassert && Counted(a) then {i} else {})
  {
    var k, p := a.kassert, PlaceOf(a);
    var old_r := types[k];
    assert ListsOK(table, limbo, k, old_r);
    assert old_r.timed == old_r.ListAt(Timed) && r.timed == r.ListAt(Timed);
    assert Holds(table, limbo, k, p, old_r.ListAt(p));
    if p == Timed {
      SortedInsertSorts(table, old_r.timed, i, a);
    }
    LinkKeepsShape(table, types, limbo, i, a, r);
  }

  lemma LinkSound(table: Table, types: Types, limbo: set<Index>, exact: set<TypeId>, i: Index, a: Assertion,
                  r: AssertionType)
    requires SoundAt(table, types, limbo, exact) && i in limbo && OneBit(a)
    requires var old_r := types[a.kassert];
             forall p :: p != PlaceOf(a) ==> r.ListAt(p) == old_r.ListAt(p)
    requires var old_r := types[a.kassert]; var p := PlaceOf(a);
             || (p != Timed && r.ListAt(p) == [i] + old_r.ListAt(p))
             || (p == Timed && r.timed == SortedInsert(table, old_r.timed, i, a.timeout))
    requires var k := a.kassert;
             && SameConfig(types[k], r)
             && (k in exact ==> r.validCnt == types[k].validCnt + if Counted(a) then 1 else 0)
    ensures SoundAt(table[i := a], types[a.kassert := r], limbo - {i}, exact)
  {
    hide ListsOK, ConfigOK, ValidSet, SortedInsert;
    var k := a.kassert;
    LinkShape(table, types, limbo, i, a, r);
    ConfigFrame(types, k, r);
    forall t: TypeId | t in exact ensures CountOK(table[i := a], limbo - {i}, t, types[k := r][t]) {
      assert CountOK(table, limbo, t, types[t]);
    }
  }

  lemma RewriteSound(table: Table, types: Types, limbo: set<Index>, exact: set<TypeId>, i: Index, a: Assertion)
    requires SoundAt(table, types, limbo, exact) && i in table
    requires i in limbo ||
             (a.kassert == table[i].kassert && a.timeout == table[i].timeout && a.timed == table[i].timed
              && a.inactive == table[i].inactive && a.suspended == table[i].suspended
              && a.validOnBatt == table[i].validOnBatt)
    ensures SoundAt(table[i := a], types, limbo, exact)
  {
    RewriteKeepsShape(table, types, limbo, i, a);
    forall t: TypeId | t in exact ensures CountOK(table[i := a], limbo, t, types[t]) {
      assert CountOK(table, limbo, t, types[t]);
    }
  }

  lemma RetypeSound(table: Table, types: Types, limbo: set<Index>, exact: set<TypeId>, k: TypeId, r: AssertionType)
    requires SoundAt(table, types, limbo, exact) && SameLists(types[k], r) && SameConfig(types[k], r)
    requires k in exact ==> r.validCnt == types[k].validCnt
    ensures SoundAt(table, types[k := r], limbo, exact)
  {
    SameListsKeepShape(table, types, limbo, k, r);
    ConfigFrame(types, k, r);
    forall t: TypeId | t in exact ensures CountOK(table, limbo, t, types[k := r][t]) {
      assert CountOK(table, limbo, t, types[t]);
    }
  }

  lemma NewEntrySound(table: Table, types: Types, limbo: set<Index>, exact: set<TypeId>, i: Index, a: Assertion)
    requires SoundAt(table, types, limbo, exact) && i !in table && i < MAX_ASSERTIONS
    ensures SoundAt(table[i := a], types, limbo + {i}, exact)
  {
    NewEntryKeepsShape(table, types, limbo, i, a);
    forall t: TypeId | t in exact ensures CountOK(table[i := a], limbo + {i}, t, types[t]) {
      assert CountOK(table, limbo, t, types[t]);
    }
  }

  lemma DropEntrySound(table: Table, types: Types, limbo: set<Index>, exact: set<TypeId>, i: Index)
    requires SoundAt(table, types, limbo, exact) && i in limbo
    ensures SoundAt(table - {i}, types, limbo - {i}, exact)
  {
    DropEntryKeepsShape(table, types, limbo, i);
    forall t: TypeId | t in exact ensures CountOK(table - {i}, limbo - {i}, t, types[t]) {
      assert CountOK(table, limbo, t, types[t]);
    }
  }

  /** Changing one type and one assertion of that type (or in limbo) leaves the other types' timers right. */
  lemma TimersFrame(table: Table, types: Types, limbo: set<Index>, exact: set<TypeId>, table': Table, types': Types,
                    now: nat, k: TypeId, i: Index)
    requires SoundAt(table, types, limbo, exact)
    requires types' == types || (|types'| == TYPE_COUNT && types' == types[k := types'[k]])
    requires forall j :: j != i && j in table ==> j in table' && table'[j] == table[j]
    requires i in table && i !in limbo ==> table[i].kassert == k
    ensures TimersAt(table, types, now, k) ==> TimersAt(table', types', now, k)
    ensures (TimersAt(table, types, now, -1) && types'[k].timed == types[k].timed && types'[k].timer == types[k].timer
            && (i in table && i !in limbo ==> !table[i].timed)) ==> TimersAt(table', types', now, -1)
    ensures TimersAt(table, types, now, k) && TimerOK(table', types'[k], now) ==> TimersAt(table', types', now, -1)
  {
    forall t: TypeId
        ensures forall j :: j in types[t].timed ==>
        j in table && j !in limbo && table[j].kassert == t && table[j].timed {
      assert ListsOK(table, limbo, t, types[t]);
    }
    forall t: TypeId | TimerOK(table, types[t], now) && types'[t].timed == types[t].timed
        && types'[t].timer == types[t].timer
        && (t != k || (i in table && i !in limbo ==> !table[i].timed))
      ensures TimerOK(table', types'[t], now)
    {
      if types[t].timed != [] {
        assert types[t].timed[0] in types[t].timed;
      }
    }
  }

  /** A new timed assertion that is not first in its list leaves every timer right. */
  lemma InsertTimers(table: Table, types: Types, limbo: set<Index>, exact: set<TypeId>, table': Table, types': Types,
                     now: nat, k: TypeId, i: Index, x: int)
    requires SoundAt(table, types, limbo, exact) && i in table && i in limbo && (x == -1 || x == k)
    requires |types'| == TYPE_COUNT && types' == types[k := types'[k]] && types'[k].timer == types[k].timer
    requires i in table' && table' == table[i := table'[i]]
    requires (forall j :: j in types[k].timed ==> j in table')
               && types'[k].timed == SortedInsert(table', types[k].timed, i, table'[i].timeout)
    requires TimersAt(table, types, now, x)
    ensures TimersAt(table', types', now, k)
    ensures x == -1 && types'[k].timed[0] != i ==> TimersAt(table', types', now, -1)
  {
    TimersFrame(table, types, limbo, exact, table', types', now, k, i);
    SoundFacts(table, types, limbo, exact, i);
    if x == -1 && types'[k].timed[0] != i {
      SortedInsertFirst(table', types[k].timed, i, table'[i].timeout);
      assert TimerOK(table, types[k], now);
      assert TimerOK(table', types'[k], now);
    }
  }

  /** Rewriting a linked assertion without touching its deadline leaves every timer right. */
  lemma RewriteTimers(table: Table, types: Types, limbo: set<Index>, exact: set<TypeId>, table': Table, types': Types,
                      now: nat, k: TypeId, i: Index)
    requires SoundAt(table, types, limbo, exact) && i in table && i !in limbo && table[i].kassert == k
    requires |types'| == TYPE_COUNT && types' == types[k := types'[k]]
    requires types'[k].timer == types[k].timer && types'[k].timed == types[k].timed
    requires i in table' && table' == table[i := table'[i]] && table'[i].timeout == table[i].timeout
    requires TimersAt(table, types, now, -1)
    ensures TimersAt(table', types', now, -1)
  {
    TimersFrame(table, types, limbo, exact, table', types', now, k, i);
    TimersAllToOne(table, types, now, k);
    assert TimerOK(table, types[k], now);
    assert TimerOK(table', types'[k], now);
  }

  lemma SortedInsertFirst(table: Table, l: seq<Index>, i: Index, d: nat)
    requires forall j :: j in l ==> j in table
    ensures var r := SortedInsert(table, l, i, d); r != [] && (r[0] != i ==> l != [] && r[0] == l[0])
  {
  }

  /** Taking a timed assertion out that was not first leaves every timer right; otherwise only its own type's timer
      may lag. */
  lemma RemoveTimers(table: Table, types: Types, limbo: set<Index>, exact: set<TypeId>, table': Table, types': Types,
                     now: nat, k: TypeId, i: Index, x: int)
    requires SoundAt(table, types, limbo, exact) && i in table && i !in limbo && table[i].kassert == k && table[i].timed
               && (x == -1 || x == k)
    requires |types'| == TYPE_COUNT && types' == types[k := types'[k]] && types'[k].timer == types[k].timer
    requires i in table' && table' == table[i := table'[i]] && types'[k].timed == Without(types[k].timed, i)
    requires TimersAt(table, types, now, x)
    ensures types[k].timed != [] && TimersAt(table', types', now, k)
    ensures x == -1 ==> types[k].timer.created
    ensures x == -1 && types[k].timed[0] != i ==> TimersAt(table', types', now, -1)
  {
    TimersFrame(table, types, limbo, exact, table', types', now, k, i);
    SoundFacts(table, types, limbo, exact, i);
    if x == -1 {
      assert TimerOK(table, types[k], now);
      if types[k].timed[0] != i {
        WithoutHead(types[k].timed, i);
        assert TimerOK(table', types'[k], now);
      }
    }
  }

  // ---- derived state seen from the lists -----------------------------------------------

  function ViewOf(types: Types, onBatt: bool): (v: seq<Slot>)
    ensures |v| == |types| && forall t :: 0 <= t < |v| ==> v[t] == SlotOf(types[t], onBatt)
  {
    seq(|types|, t requires 0 <= t < |types| => SlotOf(types[t], onBatt))
  }

  /** The derived state mirrors the lists, except that type `p`, if it is one, awaits its handler. */
  ghost predicate DerivesAt(types: Types, onBatt: bool, d: Derived, p: int) {
    |types| == TYPE_COUNT &&
    if 0 <= p < TYPE_COUNT then Pending(ViewOf(types, onBatt), d, p) else Mirrored(ViewOf(types, onBatt), d)
  }

  lemma ViewConfigured(types: Types, onBatt: bool)
    requires ConfigOK(types)
    ensures Configured(ViewOf(types, onBatt))
  {
    forall t: TypeId ensures SlotFits(t, ViewOf(types, onBatt)[t]) {
      assert TypeOK(t, types[t]);
    }
  }

  lemma BecomesPending(types0: Types, types: Types, onBatt: bool, d: Derived, k: TypeId)
    requires ConfigOK(types0) && ConfigOK(types) && types == types0[k := types[k]] && SameConfig(types0[k], types[k])
    requires DerivesAt(types0, onBatt, d, -1) || DerivesAt(types0, onBatt, d, k)
    ensures DerivesAt(types, onBatt, d, k)
  {
    ViewConfigured(types0, onBatt);
    ViewConfigured(types, onBatt);
    MirrorIsPending(ViewOf(types0, onBatt), ViewOf(types, onBatt), d, k);
  }

  /** What has to be known before a handler call for `k`: nothing but `k` may be out of date, and in the
      handler's direction only; while another type is pending, only the proxy type may be raised. */
  ghost predicate HandlerReady(types0: Types, types: Types, onBatt: bool, d: Derived, k: TypeId, op: Op, p: int) {
    && ConfigOK(types0) && ConfigOK(types) && types == types0[k := types[k]] && SameConfig(types0[k], types[k])
    && if 0 <= p < TYPE_COUNT then
         && DerivesAt(types0, onBatt, d, p)
         && p != k && k == INT_PREVENT_DISPLAY_SLEEP && !op.Release? && types[k].IsOn(onBatt)
       else
         && (DerivesAt(types0, onBatt, d, -1) || DerivesAt(types0, onBatt, d, k))
         && Directed(ViewOf(types, onBatt), d, k, op)
  }

  lemma AfterHandler(types0: Types, types: Types, onBatt: bool, d: Derived, k: TypeId, op: Op, p: int)
    requires HandlerReady(types0, types, onBatt, d, k, op, p)
    ensures DerivesAt(types, onBatt, Handle(ViewOf(types, onBatt), k, types[k].handler, op, d), p)
  {
    var v0, v := ViewOf(types0, onBatt), ViewOf(types, onBatt);
    ViewConfigured(types0, onBatt);
    ViewConfigured(types, onBatt);
    if 0 <= p < TYPE_COUNT {
      assert TypeOK(k, types[k]);
      assert v == v0[k := v0[k].(on := true)];
      RaiseWhilePending(v0, d, p, k, op);
    } else {
      BecomesPending(types0, types, onBatt, d, k);
      HandlerRestoresMirror(v, d, k, op);
    }
  }

  /** On a mirrored state every direction is allowed that the type's own activity took. */
  lemma MirrorDirects(types0: Types, types: Types, onBatt: bool, d: Derived, k: TypeId, op: Op)
    requires ConfigOK(types0) && ConfigOK(types) && types == types0[k := types[k]] && SameConfig(types0[k], types[k])
    requires DerivesAt(types0, onBatt, d, -1)
    requires op.Release? && types[k].IsOn(onBatt) ==> types0[k].IsOn(onBatt)
    requires op.Raise? && types0[k].IsOn(onBatt) ==> types[k].IsOn(onBatt)
    ensures Directed(ViewOf(types, onBatt), d, k, op)
    ensures HandlerReady(types0, types, onBatt, d, k, op, -1)
  {
    assert TypeOK(k, types[k]) && TypeOK(k, types0[k]);
    assert ViewOf(types0, onBatt)[k] == SlotOf(types0[k], onBatt);
  }

  // ---- raising -------------------------------------------------------------------------

  type Seconds = r: real | r >= 0.0

  /** Timeout in effect: a type with an automatic timeout caps what was asked for. */
  function EffectiveTimeout(r: AssertionType, asked: Seconds): Seconds {
    if r.autoTimed && (asked == 0.0 || asked > r.autoTimeout as real) then r.autoTimeout as real else asked
  }

  /** The record of an assertion raised as type `k` at time `created`. */
  function Raised(r: AssertionType, a: Assertion, k: TypeId, created: nat): Assertion {
    var b := a.(kassert := k, createTime := created);
    if a.level.Off? then b.(inactive := true)
    else
      var c := b.(validOnBatt := a.validOnBatt || (r.notValidOnBatt && a.limitedPower),
                  causing := if a.onBehalfOf.Some? then a.onBehalfOf.value else a.causing);
      var w := EffectiveTimeout(r, a.askedTimeout);
      if w != 0.0 then c.(timeout := w.Floor + created, timed := true) else c
  }

  /** A type that sets the flag counts it. */
  lemma FlagKeepsCount(r: AssertionType, a: Assertion, b: Assertion)
    requires b.validOnBatt == (a.validOnBatt || (r.notValidOnBatt && a.limitedPower))
    ensures Uncounted(r, b) <==> Uncounted(r, a)
  {
  }

  lemma SoundConfig(table: Table, types: Types, limbo: set<Index>, exact: set<TypeId>)
    requires SoundAt(table, types, limbo, exact)
    ensures ConfigOK(types)
  {
  }

  lemma SameActivity(types0: Types, types: Types, onBatt: bool, d: Derived, p: int)
    requires |types| == |types0| == TYPE_COUNT
    requires forall t: TypeId :: SlotOf(types[t], onBatt) == SlotOf(types0[t], onBatt)
    requires DerivesAt(types0, onBatt, d, p)
    ensures DerivesAt(types, onBatt, d, p)
  {
    assert ViewOf(types, onBatt) == ViewOf(types0, onBatt);
  }

  lemma ProxyReady(types0: Types, types: Types, onBatt: bool, d: Derived, op: Op, p: TypeId)
    requires ConfigOK(types0) && ConfigOK(types)
    requires var k := INT_PREVENT_DISPLAY_SLEEP;
             && types == types0[k := types[k]] && SameConfig(types0[k], types[k])
             && (types[k].active != [] || types[k].timed != [])
    requires DerivesAt(types0, onBatt, d, p) && p != INT_PREVENT_DISPLAY_SLEEP && !op.Release?
    ensures HandlerReady(types0, types, onBatt, d, INT_PREVENT_DISPLAY_SLEEP, op, p)
  {
    assert TypeOK(INT_PREVENT_DISPLAY_SLEEP, types[INT_PREVENT_DISPLAY_SLEEP]);
  }

  // ---- requests ------------------------------------------------------------------------

  const ID_FLAG: nat := 0x8000

  function IdFromIndex(i: Index): nat { i % ID_FLAG + ID_FLAG }

  function IndexFromId(id: nat): Index { if (id / ID_FLAG) % 2 == 1 then id - ID_FLAG else id }

  lemma IdRoundTrip(i: Index)
    requires i < MAX_ASSERTIONS
    ensures IndexFromId(IdFromIndex(i)) == i
    ensures IdFromIndex(i) != 0
  {
  }

  /** The first free index from `start` on, around the end of the table. */
  ghost predicate FirstFree(table: Table, start: nat, i: Index) {
    i !in table && exists n: nat ::
        n < MAX_ASSERTIONS && TakenUpTo(table, start, n) && i == (start + n) % MAX_ASSERTIONS
  }

  ghost predicate TakenUpTo(table: Table, start: nat, n: nat) {
    forall m :: start <= m < start + n ==> m % MAX_ASSERTIONS in table
  }

  datatype IOReturn = Success | BadArgument | NotPermitted | InternalError | NoMemory

  datatype Request = Request(name: Option<TypeName>, level: Level, timeout: Seconds, limitedPower: bool,
                             onBehalfOf: Option<Pid>, action: TimeoutAction, async: bool, age: nat)

  function NewAssertion(pid: Pid, name: TypeName, q: Request): Assertion {
    Assertion(pid, 0, HIGH_PERF, 1, 0, 0, false, false, false, false, false,
              name, q.level, q.timeout, q.limitedPower, q.onBehalfOf, 0, q.action, q.async)
  }

  /** One property update: the keys that were given. */
  datatype Props = Props(level: Option<Level>, timeout: Option<Seconds>, limitedPower: Option<bool>,
                         action: Option<TimeoutAction>, onBehalfOf: Option<Pid>)

  /** The keys powerd gives for its own proxy. */
  predicate ProxyProps(props: Props) {
    props.level == Some(On) && props.limitedPower.None? && props.action.None? && props.onBehalfOf.None?
  }

  /** State the property walk carries: the inactive bit and two of the modification bits. */
  datatype Walk = Walk(inactive: bool, modLevel: bool, modTimer: bool)

  function WalkLevel(w: Walk, l: Level): Walk {
    if w.inactive && l.On? then w.(inactive := false, modLevel := true)
    else if !w.inactive && l.Off? then w.(inactive := true, modLevel := true)
    else w
  }

  function WalkTimeout(w: Walk): Walk {
    if w.inactive then w.(inactive := false, modLevel := true) else w.(modTimer := true)
  }

  datatype Plan = TurnItOff | TurnItOn | Retime | Keep

  function PlanOf(w: Walk): Plan {
    if w.modLevel then (if w.inactive then TurnItOff else TurnItOn)
    else if w.modTimer && !w.inactive then Retime
    else Keep
  }

  function PlanFor(inactive: bool, props: Props): Plan {
    var w0 := Walk(inactive, false, false);
    var w1 := if props.level.Some? then WalkLevel(w0, props.level.value) else w0;
    PlanOf(if props.timeout.Some? then WalkTimeout(w1) else w1)
  }

  /** A dictionary is walked in no fixed order.  Level and timeout together mean the same either way
      exactly when the level is not off. */
  lemma WalkOrder(inactive: bool, l: Level)
    ensures var w0 := Walk(inactive, false, false);
            PlanOf(WalkTimeout(WalkLevel(w0, l))) == PlanOf(WalkLevel(WalkTimeout(w0), l)) <==> !l.Off?
  {
  }

  /** Deadline a property update asks for; 0 means none. */
  function Deadline(r: AssertionType, asked: Seconds, now: nat): nat {
    var w := EffectiveTimeout(r, asked);
    if w != 0.0 then w.Floor + now else 0
  }

  /** The record after the walk, its inactive bit and deadline still as before. */
  function WithProps(a: Assertion, props: Props, flagged: bool): Assertion {
    a.(level := if props.level.Some? then props.level.value else a.level,
       askedTimeout := if props.timeout.Some? then props.timeout.value else a.askedTimeout,
       limitedPower := if props.limitedPower.Some? && flagged then props.limitedPower.value else a.limitedPower,
       validOnBatt := if props.limitedPower.Some? && flagged then props.limitedPower.value else a.validOnBatt,
       action := if props.action.Some? then props.action.value else a.action,
       onBehalfOf := if props.onBehalfOf.Some? then props.onBehalfOf else a.onBehalfOf)
  }

  /** Table-wide facts outside the lists: powerd's own display proxy, and who may be suspended. */
  ghost predicate HouseAt(table: Table, limbo: set<Index>, suspendedPids: set<Pid>, proxy: Option<Index>, powerd: Pid,
                          nextIndex: nat) {
    && nextIndex < MAX_ASSERTIONS && powerd !in suspendedPids && 0 !in suspendedPids
    && (proxy.Some? ==> proxy.value in table && proxy.value !in limbo && IsProxy(table[proxy.value], powerd))
    && (forall i :: i in table && i !in limbo && table[i].suspended ==>
         table[i].pid in suspendedPids || table[i].causing in suspendedPids)
  }

  predicate IsProxy(a: Assertion, powerd: Pid) {
    && a.pid == powerd && a.name == Fixed(INT_PREVENT_DISPLAY_SLEEP) && a.kassert == INT_PREVENT_DISPLAY_SLEEP
    && a.level.On? && a.onBehalfOf.None? && a.causing == 0 && a.action.TurnOff? && !a.async
  }

  /** The record once the plan of a property update is carried out; `k` is the type its name resolves to. */
  function Acted(r: AssertionType, b: Assertion, plan: Plan, t: nat, k: TypeId, now: nat): Assertion {
    match plan
    case TurnItOff => b.(timed := false, inactive := true)
    case TurnItOn => Raised(r, b.(inactive := false, timeout := t), k, now)
    case Retime => b.(createTime := now, timeout := t, timed := t != 0)
    case Keep => b
  }

  /** The types whose counter misses an assertion when the plan of a property update is carried out: the
      assertion is linked with its flag set under a type that counts no flag now. */
  function Missed(types: Types, b: Assertion, plan: Plan, k: TypeId): set<TypeId>
    requires |types| == TYPE_COUNT
  {
    if plan.TurnItOn? && !b.level.Off? && Uncounted(types[k], b) then {k}
    else if plan.Retime? && Uncounted(types[b.kassert], b) then {b.kassert}
    else {}
  }

  /** Counter of a type that missed an assertion: it is not counted up when the assertion is linked. */
  function CountAfterMiss(r: AssertionType, plan: Plan): nat {
    if plan.TurnItOn? || r.validCnt == 0 then r.validCnt else r.validCnt - 1
  }

  lemma NothingMissed(types: Types, b: Assertion, plan: Plan, k: TypeId, exact: set<TypeId>)
    requires |types| == TYPE_COUNT && b.kassert == k && exact - {k} == exact
    ensures exact - Missed(types, b, plan, k) == exact
  {
  }

  /** A change of a counter that counts flags leaves alone what is missed, and its count. */
  lemma MissedSame(types0: Types, types: Types, b: Assertion, plan: Plan, k: TypeId)
    requires |types0| == |types| == TYPE_COUNT
    requires types == types0 || (types0[b.kassert].notValidOnBatt && types[b.kassert].notValidOnBatt)
    requires types == types0[b.kassert := types[b.kassert]]
    ensures Missed(types, b, plan, k) == Missed(types0, b, plan, k)
    ensures forall t :: t in Missed(types0, b, plan, k) ==> types[t] == types0[t]
  {
  }

  lemma MissedWhenOn(types: Types, r: AssertionType, b: Assertion, a: Assertion, exact: set<TypeId>, k: TypeId)
    requires |types| == TYPE_COUNT && r.notValidOnBatt == types[k].notValidOnBatt
    requires a.level == b.level && a.validOnBatt == b.validOnBatt
    ensures exact - Missed(types, b, Plan.TurnItOn, k) == if !a.level.Off? && Uncounted(r, a) then exact - {k}
              else exact
    ensures Uncounted(types[k], b) <==> Uncounted(r, a)
  {
  }

  /** The record after a property update: the new properties, then the plan. */
  function Updated(types: Types, a: Assertion, props: Props, k: TypeId, now: nat): Assertion
    requires |types| == TYPE_COUNT
  {
    var r := types[a.kassert];
    var t := if props.timeout.Some? then Deadline(r, props.timeout.value, now) else a.timeout;
    Acted(types[k], WithProps(a, props, r.notValidOnBatt), PlanFor(a.inactive, props), t, k, now)
  }

  /** Nothing in the table changed but `i` and powerd's proxy. */
  ghost predicate OthersKept(table0: Table, table: Table, i: Index, proxy: Option<Index>) {
    forall j :: j != i && proxy != Some(j) ==> (j in table <==> j in table0) && (j in table ==> table[j] == table0[j])
  }

  lemma ValidBitSet(table: Table, limbo: set<Index>, i: Index, a: Assertion, t: TypeId)
    requires i in table && i !in limbo && PlaceOf(table[i]) in {Timed, Active}
               && a == table[i].(validOnBatt := !table[i].validOnBatt)
    ensures ValidSet(table[i := a], limbo, t)
         == if t != a.kassert then ValidSet(table, limbo, t)
            else if a.validOnBatt then ValidSet(table, limbo, t) + {i} else ValidSet(table, limbo, t) - {i}
    ensures i in ValidSet(table, limbo, t) <==> t == a.kassert && !a.validOnBatt
  {
  }

  /** The valid-on-battery flag of a live assertion changes together with its type's counter. */
  lemma ValidBitSound(table: Table, types: Types, limbo: set<Index>, exact: set<TypeId>, i: Index, a: Assertion,
                      r: AssertionType)
    requires SoundAt(table, types, limbo, exact) && i in table && i !in limbo
    requires PlaceOf(table[i]) in {Timed, Active} && a == table[i].(validOnBatt := !table[i].validOnBatt)
    requires var k := table[i].kassert; SameLists(types[k], r) && SameConfig(types[k], r)
    requires var k := table[i].kassert;
             r.validCnt == if a.validOnBatt then types[k].validCnt + 1
                 else if types[k].validCnt > 0 then types[k].validCnt - 1 else 0
    ensures SoundAt(table[i := a], types[table[i].kassert := r], limbo, exact)
  {
    var k := table[i].kassert;
    assert |types| == TYPE_COUNT;
    CountedIsCounted(table, types, limbo, exact, i);
    hide Shape, ConfigOK;
    RewriteKeepsShape(table, types, limbo, i, a);
    SameListsKeepShape(table[i := a], types, limbo, k, r);
    ConfigFrame(types, k, r);
    assert Counts(table, types, limbo, exact);
    forall t: TypeId | t in exact ensures CountOK(table[i := a], limbo, t, types[k := r][t]) {
      assert CountOK(table, limbo, t, types[t]);
      ValidBitSet(table, limbo, i, a, t);
      hide ValidSet;
    }
  }

  lemma HouseStep(table: Table, table': Table, limbo: set<Index>, suspendedPids: set<Pid>, proxy: Option<Index>,
                  powerd: Pid,
                  nextIndex: nat, i: Index)
    requires HouseAt(table, limbo, suspendedPids, proxy, powerd, nextIndex)
    requires i in table' && i !in limbo && table' == table[i := table'[i]]
    requires proxy == Some(i) ==> IsProxy(table'[i], powerd)
    requires table'[i].suspended ==> table'[i].pid in suspendedPids || table'[i].causing in suspendedPids
    ensures HouseAt(table', limbo, suspendedPids, proxy, powerd, nextIndex)
  {
  }

  /** A note on an assertion leaves what is known about processes and powerd's proxy. */
  lemma HouseAnnotated(table: Table, limbo: set<Index>, suspendedPids: set<Pid>, proxy: Option<Index>, powerd: Pid,
                       nextIndex: nat, i: Index, a: Assertion)
    requires HouseAt(table, limbo, suspendedPids, proxy, powerd, nextIndex) && i in table && i !in limbo
    requires a == table[i].(retain := a.retain, level := a.level, sysTimer := a.sysTimer)
               && (proxy == Some(i) ==> a.level.On?)
    ensures HouseAt(table[i := a], limbo, suspendedPids, proxy, powerd, nextIndex)
  {
  }

  lemma DirectedFrame(v: seq<Slot>, d: Derived, v': seq<Slot>, d': Derived, k: TypeId, op: Op)
    requires |v| == |v'| == TYPE_COUNT && Directed(v, d, k, op)
    requires v'[k] == v[k] && (k in d'.agg <==> k in d.agg)
    ensures Directed(v', d', k, op)
  {
  }

  lemma WithPropsFacts(a: Assertion, props: Props, flagged: bool, v: bool)
    ensures var b := WithProps(a, props, flagged);
            && a.(level := b.level, askedTimeout := b.askedTimeout, limitedPower := b.limitedPower,
                 validOnBatt := b.validOnBatt, action := b.action, onBehalfOf := b.onBehalfOf) == b
            && (ProxyProps(props) ==> b.action == a.action && b.onBehalfOf == a.onBehalfOf)
            && (!flagged || props.limitedPower.None? ==> b.validOnBatt == a.validOnBatt)
            && (flagged && props.limitedPower.Some? ==> b.validOnBatt == props.limitedPower.value)
    ensures flagged && props.limitedPower == Some(v) ==>
              WithProps(a.(validOnBatt := v), props, flagged) == WithProps(a, props, flagged)
  {
  }

  lemma RaisedParts(r: AssertionType, a: Assertion, k: TypeId, created: nat)
    ensures a.level.Off? ==> Raised(r, a, k, created) == a.(kassert := k, createTime := created, inactive := true)
    ensures !a.level.Off? ==>
              var w := EffectiveTimeout(r, a.askedTimeout);
              Raised(r, a, k, created) ==
                a.(kassert := k, createTime := created, validOnBatt := a.validOnBatt
                    || (r.notValidOnBatt && a.limitedPower),
                   causing := if a.onBehalfOf.Some? then a.onBehalfOf.value else a.causing,
                   timeout := if w != 0.0 then w.Floor + created else a.timeout, timed := w != 0.0 || a.timed)
  {
    hide EffectiveTimeout;
  }

  /** Raising changes no more than type, times, list bits, battery flag and causing process. */
  lemma RaisedFields(r: AssertionType, a: Assertion, k: TypeId, created: nat)
    ensures var b := Raised(r, a, k, created);
            a.(kassert := k, createTime := created, timeout := b.timeout, timed := b.timed, inactive := b.inactive,
               validOnBatt := b.validOnBatt, causing := b.causing) == b
    ensures a.onBehalfOf.None? ==> Raised(r, a, k, created).causing == a.causing
  {
    hide EffectiveTimeout, Raised;
    RaisedParts(r, a, k, created);
  }

  lemma RaisedFacts(r: AssertionType, a: Assertion, k: TypeId, created: nat, powerd: Pid)
    ensures var b := Raised(r, a, k, created);
            && b.suspended == a.suspended && b.pid == a.pid && b.kassert == k && b.name == a.name
            && (IsProxy(a, powerd) && k == INT_PREVENT_DISPLAY_SLEEP ==> IsProxy(b, powerd))
  {
    RaisedFields(r, a, k, created);
    hide Raised;
  }

  /** An inactive assertion is raised again. */
  lemma HouseRaised(table: Table, table': Table, limbo: set<Index>, suspendedPids: set<Pid>, proxy: Option<Index>,
                    powerd: Pid, nextIndex: nat, i: Index, r: AssertionType, timeout: nat, k: TypeId, now: nat)
    requires HouseAt(table, limbo, suspendedPids, proxy, powerd, nextIndex) && i in table && i !in limbo
    requires table' == table[i := Raised(r, table[i].(inactive := false, timeout := timeout), k, now)]
    requires !table[i].suspended && (proxy == Some(i) ==> k == INT_PREVENT_DISPLAY_SLEEP)
    ensures HouseAt(table', limbo, suspendedPids, proxy, powerd, nextIndex)
  {
    hide Raised;
    RaisedFacts(r, table[i].(inactive := false, timeout := timeout), k, now, powerd);
  }

  lemma RaisedSame(r: AssertionType, r': AssertionType, a: Assertion, k: TypeId, created: nat)
    requires r.autoTimed == r'.autoTimed && r.autoTimeout == r'.autoTimeout && r.notValidOnBatt == r'.notValidOnBatt
    ensures Raised(r, a, k, created) == Raised(r', a, k, created)
  {
  }

  /** Type `k` alone is out of date, in the direction of `op`. */
  ghost predicate ReadyAt(types: Types, onBatt: bool, d: Derived, k: TypeId, op: Op) {
    DerivesAt(types, onBatt, d, k) && Directed(ViewOf(types, onBatt), d, k, op)
  }

  lemma BecomesReady(types0: Types, types: Types, onBatt: bool, d: Derived, k: TypeId, op: Op)
    requires ConfigOK(types0) && ConfigOK(types) && types == types0[k := types[k]] && SameConfig(types0[k], types[k])
    requires DerivesAt(types0, onBatt, d, -1)
    requires op.Release? && types[k].IsOn(onBatt) ==> types0[k].IsOn(onBatt)
    requires op.Raise? && types0[k].IsOn(onBatt) ==> types[k].IsOn(onBatt)
    ensures ReadyAt(types, onBatt, d, k, op)
  {
    MirrorDirects(types0, types, onBatt, d, k, op);
    BecomesPending(types0, types, onBatt, d, k);
  }

  lemma OthersKeptAfter(table0: Table, i: Index, a: Assertion, table: Table, proxy: Option<Index>)
    requires i in table0
    requires table == table0[i := a]
               || (proxy.Some? && proxy != Some(i) && proxy.value in table
               && table == table0[i := a][proxy.value := table[proxy.value]])
    ensures OthersKept(table0, table, i, proxy) && i in table && table[i] == a
  {
  }

  lemma PlanFacts(inactive: bool, props: Props)
    requires !(props.level == Some(Off) && props.timeout.Some?)
    ensures var plan := PlanFor(inactive, props);
            && (plan.TurnItOff? ==> !inactive && props.level == Some(Off))
            && (plan.TurnItOn? ==> inactive)
            && (plan.Retime? ==> !inactive && props.timeout.Some?)
            && (plan.Keep? ==> props.timeout.None?)
  {
  }

  lemma OthersKeptThrough(table0: Table, table1: Table, table: Table, i: Index, proxy: Option<Index>)
    requires i in table1 && table1 == table0[i := table1[i]] && OthersKept(table1, table, i, proxy)
    ensures OthersKept(table0, table, i, proxy)
  {
  }

  /** No type was configured differently. */
  ghost predicate AllSameConfig(types0: Types, types: Types) {
    |types0| == |types| == TYPE_COUNT && forall t: TypeId :: SameConfig(types0[t], types[t])
  }

  /** Types a step in type `k` leaves alone; none is configured differently. */
  ghost predicate OthersSame(types0: Types, types: Types, k: TypeId) {
    |types0| == |types| == TYPE_COUNT && AllSameConfig(types0, types) &&
    forall t: TypeId :: t != k && (t != INT_PREVENT_DISPLAY_SLEEP || k != PREVENT_DISPLAY_SLEEP) ==>
        types[t] == types0[t]
  }

  lemma OneConfigured(types0: Types, types1: Types, types: Types, k: TypeId)
    requires AllSameConfig(types0, types1) && |types| == TYPE_COUNT
    requires types == types1[k := types[k]] && SameConfig(types1[k], types[k])
    ensures AllSameConfig(types0, types)
  {
  }

  lemma SameIsSame(types: Types)
    requires |types| == TYPE_COUNT
    ensures AllSameConfig(types, types)
  {
  }

  lemma SetupsStay(types0: Types, types1: Types, types: Types, k: TypeId)
    requires |types1| == |types| == TYPE_COUNT && types == types1[k := types[k]] && SameConfig(types1[k], types[k])
    ensures AllSameConfig(types0, types1) ==> AllSameConfig(types0, types)
  {
  }

  lemma SameSetupsFrom(types0: Types, types1: Types, types: Types, k: TypeId)
    requires |types0| == |types1| == TYPE_COUNT && types1 == types0[k := types1[k]] && SameConfig(types0[k], types1[k])
    requires AllSameConfig(types1, types)
    ensures AllSameConfig(types0, types)
  {
  }

  lemma OthersSameConfig(types0: Types, types: Types, k: TypeId)
    requires OthersSame(types0, types, k)
    ensures AllSameConfig(types0, types)
  {
  }

  lemma OthersSameTwice(types0: Types, types1: Types, types: Types, k: TypeId)
    requires OthersSame(types0, types1, k) && OthersSame(types1, types, k)
    ensures OthersSame(types0, types, k)
  {
  }

  /** powerd's proxy is the one it had, or a new one in none of the `kept` places. */
  ghost predicate ProxyFrom(proxy0: Option<Index>, proxy: Option<Index>, kept: set<Index>) {
    proxy == proxy0 || (proxy0.None? && proxy.Some? && proxy.value !in kept)
  }

  /** What a timeout run of type `k` does not release. */
  ghost function Outlasting(table: Table, k: TypeId, now: nat): set<Index> {
    set j | j in table &&
            !(table[j].kassert == k && table[j].timed && table[j].timeout <= now
                && (table[j].action.ReleaseIt? || table[j].async))
  }

  /** Counter of a type after the release of one of its assertions.  Only the inactive list is left uncounted. */
  function CountWithout(r: AssertionType, a: Assertion): nat {
    if a.inactive then r.validCnt else r.LessValid(a).validCnt
  }

  /** The id table is not full. */
  ghost predicate HasFree(table: Table) {
    exists j :: 0 <= j < MAX_ASSERTIONS && j !in table
  }

  lemma HasFreeSame(table: Table, table': Table)
    requires forall j :: j in table' ==> j in table
    ensures HasFree(table) ==> HasFree(table')
  {
    if HasFree(table) {
      var j :| 0 <= j < MAX_ASSERTIONS && j !in table;
      assert j !in table';
    }
  }

  /** Removals at `k` keep it ready for its release handler. */
  lemma StaysReady(types0: Types, types: Types, onBatt: bool, d: Derived, k: TypeId)
    requires ConfigOK(types0) && ConfigOK(types) && types == types0[k := types[k]] && SameConfig(types0[k], types[k])
    requires ReadyAt(types0, onBatt, d, k, Release)
    requires types[k].IsOn(onBatt) ==> types0[k].IsOn(onBatt)
    ensures ReadyAt(types, onBatt, d, k, Release)
  {
    BecomesPending(types0, types, onBatt, d, k);
  }

  lemma HouseInLimbo(table: Table, table': Table, limbo: set<Index>, suspendedPids: set<Pid>, proxy: Option<Index>,
                     powerd: Pid,
                     nextIndex: nat, i: Index)
    requires HouseAt(table, limbo, suspendedPids, proxy, powerd, nextIndex)
    requires proxy != Some(i) && forall j :: j != i ==>
               (j in table <==> j in table') && (j in table ==> table'[j] == table[j])
    ensures HouseAt(table', limbo + {i}, suspendedPids, proxy, powerd, nextIndex)
    ensures i !in table' ==> HouseAt(table', limbo - {i}, suspendedPids, proxy, powerd, nextIndex)
  {
  }

  lemma ReadyIsPending(types: Types, onBatt: bool, d: Derived, k: TypeId, op: Op)
    requires ReadyAt(types, onBatt, d, k, op)
    ensures DerivesAt(types, onBatt, d, k)
  {
  }

  lemma DropTimers(table: Table, types: Types, limbo: set<Index>, exact: set<TypeId>, now: nat, i: Index, x: int)
    requires SoundAt(table, types, limbo, exact) && i in limbo && TimersAt(table, types, now, x)
    ensures TimersAt(table - {i}, types, now, x)
  {
    SoundFacts(table, types, limbo, exact, i);
    forall t: TypeId | t != x ensures TimerOK(table - {i}, types[t], now) {
      assert TimerOK(table, types[t], now);
    }
  }

  lemma OthersKeptDropped(table0: Table, table1: Table, table: Table, i: Index, proxy: Option<Index>)
    requires OthersKept(table0, table1, i, proxy) && table == table1 - {i}
    ensures OthersKept(table0, table, i, proxy)
  {
  }


  /** What a timeout does to an assertion: release it, or leave it switched off. */
  ghost predicate Expired(table0: Table, table: Table, j: Index)
    requires j in table0
  {
    if table0[j].action.ReleaseIt? || table0[j].async then j !in table
    else j in table && table[j] == table0[j].(timed := false, inactive := true)
  }

  lemma HouseAfter(table: Table, table': Table, limbo: set<Index>, limbo': set<Index>, suspendedPids: set<Pid>,
                   proxy: Option<Index>,
                   powerd: Pid, nextIndex: nat, i: Index)
    requires HouseAt(table, limbo, suspendedPids, proxy, powerd, nextIndex)
    requires limbo' == limbo - {i} && i !in limbo && i in table && !table[i].suspended
    requires forall j :: j != i ==> (j in table <==> j in table') && (j in table ==> table'[j] == table[j])
    requires Expired(table, table', i)
    ensures HouseAt(table', limbo', suspendedPids, proxy, powerd, nextIndex)
  {
  }

  lemma SortedTail(table: Table, l: seq<Index>, n: nat)
    requires Sorted(table, l) && NoDup(l) && n < |l|
    ensures Without(l[n..], l[n]) == l[n + 1..]
    ensures forall j :: j in l[n..] ==> table[l[n]].timeout <= table[j].timeout
  {
    var m := l[n..];
    assert forall x :: 0 <= x < |m| ==> m[x] == l[n + x];
    assert m == [] + [l[n]] + l[n + 1..];
    assert l[n] !in l[n + 1..];
    WithoutSplit([], l[n], l[n + 1..]);
    assert [] + l[n + 1..] == l[n + 1..];
  }

  lemma TimedFacts(table: Table, types: Types, limbo: set<Index>, exact: set<TypeId>, k: TypeId)
    requires SoundAt(table, types, limbo, exact)
    ensures Sorted(table, types[k].timed) && NoDup(types[k].timed)
    ensures forall j :: j in types[k].timed ==>
              j in table && j !in limbo && table[j].kassert == k && table[j].timed && !table[j].inactive
              && !table[j].suspended
  {
    assert ListsOK(table, limbo, k, types[k]);
  }

  /** After a timeout run: expired assertions were dealt with, and nothing else changed but powerd's proxy. */
  ghost predicate TimeoutRun(table0: Table, timed0: seq<Index>, table: Table, now: nat, proxy: Option<Index>) {
    && (forall j :: j in timed0 ==> j in table0)
    && (forall j :: j in timed0 && table0[j].timeout <= now && proxy != Some(j) ==> Expired(table0, table, j))
    && (forall j :: !(j in timed0 && table0[j].timeout <= now) && proxy != Some(j) ==>
          (j in table <==> j in table0) && (j in table ==> table[j] == table0[j]))
  }

  /** The first `n` of the timed assertions were dealt with. */
  ghost predicate ExpiredUpTo(table0: Table, timed0: seq<Index>, table: Table, now: nat, n: nat) {
    && n <= |timed0| && Sorted(table0, timed0) && NoDup(timed0)
    && (forall m :: 0 <= m < n ==> table0[timed0[m]].timeout <= now && Expired(table0, table, timed0[m]))
    && (forall j :: j !in timed0[..n] ==> (j in table <==> j in table0) && (j in table ==> table[j] == table0[j]))
  }

  lemma ExpireStart(table: Table, timed: seq<Index>, now: nat)
    requires Sorted(table, timed) && NoDup(timed)
    ensures ExpiredUpTo(table, timed, table, now, 0)
  {
  }

  /** What the next step finds at the head of the list. */
  lemma ExpireFacts(table0: Table, timed0: seq<Index>, table: Table, now: nat, n: nat)
    requires ExpiredUpTo(table0, timed0, table, now, n) && n < |timed0|
    ensures timed0[n..] != [] && timed0[n..][0] == timed0[n] && timed0[n..][1..] == timed0[n + 1..]
    ensures timed0[n] in table0 && timed0[n] in table && table[timed0[n]] == table0[timed0[n]]
  {
    assert timed0[n] in timed0;
  }

  lemma ExpireStep(table0: Table, timed0: seq<Index>, table1: Table, table: Table, now: nat, n: nat)
    requires ExpiredUpTo(table0, timed0, table1, now, n) && n < |timed0|
    requires timed0[n] in table1 && table1[timed0[n]].timeout <= now && Expired(table1, table, timed0[n])
    requires forall j :: j != timed0[n] ==> (j in table <==> j in table1) && (j in table ==> table[j] == table1[j])
    ensures ExpiredUpTo(table0, timed0, table, now, n + 1)
  {
    ExpireFacts(table0, timed0, table1, now, n);
    assert timed0[..n + 1] == timed0[..n] + [timed0[n]];
  }

  lemma ExpireDone(table0: Table, timed0: seq<Index>, table: Table, now: nat, n: nat)
    requires ExpiredUpTo(table0, timed0, table, now, n)
    requires n < |timed0| ==> table0[timed0[n]].timeout > now
    ensures TimeoutRun(table0, timed0, table, now, None)
    ensures forall j :: j in timed0[n..] ==> j in table && table[j].timeout > now
  {
    forall j | j in timed0[n..] ensures j in table0 && j !in timed0[..n] && table0[j].timeout > now {
      var y :| 0 <= y < |timed0[n..]| && timed0[n..][y] == j;
      assert timed0[n + y] == j;
    }
    forall j | j in timed0 && table0[j].timeout <= now ensures Expired(table0, table, j) {
      var y :| 0 <= y < |timed0| && timed0[y] == j;
    }
  }

  /** One of the first `n` belongs to a process other than powerd. */
  ghost predicate AnyClient(table: Table, l: seq<Index>, n: nat, powerd: Pid) {
    exists m :: 0 <= m < n && m < |l| && l[m] in table && table[l[m]].pid != powerd
  }

  lemma NoneYet(table: Table, types: Types, k: TypeId, powerd: Pid)
    requires |types| == TYPE_COUNT
    ensures !AnyClient(table, types[k].timed, 0, powerd) && types[k := types[k]] == types
              && types[k].timed[0..] == types[k].timed
  {
  }

  lemma AnyClientStep(table: Table, l: seq<Index>, n: nat, powerd: Pid)
    requires n < |l| && l[n] in table
    ensures AnyClient(table, l, n + 1, powerd) <==> AnyClient(table, l, n, powerd) || table[l[n]].pid != powerd
    ensures !AnyClient(table, l, 0, powerd)
  {
    if AnyClient(table, l, n + 1, powerd) && table[l[n]].pid == powerd {
      var m :| 0 <= m < n + 1 && m < |l| && l[m] in table && table[l[m]].pid != powerd;
      assert m < n;
    }
  }

  lemma TimeoutRunWeaken(table0: Table, timed0: seq<Index>, table1: Table, table: Table, now: nat, proxy: Option<Index>)
    requires TimeoutRun(table0, timed0, table1, now, None)
    requires forall j :: proxy != Some(j) ==> (j in table <==> j in table1) && (j in table ==> table[j] == table1[j])
    ensures TimeoutRun(table0, timed0, table, now, proxy)
  {
  }

  lemma TimersClosed(table: Table, types: Types, now: nat, k: TypeId)
    requires TimersAt(table, types, now, k) && (types[k].timed != [] ==> TimerOK(table, types[k], now))
    ensures TimersAt(table, types, now, -1)
  {
  }

  lemma TimersLater(table: Table, types: Types, now: nat, now': nat, x: int)
    requires TimersAt(table, types, now, x) && now <= now'
    ensures TimersAt(table, types, now', x)
  {
    forall t: TypeId | t != x ensures TimerOK(table, types[t], now') {
      assert TimerOK(table, types[t], now);
    }
  }

  lemma RunKeys(table0: Table, timed0: seq<Index>, table: Table, now: nat)
    requires TimeoutRun(table0, timed0, table, now, None)
    ensures HasFree(table0) ==> HasFree(table)
  {
    assert forall j :: j in table ==> j in table0;
    HasFreeSame(table0, table);
  }

  lemma ProxyFacts(table: Table, limbo: set<Index>, suspendedPids: set<Pid>, proxy: Option<Index>, powerd: Pid,
                   nextIndex: nat)
    requires HouseAt(table, limbo, suspendedPids, proxy, powerd, nextIndex)
    ensures proxy.Some? ==> proxy.value in table && IsProxy(table[proxy.value], powerd)
  {
  }

  /** Result of a timeout run of type `k` that took `n` assertions off its list. */
  ghost predicate RunResult(table0: Table, types0: Types, table: Table, types: Types, k: TypeId, n: nat,
                            displayProxy: bool,
                            now: nat, proxy: Option<Index>, powerd: Pid)
  {
    && |types0| == |types| == TYPE_COUNT && n <= |types0[k].timed| && types[k].timed == types0[k].timed[n..]
    && displayProxy == (k == PREVENT_DISPLAY_SLEEP && AnyClient(table0, types0[k].timed, n, powerd))
    && TimeoutRun(table0, types0[k].timed, table, now, proxy)
    && (forall m :: 0 <= m < n ==> types0[k].timed[m] in table0 && table0[types0[k].timed[m]].timeout <= now)
    && (forall j :: j in types[k].timed ==> j in table && table[j].timeout > now)
  }

  lemma RunResultLater(table0: Table, types0: Types, table1: Table, types1: Types, table: Table, types: Types,
                       k: TypeId, n: nat,
                       displayProxy: bool, now: nat, proxy: Option<Index>, powerd: Pid)
    requires RunResult(table0, types0, table1, types1, k, n, displayProxy, now, None, powerd)
    requires |types| == TYPE_COUNT && types[k].timed == types1[k].timed
    requires forall j :: proxy != Some(j) ==> (j in table <==> j in table1) && (j in table ==> table[j] == table1[j])
    requires forall j :: j in types[k].timed ==> proxy != Some(j)
    ensures RunResult(table0, types0, table, types, k, n, displayProxy, now, proxy, powerd)
  {
    TimeoutRunWeaken(table0, types0[k].timed, table1, table, now, proxy);
  }

  lemma LaterDeadlines(table0: Table, types0: Types, table: Table, types: Types, k: TypeId, n: nat, displayProxy: bool,
                       now: nat, powerd: Pid)
    requires RunResult(table0, types0, table, types, k, n, displayProxy, now, None, powerd)
    ensures |types| == TYPE_COUNT
    ensures types[k].timed != [] ==> types[k].timed[0] in table && table[types[k].timed[0]].timeout > now
  {
    assert types[k].timed != [] ==> types[k].timed[0] in types[k].timed;
  }

  lemma RunResultFrom(table0: Table, types0: Types, table: Table, types: Types, k: TypeId, n: nat, displayProxy: bool,
                      now: nat, powerd: Pid)
    requires |types0| == |types| == TYPE_COUNT && n <= |types0[k].timed| && types[k].timed == types0[k].timed[n..]
    requires ExpiredUpTo(table0, types0[k].timed, table, now, n)
    requires types[k].timed != [] ==> types[k].timed[0] in table && table[types[k].timed[0]].timeout > now
    requires displayProxy == (k == PREVENT_DISPLAY_SLEEP && AnyClient(table0, types0[k].timed, n, powerd))
    ensures RunResult(table0, types0, table, types, k, n, displayProxy, now, None, powerd)
  {
    if n < |types0[k].timed| {
      ExpireFacts(table0, types0[k].timed, table, now, n);
    }
    ExpireDone(table0, types0[k].timed, table, now, n);
  }

  lemma OutlastingFacts(table: Table, types: Types, exact: set<TypeId>, k: TypeId, now: nat)
    requires SoundAt(table, types, {}, exact)
    ensures forall j :: j in table ==> (j in types[k].timed <==> table[j].kassert == k && table[j].timed)
  {
    assert ListsOK(table, {}, k, types[k]);
    forall j | j in table ensures j in types[k].timed <==> table[j].kassert == k && table[j].timed {
      InItsList(table, types, {}, exact, j);
    }
  }

  lemma OutlastingStay(table0: Table, types0: Types, table: Table, types: Types, k: TypeId, n: nat, displayProxy: bool,
                       now: nat, powerd: Pid)
    requires RunResult(table0, types0, table, types, k, n, displayProxy, now, None, powerd)
    requires forall j :: j in table0 ==> (j in types0[k].timed <==> table0[j].kassert == k && table0[j].timed)
    ensures Outlasting(table0, k, now) <= table.Keys
  {
  }

  lemma RunResultKeys(table0: Table, types0: Types, table: Table, types: Types, k: TypeId, n: nat, displayProxy: bool,
                      now: nat, powerd: Pid)
    requires RunResult(table0, types0, table, types, k, n, displayProxy, now, None, powerd)
    ensures |types| == |types0| == TYPE_COUNT
    ensures HasFree(table0) ==> HasFree(table)
    ensures n == 0 ==> !displayProxy
    ensures displayProxy ==> k == PREVENT_DISPLAY_SLEEP
    ensures types[k].timed != [] ==> types0[k].timed != []
  {
    RunKeys(table0, types0[k].timed, table, now);
  }

  // ---- suspending and resuming ---------------------------------------------------------

  predicate Concerns(a: Assertion, pid: Pid) {
    a.pid == pid || a.causing == pid
  }

  /** Assertions of suspended processes, or raised for them, are not to be manipulated. */
  predicate Refused(suspendedPids: set<Pid>, a: Assertion) {
    a.pid in suspendedPids || a.causing in suspendedPids
  }

  /** What is noted of the time a suspended assertion had left: an old note stays unless its deadline is ahead. */
  function Remainder(a: Assertion, now: nat): nat {
    if a.timeout > now then a.timeout - now else a.resumeIn
  }

  /** The record of an assertion suspended at time `now`; the time left of a deadline still ahead is kept. */
  function SuspendedForm(a: Assertion, now: nat): Assertion {
    a.(timed := false, inactive := false, suspended := true, resumeIn := Remainder(a, now))
  }

  /** The record of a suspended assertion resumed at time `now`. */
  function ResumedForm(a: Assertion, now: nat): Assertion {
    if a.level.Off? then a.(suspended := false, timed := false, inactive := true)
    else if a.resumeIn != 0 then a.(suspended := false, resumeIn := 0, timeout := a.resumeIn + now, timed := true)
    else a.(suspended := false, timed := false, inactive := false)
  }

  /** The types whose counter misses an assertion when it is resumed. */
  function MissedOnResume(r: AssertionType, a: Assertion): set<TypeId> {
    if !a.level.Off? && Uncounted(r, a) then {a.kassert} else {}
  }

  /** Suspended at `t0` and resumed at `t1`, an assertion is back on the kind of list it was on exactly when:
      a timed one is not switched off and has a deadline ahead or an old remainder left behind, an active one
      is not switched off and has neither, and an inactive one is switched off.  A timed one has exactly its
      remaining time back when moreover its deadline was ahead. */
  lemma SuspendResume(a: Assertion, t0: nat, t1: nat)
    requires OneBit(a) && !a.suspended
    ensures var b := ResumedForm(SuspendedForm(a, t0), t1);
            && OneBit(b) && !b.suspended
            && (PlaceOf(b) == PlaceOf(a) <==>
                  match PlaceOf(a)
                  case Timed => !a.level.Off? && (a.timeout > t0 || a.resumeIn != 0)
                  case Active => !a.level.Off? && a.timeout <= t0 && a.resumeIn == 0
                  case _ => a.level.Off?)
            && (a.timed && !a.level.Off? ==> (b.timed && b.timeout - t1 == a.timeout - t0 <==> a.timeout > t0))
            && (a.timed && !a.level.Off? && a.timeout <= t0 && a.resumeIn == 0 ==> PlaceOf(b) == Active)
            && b == a.(timed := b.timed, inactive := b.inactive, resumeIn := b.resumeIn, timeout := b.timeout)
  {
  }

  /** One assertion of type `k` was suspended; only powerd's proxy may have changed besides. */
  ghost predicate SuspendStep(table0: Table, types0: Types, proxy0: Option<Index>, table: Table, types: Types,
                              proxy: Option<Index>,
                              k: TypeId, i: Index, now: nat)
  {
    && i in table0 && i in table && table[i] == SuspendedForm(table0[i], now) && proxy != Some(i)
    && OthersKept(table0, table, i, proxy) && OthersSame(types0, types, k)
    && (forall q :: q != Suspended ==> types[k].ListAt(q) == types0[k].Unlinked(i).ListAt(q))
    && (proxy0.Some? || k != PREVENT_DISPLAY_SLEEP ==> proxy == proxy0)
    && (proxy0.None? && proxy.Some? ==> proxy.value !in table0)
  }

  lemma SuspendStepFrom(table0: Table, types0: Types, proxy0: Option<Index>, table1: Table, types1: Types, table: Table,
                        types: Types,
                        proxy: Option<Index>, k: TypeId, i: Index, now: nat)
    requires i in table0 && i in table1 && table1[i] == table0[i].(timed := false, inactive := false)
               && proxy != Some(i)
    requires OthersKept(table0, table1, i, proxy) && OthersSame(types0, types1, k)
               && SameLists(types1[k], types0[k].Unlinked(i))
    requires ProxyFrom(proxy0, proxy, table0.Keys) && (k != PREVENT_DISPLAY_SLEEP ==> proxy == proxy0)
    requires |types| == TYPE_COUNT && types == types1[k := types1[k].(suspended := [i] + types1[k].suspended)]
    requires table == table1[i := table1[i].(suspended := true, resumeIn := Remainder(table0[i], now))]
    ensures SuspendStep(table0, types0, proxy0, table, types, proxy, k, i, now)
  {
  }

  lemma EvalReady(types0: Types, types: Types, onBatt: bool, d: Derived, k: TypeId)
    requires ConfigOK(types0) && ConfigOK(types) && types == types0[k := types[k]] && SameConfig(types0[k], types[k])
    requires DerivesAt(types0, onBatt, d, k)
    ensures ReadyAt(types, onBatt, d, k, Eval)
  {
    BecomesPending(types0, types, onBatt, d, k);
  }

  lemma HouseBack(table: Table, table': Table, limbo: set<Index>, suspendedPids: set<Pid>, proxy: Option<Index>,
                  powerd: Pid,
                  nextIndex: nat, i: Index)
    requires HouseAt(table, limbo, suspendedPids, proxy, powerd, nextIndex) && i in table && proxy != Some(i)
    requires i in table' && table' == table[i := table'[i]]
               && (table'[i].pid in suspendedPids || table'[i].causing in suspendedPids)
    ensures HouseAt(table', limbo - {i}, suspendedPids, proxy, powerd, nextIndex)
  {
  }

  // ---- the start -----------------------------------------------------------------------

  predicate Unused(r: AssertionType) {
    r.timed == [] && r.active == [] && r.inactive == [] && r.suspended == [] && r.validCnt == 0
  }

  lemma NoHouse(powerd: Pid)
    ensures HouseAt(map[], {}, {}, None, powerd, 0)
  {
  }

  lemma UnusedIsSound(types: Types, now: nat, onBatt: bool)
    requires ConfigOK(types) && forall t: TypeId :: Unused(types[t])
    ensures SoundAt(map[], types, {}, BATTERY_TYPES)
    ensures TimersAt(map[], types, now, -1) && DerivesAt(types, onBatt, Derived({}, {}, {}), -1)
  {
    forall t: TypeId ensures ListsOK(map[], {}, t, types[t]) && !types[t].IsOn(onBatt) {
      assert Unused(types[t]);
    }
    forall t: TypeId | t in BATTERY_TYPES ensures CountOK(map[], {}, t, types[t]) {
      assert Unused(types[t]);
      assert ValidSet(map[], {}, t) == {};
    }
  }
}
