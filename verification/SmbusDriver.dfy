/**
 The SMBus transaction driver of AppleSmartBatteryManager/SmbusHandler.cpp: one transaction at a time,
 retried on bus errors and absurd readings, with completions of earlier submissions filtered out.
 Command codes are those of section 5.1 of the Smart Battery Data Specification, revision 1.1.
 */
module SmbusDriver {
  import opened Common

  const RETRY_ATTEMPTS: nat := 5
  const DELAYS: seq<nat> := [10, 100, 1000, 10000, 250000]

  const MANUFACTURER_ACCESS: nat := 0x00
  const REMAINING_CAPACITY: nat := 0x0f
  const FULL_CHARGE_CAPACITY: nat := 0x10
  const DESIGN_CAPACITY: nat := 0x18
  const EXTENDED_PF_STATUS: nat := 0x53
  const EXTENDED_OPERATION_STATUS: nat := 0x54

  type Byte = b: nat | b < 256
  type Word = n: nat | n < TWO_32

  /** Every retry waits at least twice as long as the one before. */
  lemma DelaysGrow()
    ensures |DELAYS| == RETRY_ATTEMPTS && forall i :: 0 < i < |DELAYS| ==> 2 * DELAYS[i - 1] <= DELAYS[i]
  {
  }

  datatype Status =
    | StatusOK
    | AddressNotAcknowledged | CommandAccessDenied | AccessDenied | UnknownHostError | UnknownFailure | DeviceError
    | StatusTimeout | StatusBusy
    | HostUnsupportedProtocol | PECError
    | OtherStatus

  predicate NeedsRetry(s: Status) {
    s in {AddressNotAcknowledged, CommandAccessDenied, AccessDenied, UnknownHostError, UnknownFailure, DeviceError,
        StatusTimeout, StatusBusy}
  }

  predicate NonRecoverable(s: Status) {
    s in {HostUnsupportedProtocol, PECError}
  }

  datatype OpType = ReadWord | WriteWord | ReadBlock | ExtendedReadWord | OtherOp

  datatype Protocol = ProtocolReadWord | ProtocolWriteWord | ProtocolReadBlock | NoProtocol

  datatype IOReturn = Success | Offline | ExclusiveAccess | NoDevice | BadArgument | Invalid | IOError

  datatype Request = Request(opType: OpType, command: nat, discharged: bool, out: (Byte, Byte))

  /** What the bus delivers with a completion. */
  datatype Reply = Reply(status: Status, count: nat, data: seq<Byte>)

  predicate WellFormed(r: Reply) {
    |r.data| == 32 && r.count <= 32
  }

  /** One call of a client's completion routine. */
  datatype Completion = Completion(client: nat, result: IOReturn, data: seq<Byte>)

  /** Capacities that cannot be zero. */
  predicate ZeroIsAbsurd(command: nat, discharged: bool) {
    command == FULL_CHARGE_CAPACITY || command == DESIGN_CAPACITY || (command == REMAINING_CAPACITY && !discharged)
  }

  predicate AbsurdZero(command: nat, discharged: bool, r: Reply)
    requires WellFormed(r)
  {
    r.status.StatusOK? && ZeroIsAbsurd(command, discharged) && r.data[0] == 0 && r.data[1] == 0
  }

  /** Refused although the handler is free to work. */
  predicate Malformed(q: Request) {
    q.opType.OtherOp? || (q.opType.ExtendedReadWord? && q.command !in {EXTENDED_PF_STATUS, EXTENDED_OPERATION_STATUS})
  }

  /** Command, protocol and data a request puts on the bus first.  An extended read starts with a write of the
      command word to ManufacturerAccess. */
  function OnTheWire(q: Request): (nat, Protocol, seq<Byte>) {
    match q.opType
    case ReadWord => (q.command, ProtocolReadWord, [])
    case ReadBlock => (q.command, ProtocolReadBlock, [])
    case WriteWord => (q.command, ProtocolWriteWord, [q.out.0, q.out.1])
    case ExtendedReadWord => (MANUFACTURER_ACCESS, ProtocolWriteWord, [q.command % 256, 0])
    case OtherOp => (q.command, NoProtocol, [])
  }

  /** Of the first `count` accepted requests each has been answered once, or was given up, or is in flight. */
  ghost predicate Accounted(count: nat, answered: seq<nat>, superseded: set<nat>, open: Option<nat>) {
    && (forall n :: 0 <= n < |answered| ==>
         answered[n] < count && answered[n] !in superseded && open != Some(answered[n]))
    && (forall m, n :: 0 <= m < n < |answered| ==> answered[m] != answered[n])
    && (forall r :: r in superseded ==> r < count)
    && (open.Some? ==> open.value < count && open.value !in superseded)
    && (forall r :: 0 <= r < count ==> r in answered || r in superseded || open == Some(r))
  }

  lemma GivenUp(count: nat, answered: seq<nat>, superseded: set<nat>, open: Option<nat>)
    requires Accounted(count, answered, superseded, open)
    ensures Accounted(count, answered, if open.Some? then superseded + {open.value} else superseded, None)
  {
  }

  lemma TakenUp(count: nat, answered: seq<nat>, superseded: set<nat>)
    requires Accounted(count, answered, superseded, None)
    ensures Accounted(count + 1, answered, superseded, Some(count))
  {
  }

  lemma Answered(count: nat, answered: seq<nat>, superseded: set<nat>, r: nat)
    requires Accounted(count, answered, superseded, Some(r))
    ensures Accounted(count, answered + [r], superseded, None)
  {
    var after := answered + [r];
    assert after[|answered|] == r;
    forall q | 0 <= q < count && q !in superseded ensures q in after {
      if q != r {
        assert q in answered;
      }
    }
  }

  // ---- the driver seen from outside ----------------------------------------------------

  /** What one submission carries. */
  datatype Sent = Sent(command: nat, protocol: Protocol, data: seq<Byte>)

  /** The transaction set up, the submissions on the bus and what each carried, the requests and completions so far, and
      which request each completion answered. */
  datatype Device = Device(
    opType: OpType, command: nat, protocol: Protocol, sendData: seq<Byte>, bus: seq<Sent>, discharged: bool,
    client: nat, retry: nat, subs: nat, outstanding: set<nat>,
    open: Option<nat>, requests: seq<nat>, completions: seq<Completion>, superseded: set<nat>, answered: seq<nat>,
    panicked: bool)

  /** A submission that the bus takes or not. */
  function Submitted(v: Device, accepted: bool): Device {
    v.(subs := v.subs + 1, outstanding := if accepted then v.outstanding + {v.subs + 1} else v.outstanding,
       bus := v.bus + [Sent(v.command, v.protocol, v.sendData)])
  }

  /** A transaction set up. */
  function Prepared(v: Device, q: Request, who: nat): Device {
    v.(opType := q.opType, command := if Malformed(q) then q.command
        else OnTheWire(q).0, protocol := OnTheWire(q).1, sendData := OnTheWire(q).2, discharged := q.discharged,
       client := who, retry := 0)
  }

  /** A well-formed request goes to the bus in place of the one in flight. */
  function TakenOver(v: Device, who: nat, accepted: bool): Device {
    Submitted(v, accepted).(
      requests := if accepted then v.requests + [who] else v.requests,
      open := if accepted then Some(|v.requests|) else None,
      superseded := if v.open.Some? then v.superseded + {v.open.value} else v.superseded)
  }

  /** A request: refused as a whole, refused after it took over the callback, or on the bus in place of the one
      in flight. */
  function AfterRequest(v: Device, q: Request, who: nat, allowed: IOReturn, accepted: bool): Device {
    if !allowed.Success? then v
    else if Malformed(q) then Prepared(v, q, who)
    else TakenOver(Prepared(v, q, who), who, accepted)
  }

  /** The client set up is called, which answers the request in flight. */
  function Called(v: Device, result: IOReturn, data: seq<Byte>): Device {
    v.(open := None, completions := v.completions + [Completion(v.client, result, data)],
       answered := if v.open.Some? then v.answered + [v.open.value] else v.answered)
  }

  /** Submitted again; if the bus does not take it, the client hears of an error. */
  function AfterResubmission(v: Device, again: bool): Device {
    var w := Submitted(v, again);
    if again then w else Called(w.(retry := 0), IOError, [])
  }

  /** A stage of a transaction ended well. */
  function AfterStage(v: Device, r: Reply, again: bool): Device
    requires WellFormed(r)
  {
    match v.opType
    case ExtendedReadWord => AfterResubmission(v.(opType := ReadWord, protocol := ProtocolReadWord), again)
    case OtherOp => v.(panicked := true)
    case WriteWord => Called(v, Success, [])
    case _ => Called(v, Success, r.data[..r.count])
  }

  /** The completion of the latest submission. */
  function AfterLatest(v: Device, r: Reply, allowed: IOReturn, again: bool): Device
    requires WellFormed(r)
  {
    if !allowed.Success? then Called(v, allowed, [])
    else if TriesAgain(v.command, v.discharged, v.retry, r) then
      AfterResubmission(v.(retry := if r.status.StatusOK? then 1 else v.retry + 1), again)
    else if !r.status.StatusOK? then Called(v.(retry := 0), IOError, r.data[..r.count])
    else AfterStage(v.(retry := 0), r, again)
  }

  /** The completion of submission `n`.  Only that of the latest one matters. */
  function AfterCompletion(v: Device, n: nat, r: Reply, allowed: IOReturn, again: bool): Device
    requires WellFormed(r)
  {
    var w := v.(outstanding := v.outstanding - {n});
    if n == v.subs then AfterLatest(w, r, allowed, again) else w
  }

  class Driver {
    var retry: nat
    var cmdCount: Word
    var opType: OpType
    var command: nat
    var protocol: Protocol
    var sendData: seq<Byte>
    var discharged: bool
    var client: nat
    /** Calls made to completion routines, in order. */
    var completions: seq<Completion>
    var panicked: bool

    /** The bus: submissions so far, what each carried, and those it accepted whose completion has not come yet. */
    var subs: nat
    var bus: seq<Sent>
    var outstanding: set<nat>
    /** Clients of the accepted requests, the one in flight, those given up for a later one, and which request
        each completion call answered. */
    ghost var requests: seq<nat>
    ghost var open: Option<nat>
    ghost var superseded: set<nat>
    ghost var answered: seq<nat>
    /** No malformed request was made since the one in flight was accepted. */
    ghost var intact: bool
    /** Submissions in the current stage and before it, for the request in flight. */
    ghost var stage: nat
    ghost var earlier: nat

    ghost function Now(): Device
      reads this
    {
      Device(opType, command, protocol, sendData, bus, discharged, client, retry, subs, outstanding, open, requests,
          completions, superseded,
          answered, panicked)
    }

    ghost predicate Valid()
      reads this
    {
      panicked || Alive()
    }

    ghost predicate Alive()
      reads this
    {
      && cmdCount == subs % TWO_32 && retry <= RETRY_ATTEMPTS
      && (forall n :: n in outstanding ==> n <= subs)
      && (open.Some? <==> subs in outstanding)
      && Accounted(|requests|, answered, superseded, open) && |answered| == |completions|
      && (open.Some? && intact ==> client == requests[open.value] && !opType.OtherOp? && Bounded())
    }

    /** How often the request in flight was submitted, unless its readings may be absurdly zero. */
    ghost predicate Bounded()
      reads `retry, `command, `discharged, `opType, `stage, `earlier
    {
      && (opType.ExtendedReadWord? ==> earlier == 0 && command == MANUFACTURER_ACCESS)
      && earlier <= RETRY_ATTEMPTS + 1 && (earlier > 0 ==> command == MANUFACTURER_ACCESS)
      && (!ZeroIsAbsurd(command, discharged) ==> stage == retry + 1)
    }

    constructor ()
      ensures Valid()
                && Now() == Device(OtherOp, 0, NoProtocol, [], [], false, 0, 0, 0, {}, None, [], [], {}, [], false)
    {
      retry, cmdCount, opType, command, protocol, sendData, discharged, client :=
          0, 0, OtherOp, 0, NoProtocol, [], false, 0;
      completions, panicked, bus := [], false, [];
      subs, outstanding, requests, open, superseded, answered, intact, stage, earlier :=
          0, {}, [], None, {}, [], true, 0, 0;
    }

    /** Microseconds to wait before trying again; 0 for no retry. */
    method RequiresRetryGetMicroSec(r: Reply) returns (delay: nat)
      requires WellFormed(r) && retry <= RETRY_ATTEMPTS
      modifies `retry
      ensures delay > 0 <==> AbsurdZero(command, discharged, r) || (NeedsRetry(r.status) && old(retry) < RETRY_ATTEMPTS)
      ensures delay > 0 ==> 1 <= retry <= RETRY_ATTEMPTS && delay == DELAYS[retry - 1]
      ensures delay > 0 ==> retry == if r.status.StatusOK? then 1 else old(retry) + 1
      ensures delay == 0 ==> retry == if r.status.OtherStatus? then old(retry) else 0
    {
      var again := false;
      if NeedsRetry(r.status) {
        again := true;
      } else if NonRecoverable(r.status) {
        retry := 0;
        return 0;
      }
      if r.status == StatusOK {
        if retry != 0 {
          retry := 0;
          again := false;
        }
        if (command == FULL_CHARGE_CAPACITY || command == DESIGN_CAPACITY
            || (command == REMAINING_CAPACITY && !discharged))
           && r.data[1] == 0 && r.data[0] == 0 {
          again := true;
        }
      }
      if again && RETRY_ATTEMPTS == retry {
        retry := 0;
        return 0;
      }
      if again && retry < RETRY_ATTEMPTS {
        delay := DELAYS[retry];
        retry := retry + 1;
      } else {
        delay := 0;
      }
    }

    /** Hand the transaction to the bus. */
    method Submit(accepted: bool)
      modifies `cmdCount, `subs, `outstanding, `bus
      requires cmdCount == subs % TWO_32 && forall n :: n in outstanding ==> n <= subs
      ensures subs == old(subs) + 1 && cmdCount == subs % TWO_32
      ensures outstanding == if accepted then old(outstanding) + {subs} else old(outstanding)
      ensures Now() == Submitted(old(Now()), accepted)
    {
      cmdCount := (cmdCount + 1) % TWO_32;
      subs := subs + 1;
      bus := bus + [Sent(command, protocol, sendData)];
      if accepted {
        outstanding := outstanding + {subs};
      }
    }

    /** Call the client's completion routine. */
    method Complete(result: IOReturn, data: seq<Byte>)
      requires open.Some? && Accounted(|requests|, answered, superseded, open)
      modifies `completions, `open, `answered
      ensures open.None? && completions == old(completions) + [Completion(client, result, data)]
      ensures Now() == Called(old(Now()), result, data)
      ensures Accounted(|requests|, answered, superseded, open) && answered == old(answered) + [old(open).value]
    {
      Answered(|requests|, answered, superseded, open.value);
      completions := completions + [Completion(client, result, data)];
      answered := answered + [open.value];
      open := None;
    }

    /** Set the transaction up.  A malformed request is refused only after the callback and the operation type
        of the request in flight were overwritten. */
    method Prepare(q: Request, who: nat) returns (ret: IOReturn)
      modifies `command, `opType, `protocol, `sendData, `discharged, `client, `retry
      ensures retry == 0 && client == who && opType == q.opType && discharged == q.discharged
      ensures command == if Malformed(q) then q.command else OnTheWire(q).0
      ensures Malformed(q) <==> !ret.Success?
      ensures ret in {Success, BadArgument, Invalid}
      ensures ret.Success? ==> command == OnTheWire(q).0
      ensures protocol == OnTheWire(q).1 && sendData == OnTheWire(q).2
    {
      command := q.command;
      opType := q.opType;
      protocol, sendData := NoProtocol, [];
      discharged := q.discharged;
      client := who;
      retry := 0;
      match q.opType {
        case ReadWord => protocol := ProtocolReadWord;
        case ExtendedReadWord =>
          protocol := ProtocolWriteWord;
          sendData := [q.command % 256, 0];
          if q.command == EXTENDED_PF_STATUS || q.command == EXTENDED_OPERATION_STATUS {
            command := MANUFACTURER_ACCESS;
          } else {
            return BadArgument;
          }
        case ReadBlock => protocol := ProtocolReadBlock;
        case WriteWord =>
          protocol := ProtocolWriteWord;
          sendData := [q.out.0, q.out.1];
        case OtherOp => return Invalid;
      }
      ret := Success;
    }

    /** The same, seen from outside. */
    method SetUp(q: Request, who: nat) returns (ret: IOReturn)
      modifies `command, `opType, `protocol, `sendData, `discharged, `client, `retry
      ensures retry == 0 && client == who && opType == q.opType && (Malformed(q) <==> !ret.Success?)
      ensures ret in {Success, BadArgument, Invalid}
      ensures ret.Success? ==> command == OnTheWire(q).0 && protocol == OnTheWire(q).1 && sendData == OnTheWire(q).2
      ensures ret.Success? && opType.ExtendedReadWord? ==> command == MANUFACTURER_ACCESS
      ensures Now() == Prepared(old(Now()), q, who)
    {
      ret := Prepare(q, who);
    }

    method TakeOver(who: nat, accepted: bool)
      requires cmdCount == subs % TWO_32 && retry == 0 && !opType.OtherOp? && client == who
      requires (forall n :: n in outstanding ==> n <= subs) && (open.Some? <==> subs in outstanding)
      requires Accounted(|requests|, answered, superseded, open) && |answered| == |completions|
      requires opType.ExtendedReadWord? ==> command == MANUFACTURER_ACCESS
      requires !panicked
      modifies `cmdCount, `subs, `outstanding, `bus, `requests, `open, `superseded, `intact, `stage, `earlier
      ensures Alive() && intact && Now() == TakenOver(old(Now()), who, accepted)
      ensures requests == if accepted then old(requests) + [who] else old(requests)
      ensures open == if accepted then Some(|old(requests)|) else None
      ensures superseded == if old(open).Some? then old(superseded) + {old(open).value} else old(superseded)
    {
      hide Alive, Accounted;
      Accept(who, accepted);
    }

    /** performTransaction.  `allowed` tells whether battery work is allowed now, `accepted` whether the bus takes
        the submission. */
    method PerformTransaction(q: Request, who: nat, allowed: IOReturn, accepted: bool) returns (ret: IOReturn)
      requires Valid() && !panicked
      modifies this
      ensures Valid() && !panicked && Now() == AfterRequest(old(Now()), q, who, allowed, accepted)
      ensures allowed != Success ==>
                ret == allowed && open == old(open) && client == old(client) && opType == old(opType)
                && intact == old(intact) && requests == old(requests)
      ensures allowed == Success && Malformed(q) ==>
                !ret.Success? && open == old(open) && requests == old(requests) && client == who
                    && (intact <==> old(intact) && open.None?)
      ensures allowed == Success && !Malformed(q) ==>
                && (ret.Success? <==> accepted) && intact
                && requests == (if accepted then old(requests) + [who] else old(requests))
                && open == (if accepted then Some(|old(requests)|) else None)
                && superseded == (if old(open).Some? then old(superseded) + {old(open).value} else old(superseded))
                && command == OnTheWire(q).0 && protocol == OnTheWire(q).1 && sendData == OnTheWire(q).2
    {
      hide Accounted, Prepared, TakenOver, OnTheWire;
      if allowed != Success { return allowed; }
      ret := SetUp(q, who);
      if ret != Success {
        intact := intact && open.None?;
        return;
      }
      TakeOver(who, accepted);
      ret := if accepted then Success else IOError;
    }

    /** The request in flight is given up. */
    method Supersede()
      requires Accounted(|requests|, answered, superseded, open)
      modifies `open, `superseded
      ensures open.None? && Accounted(|requests|, answered, superseded, open)
      ensures superseded == if old(open).Some? then old(superseded) + {old(open).value} else old(superseded)
    {
      GivenUp(|requests|, answered, superseded, open);
      if open.Some? {
        superseded := superseded + {open.value};
      }
      open := None;
    }

    /** A well-formed request goes to the bus and takes the place of the one in flight. */
    method Accept(who: nat, accepted: bool)
      requires cmdCount == subs % TWO_32 && retry == 0 && !opType.OtherOp? && client == who
      requires (forall n :: n in outstanding ==> n <= subs) && (open.Some? <==> subs in outstanding)
      requires Accounted(|requests|, answered, superseded, open) && |answered| == |completions|
      requires opType.ExtendedReadWord? ==> command == MANUFACTURER_ACCESS
      requires !panicked
      modifies `cmdCount, `subs, `outstanding, `bus, `requests, `open, `superseded, `intact, `stage, `earlier
      ensures Alive() && intact && subs == old(subs) + 1 && bus == old(bus) + [Sent(command, protocol, sendData)]
      ensures outstanding == if accepted then old(outstanding) + {subs} else old(outstanding)
      ensures requests == if accepted then old(requests) + [who] else old(requests)
      ensures open == if accepted then Some(|old(requests)|) else None
      ensures superseded == if old(open).Some? then old(superseded) + {old(open).value} else old(superseded)
    {
      hide Accounted, ZeroIsAbsurd;
      Supersede();
      Submit(accepted);
      intact, stage, earlier := true, 1, 0;
      if accepted {
        Register(who);
      }
    }

    /** One more accepted request. */
    method Register(who: nat)
      requires open.None? && Accounted(|requests|, answered, superseded, open)
      modifies `requests, `open
      ensures requests == old(requests) + [who] && open == Some(|old(requests)|)
      ensures Accounted(|requests|, answered, superseded, open)
    {
      TakenUp(|requests|, answered, superseded);
      requests := requests + [who];
      open := Some(|requests| - 1);
    }

    /** Submit the transaction again; if the bus does not take it, the client hears of an error. */
    method Resubmit(accepted: bool)
      requires ToSubmit()
      modifies `cmdCount, `subs, `outstanding, `bus, `completions, `open, `answered, `retry, `stage
      ensures Valid() && stage == old(stage) + 1 && subs == old(subs) + 1
                && Now() == AfterResubmission(old(Now()), accepted)
      ensures accepted ==>
                open == old(open) && completions == old(completions) && subs in outstanding && retry == old(retry)
      ensures !accepted ==>
                open.None? && completions == old(completions) + [Completion(client, IOError, [])]
                && answered == old(answered) + [old(open).value]
    {
      hide Accounted, Submitted;
      stage := stage + 1;
      Submit(accepted);
      if !accepted {
        retry := 0;
        Complete(IOError, []);
      }
    }
  
    /** What holds before the transaction is submitted again. */
    ghost predicate ToSubmit()
      reads this
    {
      && cmdCount == subs % TWO_32 && retry <= RETRY_ATTEMPTS && (forall n :: n in outstanding ==> n <= subs)
      && subs !in outstanding
      && open.Some? && Accounted(|requests|, answered, superseded, open) && |answered| == |completions| && !panicked
      && (intact ==> client == requests[open.value] && !opType.OtherOp? && earlier <= RETRY_ATTEMPTS + 1)
      && (intact ==>
           (opType.ExtendedReadWord? ==> earlier == 0 && command == MANUFACTURER_ACCESS)
           && (earlier > 0 ==> command == MANUFACTURER_ACCESS))
      && (intact && !ZeroIsAbsurd(command, discharged) ==> stage == retry)
    }

    /** What holds between the removal of the latest completion and what follows it. */
    ghost predicate Landed()
      reads this
    {
      && cmdCount == subs % TWO_32 && retry <= RETRY_ATTEMPTS && (forall n :: n in outstanding ==> n <= subs)
      && subs !in outstanding
      && open.Some? && Accounted(|requests|, answered, superseded, open) && |answered| == |completions| && !panicked
      && (intact ==> client == requests[open.value] && !opType.OtherOp? && earlier <= RETRY_ATTEMPTS + 1)
      && (intact ==>
           (opType.ExtendedReadWord? ==> earlier == 0 && command == MANUFACTURER_ACCESS && stage <= RETRY_ATTEMPTS + 1))
      && (intact ==> (earlier > 0 ==> command == MANUFACTURER_ACCESS))
    }

    /** The write of an extended read ended well, so the read follows. */
    method StartRead(again: bool)
      requires Landed() && opType.ExtendedReadWord?
      modifies this
      ensures Valid() && !panicked && subs == old(subs) + 1
                && Now() == AfterResubmission(old(Now()).(retry := 0, opType := ReadWord, protocol := ProtocolReadWord),
                     again)
      ensures requests == old(requests) && superseded == old(superseded) && intact == old(intact)
      ensures open.Some? ==>
                stage == 1 && earlier == old(stage) && opType.ReadWord? && protocol == ProtocolReadWord
                && command == old(command) && retry == 0
    {
      hide Accounted, AfterResubmission, Alive, ToSubmit;
      TurnToRead();
      Resubmit(again);
    }

    /** The same transaction, now to be read. */
    method TurnToRead()
      requires Landed() && opType.ExtendedReadWord?
      modifies `protocol, `retry, `opType, `earlier, `stage
      ensures ToSubmit() && protocol == ProtocolReadWord && earlier == old(stage) && stage == 0
      ensures Now() == old(Now()).(retry := 0, opType := ReadWord, protocol := ProtocolReadWord)
    {
      hide Accounted, ZeroIsAbsurd;
      protocol := ProtocolReadWord;
      retry := 0;
      opType := ReadWord;
      earlier, stage := stage, 0;
    }

    /** A stage of a transaction ended well. */
    method FinishStage(r: Reply, again: bool)
      requires Landed() && WellFormed(r) && retry == 0
      modifies this
      ensures Valid() && (panicked <==> old(opType).OtherOp?) && Now() == AfterStage(old(Now()), r, again)
      ensures requests == old(requests) && superseded == old(superseded) && intact == old(intact)
      ensures subs == if old(opType).ExtendedReadWord? then old(subs) + 1 else old(subs)
      ensures open.Some? && !panicked ==> old(opType).ExtendedReadWord?
      ensures open.Some? && !panicked ==>
                stage == 1 && earlier == old(stage) && opType.ReadWord? && protocol == ProtocolReadWord
                && command == old(command) && retry == 0
    {
      hide Accounted;
      match opType {
        case ReadWord =>
          retry := 0;
          Complete(Success, r.data[..r.count]);
        case ReadBlock =>
          retry := 0;
          Complete(Success, r.data[..r.count]);
        case ExtendedReadWord => StartRead(again);
        case WriteWord => Complete(Success, []);
        case OtherOp => panicked := true;
      }
    }

    /** The completion of the latest submission. */
    method Latest(r: Reply, allowed: IOReturn, again: bool)
      requires Landed() && WellFormed(r) && (intact ==> Bounded())
      modifies this
      ensures Valid() && requests == old(requests) && superseded == old(superseded) && intact == old(intact)
               
      ensures Now() == AfterLatest(old(Now()), r, allowed, again)
      ensures open.Some? && !panicked ==> subs == old(subs) + 1
      ensures open.Some? && allowed.Success? && AbsurdZero(old(command), old(discharged), r) ==>
                retry == 1 && stage == old(stage) + 1 && command == old(command) && discharged == old(discharged)
                    && opType == old(opType)
    {
      hide Accounted, AfterResubmission, AfterStage;
      if allowed != Success {
        Complete(allowed, []);
        return;
      }
      Judge(r, again);
    }

    /** The client hears of an error. */
    method Fail(r: Reply)
      requires Landed() && WellFormed(r)
      modifies `retry, `completions, `open, `answered
      ensures Valid() && open.None? && !panicked
      ensures Now() == Called(old(Now()).(retry := 0), IOError, r.data[..r.count])
    {
      hide Accounted;
      retry := 0;
      Complete(IOError, r.data[..r.count]);
    }

    /** Try again, or end the stage. */
    method Judge(r: Reply, again: bool)
      requires Landed() && WellFormed(r) && (intact ==> Bounded())
      modifies this
      ensures Valid() && requests == old(requests) && superseded == old(superseded) && intact == old(intact)
               
      ensures Now() == AfterLatest(old(Now()), r, Success, again)
      ensures open.Some? && !panicked ==> subs == old(subs) + 1
      ensures open.Some? && AbsurdZero(old(command), old(discharged), r) ==>
                retry == 1 && stage == old(stage) + 1 && command == old(command) && discharged == old(discharged)
                    && opType == old(opType)
    {
      hide Accounted, AfterResubmission, AfterStage, Alive;
      var delay := RequiresRetryGetMicroSec(r);
      if delay != 0 {
        Resubmit(again);
      } else if r.status != StatusOK {
        Fail(r);
      } else {
        FinishStage(r, again);
      }
    }

    /** smbusCompletion for submission `n`; `again` tells whether the bus takes a submission made now.  Completions
        of earlier submissions change nothing.  The one of the latest submission is answered, or submitted again. */
    method SmbusCompletion(ref: Word, r: Reply, allowed: IOReturn, again: bool, n: nat)
      requires Valid() && !panicked && WellFormed(r) && n in outstanding && ref == n % TWO_32 && subs < n + TWO_32
      modifies this
      ensures Now() == AfterCompletion(old(Now()), n, r, allowed, again)
      ensures Valid() && requests == old(requests) && superseded == old(superseded) && intact == old(intact)
               
      ensures n != old(subs) ==>
                completions == old(completions) && open == old(open) && !panicked && subs == old(subs)
                && client == old(client) && retry == old(retry)
      ensures n == old(subs) ==>
                old(open).Some?
                && (panicked <==> Panics(old(opType), old(command), old(discharged), old(retry), r, allowed))
      ensures n == old(subs) && old(intact) ==> !panicked
      ensures n == old(subs) && !panicked ==>
                Outcome(old(completions), old(open), old(client),
                    Verdict(old(opType), old(command), old(discharged), old(retry), r, allowed, again))
      ensures n == old(subs) && open.Some? && !panicked ==> subs == old(subs) + 1
      ensures n == old(subs) && open.Some? && allowed.Success? && AbsurdZero(old(command), old(discharged), r) ==>
                retry == 1 && stage == old(stage) + 1 && command == old(command) && discharged == old(discharged)
                    && opType == old(opType)
    {
      hide Accounted, Verdict, AbsurdZero, AfterLatest;
      SameRef(n, subs);
      ghost var v := Now();
      outstanding := outstanding - {n};
      if ref != cmdCount { return; }
      Latest(r, allowed, again);
      LatestMeans(v.(outstanding := v.outstanding - {n}), r, allowed, again);
    }

    /** The client was called with a verdict, or nothing happened and the request stays in flight. */
    ghost predicate Outcome(before: seq<Completion>, was: Option<nat>, who: nat, verdict: Option<(IOReturn, seq<Byte>)>)
      reads `completions, `open
    {
      if verdict.Some? then open.None? && completions == before + [Completion(who, verdict.value.0, verdict.value.1)]
      else open == was && completions == before
    }

    /** Outside the readings that may not be zero, a request is submitted at most six times a stage, and at most
        twelve times if it is an extended read. */
    lemma SubmissionsBounded()
      requires Valid() && !panicked && open.Some? && intact && !ZeroIsAbsurd(command, discharged)
      ensures stage <= 6 && earlier + stage <= 12
    {
    }
  }

  /** Try again because of the status or an absurd reading. */
  predicate TriesAgain(command: nat, discharged: bool, retry: nat, r: Reply)
    requires WellFormed(r)
  {
    AbsurdZero(command, discharged, r) || (NeedsRetry(r.status) && retry < RETRY_ATTEMPTS)
  }

  /** The completion of the latest submission panics, or calls the client with the verdict. */
  lemma LatestMeans(v: Device, r: Reply, allowed: IOReturn, again: bool)
    requires WellFormed(r) && !v.panicked
    ensures var w := AfterLatest(v, r, allowed, again);
              var verdict := Verdict(v.opType, v.command, v.discharged, v.retry, r, allowed, again);
            && (w.panicked <==> Panics(v.opType, v.command, v.discharged, v.retry, r, allowed))
            && (!w.panicked ==>
                  if verdict.Some? then w.open.None? && w.completions
                      == v.completions + [Completion(v.client, verdict.value.0, verdict.value.1)]
                  else w.open == v.open && w.completions == v.completions)
  {
  }

  function Failed(): (IOReturn, seq<Byte>) {
    (IOError, [])
  }

  /** What the client is told when the latest submission completes; None while the request stays in flight. */
  function Verdict(op: OpType, command: nat, discharged: bool, retry: nat, r: Reply, allowed: IOReturn,
                   again: bool): Option<(IOReturn, seq<Byte>)>
    requires WellFormed(r)
  {
    if !allowed.Success? then Some((allowed, []))
    else if TriesAgain(command, discharged, retry, r) || (r.status.StatusOK? && op.ExtendedReadWord?) then
      if again then None else Some(Failed())
    else if !r.status.StatusOK? then Some((IOError, r.data[..r.count]))
    else Some((Success, if op.WriteWord? then [] else r.data[..r.count]))
  }

  /** A completion that finds an operation type no request can have. */
  predicate Panics(op: OpType, command: nat, discharged: bool, retry: nat, r: Reply, allowed: IOReturn)
    requires WellFormed(r)
  {
    op.OtherOp? && allowed.Success? && r.status.StatusOK? && !AbsurdZero(command, discharged, r)
  }

  /** Reference numbers of submissions less than 2^32 apart tell them apart. */
  lemma SameRef(n: nat, subs: nat)
    requires n <= subs < n + TWO_32
    ensures n % TWO_32 == subs % TWO_32 <==> n == subs
  {
    if n % TWO_32 == subs % TWO_32 {
      var q := subs / TWO_32 - n / TWO_32;
      assert subs - n == TWO_32 * q;
    }
  }

  datatype Event = Asked(q: Request, who: nat, allowed: IOReturn, accepted: bool) | Delivered(n: nat, r: Reply,
                         allowed: IOReturn, again: bool)

  /** The device after one event.  The bus completes only what is outstanding. */
  function Next(v: Device, ev: Event): Device
    requires ev.Delivered? ==> WellFormed(ev.r)
  {
    if v.panicked then v
    else match ev
         case Asked(q, who, allowed, accepted) => AfterRequest(v, q, who, allowed, accepted)
         case Delivered(n, r, allowed, again) =>
           if n in v.outstanding && v.subs < n + TWO_32 then AfterCompletion(v, n, r, allowed, again) else v
  }

  function DeviceOf(events: seq<Event>): Device
    requires Plausible(events)
  {
    if events == [] then Device(OtherOp, 0, NoProtocol, [], [], false, 0, 0, 0, {}, None, [], [], {}, [], false)
    else Next(DeviceOf(events[..|events| - 1]), events[|events| - 1])
  }

  // ---- which client an answer reaches --------------------------------------------------

  /** The request that set the driver up: the last one made while work was allowed, well-formed or not. */
  function LastAllowed(events: seq<Event>): Option<Event>
    ensures LastAllowed(events).Some? ==> LastAllowed(events).value.Asked?
  {
    if events == [] then None
    else
      var ev := events[|events| - 1];
      if ev.Asked? && ev.allowed.Success? then Some(ev) else LastAllowed(events[..|events| - 1])
  }

  predicate Plausible(events: seq<Event>) {
    forall i :: 0 <= i < |events| && events[i].Delivered? ==> WellFormed(events[i].r)
  }

  /** The event completes the latest submission and thereby ends the request in flight. */
  predicate Ends(v: Device, ev: Event)
    requires ev.Delivered? ==> WellFormed(ev.r)
  {
    && !v.panicked && ev.Delivered? && ev.n in v.outstanding && ev.n == v.subs
    && !Panics(v.opType, v.command, v.discharged, v.retry, ev.r, ev.allowed)
    && Verdict(v.opType, v.command, v.discharged, v.retry, ev.r, ev.allowed, ev.again).Some?
  }

  /** Every answer went to the client whose request it answered. */
  predicate RightClients(v: Device) {
    |v.answered| == |v.completions| &&
    forall n :: 0 <= n < |v.answered| ==>
      v.answered[n] < |v.requests| && v.completions[n].client == v.requests[v.answered[n]]
  }

  /** The last allowed request came from the client whose request event `i` ends. */
  predicate EndsForAsker(events: seq<Event>, i: nat)
    requires Plausible(events) && i < |events|
  {
    var v := DeviceOf(events[..i]);
    Ends(v, events[i]) ==>
      var last := LastAllowed(events[..i]);
      v.open.Some? && v.open.value < |v.requests| && last.Some? && last.value.who == v.requests[v.open.value]
  }

  /** What holds of every device: the client and the operation set up are those of the last allowed request. */
  predicate Plain(v: Device, last: Option<Event>)
    requires last.Some? ==> last.value.Asked?
  {
    && (v.open.Some? <==> v.subs in v.outstanding) && (forall n :: n in v.outstanding ==> n <= v.subs)
    && (v.open.Some? ==> v.open.value < |v.requests| && last.Some?)
    && |v.answered| == |v.completions| && (forall n :: 0 <= n < |v.answered| ==> v.answered[n] < |v.requests|)
    && (last.Some? ==> v.client == last.value.who && (v.opType.OtherOp? <==> last.value.q.opType.OtherOp?))
    && (last.Some? && last.value.q.opType.OtherOp? ==>
         v.command == last.value.q.command && v.discharged == last.value.q.discharged)
  }

  lemma PlainStep(v: Device, last: Option<Event>, ev: Event)
    requires (last.Some? ==> last.value.Asked?) && (ev.Delivered? ==> WellFormed(ev.r))
    requires !v.panicked && Plain(v, last)
    ensures var w := Next(v, ev);
            !w.panicked ==> Plain(w, if ev.Asked? && ev.allowed.Success? then Some(ev) else last)
  {
    hide AfterRequest, AfterLatest, Plain;
    if ev.Asked? {
      PlainRequest(v, last, ev);
    } else if ev.n in v.outstanding && v.subs < ev.n + TWO_32 {
      if ev.n == v.subs {
        PlainLatest(v, last, ev.r, ev.allowed, ev.again);
      } else {
        PlainCompletion(v, last, ev.n);
      }
    }
  }

  lemma PlainRequest(v: Device, last: Option<Event>, ev: Event)
    requires (last.Some? ==> last.value.Asked?) && ev.Asked? && !v.panicked && Plain(v, last)
    ensures Plain(AfterRequest(v, ev.q, ev.who, ev.allowed, ev.accepted), if ev.allowed.Success? then Some(ev)
              else last)
  {
    hide OnTheWire, Malformed;
    assert Malformed(ev.q) || !ev.q.opType.OtherOp? by { MalformedOther(ev.q); }
  }

  lemma MalformedOther(q: Request)
    ensures q.opType.OtherOp? ==> Malformed(q)
  {
  }

  lemma PlainCompletion(v: Device, last: Option<Event>, n: nat)
    requires (last.Some? ==> last.value.Asked?) && Plain(v, last) && n != v.subs
    ensures Plain(v.(outstanding := v.outstanding - {n}), last)
  {
  }

  lemma PlainLatest(v: Device, last: Option<Event>, r: Reply, allowed: IOReturn, again: bool)
    requires (last.Some? ==> last.value.Asked?) && WellFormed(r) && Plain(v, last) && v.subs in v.outstanding
    ensures var w := AfterLatest(v.(outstanding := v.outstanding - {v.subs}), r, allowed, again);
            !w.panicked ==> Plain(w, last)
  {
    hide TriesAgain, AfterStage, AfterResubmission, Plain;
    var w := v.(outstanding := v.outstanding - {v.subs});
    PlainAgain(v, last, w.(retry := if r.status.StatusOK? then 1 else v.retry + 1), again);
    PlainCalled(v, last, w, allowed, []);
    PlainCalled(v, last, w.(retry := 0), IOError, r.data[..r.count]);
    PlainStage(v, last, w.(retry := 0), r, again);
  }

  /** The device with the latest submission taken off the bus. */
  predicate Taken(v: Device, last: Option<Event>, w: Device)
    requires last.Some? ==> last.value.Asked?
  {
    && Plain(v, last) && v.subs in v.outstanding
    && w == v.(outstanding := v.outstanding - {v.subs}, retry := w.retry, opType := w.opType, protocol := w.protocol)
    && (w.opType.OtherOp? <==> v.opType.OtherOp?)
  }

  lemma PlainCalled(v: Device, last: Option<Event>, w: Device, result: IOReturn, data: seq<Byte>)
    requires (last.Some? ==> last.value.Asked?) && Taken(v, last, w)
    ensures Plain(Called(w, result, data), last)
  {
  }

  lemma PlainAgain(v: Device, last: Option<Event>, w: Device, again: bool)
    requires (last.Some? ==> last.value.Asked?) && Taken(v, last, w)
    ensures Plain(AfterResubmission(w, again), last)
  {
  }

  lemma PlainStage(v: Device, last: Option<Event>, w: Device, r: Reply, again: bool)
    requires (last.Some? ==> last.value.Asked?) && Taken(v, last, w) && WellFormed(r)
    ensures var x := AfterStage(w, r, again); !x.panicked ==> Plain(x, last)
  {
    hide AfterResubmission, Called, Plain;
    PlainCalled(v, last, w, Success, []);
    PlainCalled(v, last, w, Success, r.data[..r.count]);
    if w.opType.ExtendedReadWord? {
      PlainAgain(v, last, w.(opType := ReadWord, protocol := ProtocolReadWord), again);
    }
  }

  lemma {:induction false} PlainAlways(events: seq<Event>)
    requires Plausible(events)
    ensures var v := DeviceOf(events); !v.panicked ==> Plain(v, LastAllowed(events))
  {
    hide Next, Plain;
    if events == [] {
      NothingYet();
    } else {
      PlainAlways(events[..|events| - 1]);
      StaysPanicked(DeviceOf(events[..|events| - 1]), events[|events| - 1]);
      if !DeviceOf(events).panicked {
        PlainStep(DeviceOf(events[..|events| - 1]), LastAllowed(events[..|events| - 1]), events[|events| - 1]);
      }
    }
  }

  lemma NothingYet()
    ensures Plain(DeviceOf([]), None)
  {
  }

  lemma StaysPanicked(v: Device, ev: Event)
    requires ev.Delivered? ==> WellFormed(ev.r)
    ensures v.panicked ==> Next(v, ev) == v
  {
  }

  /** One event adds at most one answer, and only by ending the request in flight. */
  lemma OneAnswer(v: Device, last: Option<Event>, ev: Event)
    requires (last.Some? ==> last.value.Asked?) && (ev.Delivered? ==> WellFormed(ev.r))
    requires v.panicked || Plain(v, last)
    ensures var w := Next(v, ev);
            && v.requests <= w.requests
            && (if Ends(v, ev)
                then w.completions == v.completions + [w.completions[|v.completions|]]
                     && w.completions[|v.completions|].client == v.client
                     && v.open.Some? && w.answered == v.answered + [v.open.value]
                else w.completions == v.completions && w.answered == v.answered)
  {
    hide AfterRequest, AfterLatest, Panics, Verdict;
    if !v.panicked && ev.Asked? {
      RequestsOnly(v, ev);
    } else if !v.panicked && ev.n in v.outstanding && ev.n == v.subs {
      LatestAnswers(v.(outstanding := v.outstanding - {ev.n}), ev.r, ev.allowed, ev.again);
    }
  }

  lemma RequestsOnly(v: Device, ev: Event)
    requires ev.Asked?
    ensures var w := AfterRequest(v, ev.q, ev.who, ev.allowed, ev.accepted);
            v.requests <= w.requests && w.completions == v.completions && w.answered == v.answered
  {
    hide OnTheWire, Malformed;
  }

  lemma LatestAnswers(v: Device, r: Reply, allowed: IOReturn, again: bool)
    requires WellFormed(r) && !v.panicked && v.open.Some?
    ensures var w := AfterLatest(v, r, allowed, again);
            && w.requests == v.requests
            && (if !Panics(v.opType, v.command, v.discharged, v.retry, r, allowed)
                   && Verdict(v.opType, v.command, v.discharged, v.retry, r, allowed, again).Some?
                then w.completions == v.completions + [w.completions[|v.completions|]]
                     && w.completions[|v.completions|].client == v.client
                     && w.answered == v.answered + [v.open.value]
                else w.completions == v.completions && w.answered == v.answered)
  {
    hide AbsurdZero;
  }

  /** Whether the answers stay right is decided by the one that is added. */
  lemma RightStep(v: Device, last: Option<Event>, ev: Event)
    requires (last.Some? ==> last.value.Asked?) && (ev.Delivered? ==> WellFormed(ev.r))
    requires |v.answered| == |v.completions| && (forall n :: 0 <= n < |v.answered| ==> v.answered[n] < |v.requests|)
    requires v.panicked || Plain(v, last)
    ensures RightClients(Next(v, ev)) <==>
              RightClients(v) && (Ends(v, ev) ==> v.open.Some? && v.open.value < |v.requests| && last.Some?
                                                  && last.value.who == v.requests[v.open.value])
  {
    hide Ends, Next, Plain;
    OneAnswer(v, last, ev);
    EndsWhileOpen(v, last, ev);
    var w := Next(v, ev);
    assert forall n :: 0 <= n < |v.answered| ==>
        w.answered[n] == v.answered[n] && w.completions[n] == v.completions[n]
        && w.requests[w.answered[n]] == v.requests[v.answered[n]];
    if Ends(v, ev) {
      assert w.answered[|v.answered|] == v.open.value;
      assert w.requests[v.open.value] == v.requests[v.open.value];
    }
  }

  lemma {:induction false} AnswersKnown(events: seq<Event>)
    requires Plausible(events)
    ensures var v := DeviceOf(events);
            |v.answered| == |v.completions| && forall n :: 0 <= n < |v.answered| ==> v.answered[n] < |v.requests|
  {
    hide Next, Ends;
    if events != [] {
      var before, ev := events[..|events| - 1], events[|events| - 1];
      AnswersKnown(before);
      PlainAlways(before);
      OneAnswer(DeviceOf(before), LastAllowed(before), ev);
      EndsWhileOpen(DeviceOf(before), LastAllowed(before), ev);
    }
  }

  /** Every answer reaches the client that asked, exactly when each event that ends a request comes while the last
      allowed request is that client's. */
  lemma {:induction false} AnswersRight(events: seq<Event>)
    requires Plausible(events)
    ensures RightClients(DeviceOf(events)) <==> forall i :: 0 <= i < |events| ==> EndsForAsker(events, i)
  {
    hide Next, Ends, Plain, RightClients;
    if events == [] {
      NoAnswers();
    } else {
      var m := |events| - 1;
      var before, ev := events[..m], events[m];
      AnswersRight(before);
      AnswersKnown(before);
      PlainAlways(before);
      RightStep(DeviceOf(before), LastAllowed(before), ev);
      assert forall i :: 0 <= i < m ==> before[..i] == events[..i] && before[i] == events[i];
      assert forall i :: 0 <= i < m ==> (EndsForAsker(before, i) <==> EndsForAsker(events, i));
      EndsWhileOpen(DeviceOf(before), LastAllowed(before), ev);
      assert RightClients(DeviceOf(events)) <==> RightClients(DeviceOf(before)) && EndsForAsker(events, m);
    }
  }

  lemma NoAnswers()
    ensures RightClients(DeviceOf([]))
  {
  }

  lemma EndsWhileOpen(v: Device, last: Option<Event>, ev: Event)
    requires (last.Some? ==> last.value.Asked?) && (ev.Delivered? ==> WellFormed(ev.r))
    requires !v.panicked ==> Plain(v, last)
    ensures Ends(v, ev) ==>
              && v.open.Some? && v.open.value < |v.requests| && last.Some? && v.client == last.value.who
              && !v.panicked
  {
  }

  /** Event `i` completes the latest submission well while the last allowed request was of an unknown
      type and not about a reading that cannot be zero and is. */
  predicate Stumbles(events: seq<Event>, i: nat)
    requires Plausible(events) && i < |events|
  {
    var v, ev, last := DeviceOf(events[..i]), events[i], LastAllowed(events[..i]);
    && !v.panicked && ev.Delivered? && ev.n in v.outstanding && ev.n == v.subs
    && ev.allowed.Success? && ev.r.status.StatusOK? && last.Some? && last.value.q.opType.OtherOp?
    && !AbsurdZero(last.value.q.command, last.value.q.discharged, ev.r)
  }

  /** The driver panics exactly when that happens. */
  lemma {:induction false} PanicsWhen(events: seq<Event>)
    requires Plausible(events)
    ensures DeviceOf(events).panicked <==> exists i :: 0 <= i < |events| && Stumbles(events, i)
  {
    hide Next, Plain, AbsurdZero;
    if events != [] {
      var m := |events| - 1;
      var before, ev := events[..m], events[m];
      PanicsWhen(before);
      PlainAlways(before);
      PanicStep(DeviceOf(before), LastAllowed(before), ev);
      assert forall i :: 0 <= i < m ==> before[..i] == events[..i] && before[i] == events[i];
      assert forall i :: 0 <= i < m ==> (Stumbles(before, i) <==> Stumbles(events, i));
      assert DeviceOf(before).panicked || (Stumbles(events, m) <==> DeviceOf(events).panicked);
      assert Stumbles(events, m) ==> DeviceOf(events).panicked;
    }
  }

  lemma PanicStep(v: Device, last: Option<Event>, ev: Event)
    requires (last.Some? ==> last.value.Asked?) && (ev.Delivered? ==> WellFormed(ev.r))
    requires !v.panicked ==> Plain(v, last)
    ensures Next(v, ev).panicked <==>
              || v.panicked
              || (&& ev.Delivered? && ev.n in v.outstanding && ev.n == v.subs && ev.allowed.Success?
                  && ev.r.status.StatusOK? && last.Some? && last.value.q.opType.OtherOp?
                  && !AbsurdZero(last.value.q.command, last.value.q.discharged, ev.r))
  {
    hide AbsurdZero, OnTheWire, Malformed, ZeroIsAbsurd;
  }

  /** No malformed request is ever made while another one is in flight. */
  predicate NeverOverwritten(events: seq<Event>)
    requires Plausible(events)
  {
    forall i :: 0 <= i < |events| && events[i].Asked? && events[i].allowed.Success? && Malformed(events[i].q) ==>
      DeviceOf(events[..i]).open.None?
  }

  /** Then no answer goes astray, and the driver does not panic. */
  lemma OrderlyRun(events: seq<Event>)
    requires Plausible(events) && NeverOverwritten(events)
    ensures RightClients(DeviceOf(events)) && !DeviceOf(events).panicked
  {
    hide Ends, RightClients, AbsurdZero;
    forall i | 0 <= i < |events| ensures EndsForAsker(events, i) && !Stumbles(events, i) {
      assert Plausible(events[..i]) && NeverOverwritten(events[..i]) by {
        assert forall k :: 0 <= k < i ==> events[..i][..k] == events[..k] && events[..i][k] == events[k];
      }
      OrderlyBefore(events[..i]);
      PlainAlways(events[..i]);
      EndsWhileOpen(DeviceOf(events[..i]), LastAllowed(events[..i]), events[i]);
    }
    AnswersRight(events);
    PanicsWhen(events);
  }

  /** The last allowed request is the one in flight. */
  lemma {:induction false} OrderlyBefore(events: seq<Event>)
    requires Plausible(events) && NeverOverwritten(events)
    ensures var v, last := DeviceOf(events), LastAllowed(events);
            !v.panicked && v.open.Some? ==>
              && last.Some? && !last.value.q.opType.OtherOp?
              && v.open.value < |v.requests| && last.value.who == v.requests[v.open.value]
  {
    hide Next, Plain;
    if events != [] {
      var m := |events| - 1;
      var before, ev := events[..m], events[m];
      assert NeverOverwritten(before) by {
        assert forall k :: 0 <= k < m ==> before[..k] == events[..k] && before[k] == events[k];
      }
      OrderlyBefore(before);
      StaysPanicked(DeviceOf(before), ev);
      if !DeviceOf(before).panicked {
        OpenStep(DeviceOf(before), ev);
      }
    }
  }

  /** A request is in flight after an event because it was just made, or because it was before. */
  lemma OpenStep(v: Device, ev: Event)
    requires (ev.Delivered? ==> WellFormed(ev.r)) && !v.panicked
    ensures var w := Next(v, ev);
            && v.requests <= w.requests
            && (w.open.Some? ==>
                 if ev.Asked? && ev.allowed.Success? && !Malformed(ev.q)
                 then w.open.value == |v.requests| && w.requests == v.requests + [ev.who] && !ev.q.opType.OtherOp?
                 else w.open == v.open && v.open.Some?)
  {
    hide AbsurdZero, OnTheWire, ZeroIsAbsurd, NeedsRetry;
  }

  // ---- what goes on the bus ------------------------------------------------------------

  /** The latest submission carries the request, or, for an extended read whose write ended well, the read that follows
      the write. */
  predicate Carries(v: Device, q: Request) {
    && v.bus != [] && v.bus[|v.bus| - 1] == Sent(v.command, v.protocol, v.sendData)
    && v.sendData == OnTheWire(q).2
    && if q.opType.ExtendedReadWord? && v.opType.ReadWord?
       then v.command == MANUFACTURER_ACCESS && v.protocol == ProtocolReadWord
       else v.opType == q.opType && v.command == OnTheWire(q).0 && v.protocol == OnTheWire(q).1
  }

  lemma CarriesStart(v: Device, ev: Event)
    requires !v.panicked && ev.Asked? && ev.allowed.Success? && !Malformed(ev.q)
    ensures Carries(Next(v, ev), ev.q)
  {
  }

  lemma CarriesStep(v: Device, q: Request, ev: Event)
    requires (ev.Delivered? ==> WellFormed(ev.r)) && !v.panicked && v.open.Some? && Carries(v, q)
    requires ev.Asked? ==> !ev.allowed.Success?
    ensures var w := Next(v, ev); !w.panicked && w.open.Some? ==> Carries(w, q)
  {
    hide AbsurdZero, ZeroIsAbsurd, NeedsRetry, Malformed;
  }

  /** Unless it was overwritten, the request in flight is what the bus was given last, retries and second stages
      included. */
  lemma {:induction false} WireThroughout(events: seq<Event>)
    requires Plausible(events) && NeverOverwritten(events)
    ensures var v, last := DeviceOf(events), LastAllowed(events);
            !v.panicked && v.open.Some? ==> last.Some? && !Malformed(last.value.q) && Carries(v, last.value.q)
  {
    hide Next, Carries, Malformed;
    if events != [] {
      var m := |events| - 1;
      var before, ev := events[..m], events[m];
      assert NeverOverwritten(before) by {
        assert forall k :: 0 <= k < m ==> before[..k] == events[..k] && before[k] == events[k];
      }
      WireThroughout(before);
      StaysPanicked(DeviceOf(before), ev);
      if !DeviceOf(before).panicked {
        OpenStep(DeviceOf(before), ev);
        if ev.Asked? && ev.allowed.Success? {
          if !Malformed(ev.q) {
            CarriesStart(DeviceOf(before), ev);
          }
        } else if DeviceOf(before).open.Some? {
          CarriesStep(DeviceOf(before), LastAllowed(before).value.q, ev);
        }
      }
    }
  }

  /** A retry after the request in flight was overwritten submits what overwrote it: client 1 reads a word, client 2's
      extended read is refused, and the bus, busy at first, is then given client 2's write. */
  lemma RetryCarriesOther(command: nat, data: seq<Byte>)
    requires |data| == 32 && command != 0x99
    ensures var refused := Request(ExtendedReadWord, 0x99, true, (0, 0));
            DeviceOf(Overwriting(command, refused, Reply(StatusBusy, 0, data))).bus
              == [Sent(command, ProtocolReadWord, []), Sent(0x99, ProtocolWriteWord, [0x99, 0])]
  {
    var refused := Request(ExtendedReadWord, 0x99, true, (0, 0));
    OverwritingSteps(command, refused, Reply(StatusBusy, 0, data));
  }

  // ---- runs that go wrong --------------------------------------------------------------

  /** Client 1 reads a word; while that is in flight, client 2 makes a request that is refused. */
  function Overwriting(command: nat, refused: Request, r: Reply): seq<Event> {
    [Asked(Request(ReadWord, command, true, (0, 0)), 1, Success, true), Asked(refused, 2, Success, true),
     Delivered(1, r, Success, true)]
  }

  lemma OverwritingSteps(command: nat, refused: Request, r: Reply)
    requires Malformed(refused) && WellFormed(r)
    ensures var evs := Overwriting(command, refused, r);
            && Plausible(evs)
            && DeviceOf(evs) == Next(AfterRequest(AfterRequest(DeviceOf([]), evs[0].q, 1, Success, true), refused, 2,
                                                  Success, true), evs[2])
  {
    hide Next, AfterRequest;
    var evs := Overwriting(command, refused, r);
    assert evs[..2][..1] == evs[..1] && evs[..1][..0] == [];
    assert DeviceOf(evs[..1]) == Next(DeviceOf([]), evs[0]);
    assert DeviceOf(evs[..2]) == Next(DeviceOf(evs[..1]), evs[1]);
    AskedNext(DeviceOf([]), evs[0]);
    AskedNext(DeviceOf(evs[..1]), evs[1]);
  }

  lemma AskedNext(v: Device, ev: Event)
    requires ev.Asked? && !v.panicked
    ensures var w := Next(v, ev); w == AfterRequest(v, ev.q, ev.who, ev.allowed, ev.accepted) && !w.panicked
  {
    hide OnTheWire, Malformed;
  }

  /** The error that client 1's reading ends with is told to client 2, whose own request was refused. */
  lemma AnswerGoesAstray(command: nat, data: seq<Byte>, discharged: bool)
    requires |data| == 32
    ensures var refused := Request(ExtendedReadWord, 0x99, discharged, (0, 0));
            var v := DeviceOf(Overwriting(command, refused, Reply(PECError, 0, data)));
            && v.requests == [1] && v.answered == [0] && v.completions == [Completion(2, IOError, [])]
            && !v.panicked && !RightClients(v)
  {
    var refused := Request(ExtendedReadWord, 0x99, discharged, (0, 0));
    OverwritingSteps(command, refused, Reply(PECError, 0, data));
    assert DeviceOf(Overwriting(command, refused, Reply(PECError, 0, data))).answered[0] == 0;
  }

  /** A refused request of an unknown type, and the reading that then ends well panics the driver. */
  lemma DriverPanics(data: seq<Byte>, command: nat)
    requires |data| == 32
    ensures DeviceOf(Overwriting(command, Request(OtherOp, command, true, (0, 0)),
              Reply(StatusOK, 2, data[0 := 1]))).panicked
  {
    OverwritingSteps(command, Request(OtherOp, command, true, (0, 0)), Reply(StatusOK, 2, data[0 := 1]));
  }

  method Perform(d: Driver, ev: Event)
    requires d.Valid() && (ev.Delivered? ==> WellFormed(ev.r))
    modifies d
    ensures d.Valid() && d.Now() == Next(old(d.Now()), ev)
  {
    hide Accounted, Verdict, AfterRequest, AfterCompletion, Panics;
    if !d.panicked {
      match ev {
        case Asked(q, who, allowed, accepted) => var _ := d.PerformTransaction(q, who, allowed, accepted);
        case Delivered(n, r, allowed, again) =>
          if n in d.outstanding && d.subs < n + TWO_32 {
            d.SmbusCompletion(n % TWO_32, r, allowed, again, n);
          }
      }
    }
  }

  /** Any run, the bus completing its submissions in any order and as late as it likes: requests, submissions and
      completions are what the events make them; each accepted request is answered once, given up for a later
      one, or still in flight, and while it is the bus owes its completion.  Every answer goes to the client that
      asked exactly when each one is given while the last allowed request is that client's, and the driver panics
      exactly when a reading ends well after an allowed request of an unknown type. */
  method Run(events: seq<Event>) returns (d: Driver)
    requires Plausible(events)
    ensures d.Valid() && d.Now() == DeviceOf(events)
    ensures !d.panicked ==>
              && Accounted(|d.requests|, d.answered, d.superseded, d.open)
              && (d.open.Some? <==> d.subs in d.outstanding)
    ensures RightClients(d.Now()) <==> forall i :: 0 <= i < |events| ==> EndsForAsker(events, i)
    ensures d.panicked <==> exists i :: 0 <= i < |events| && Stumbles(events, i)
    ensures NeverOverwritten(events) ==> RightClients(d.Now()) && !d.panicked
  {
    hide Accounted, RightClients, Next, EndsForAsker, Stumbles, NeverOverwritten;
    d := new Driver();
    assert events[..0] == [];
    for i := 0 to |events|
      invariant fresh(d) && d.Valid() && d.Now() == DeviceOf(events[..i])
    {
      assert events[..i + 1][..i] == events[..i] && events[..i + 1][i] == events[i];
      Perform(d, events[i]);
    }
    assert events[..|events|] == events;
    AnswersRight(events);
    PanicsWhen(events);
    if NeverOverwritten(events) {
      OrderlyRun(events);
    }
  }

  /** Full-charge, design and remaining capacity: as long as the battery answers zero the driver reads again.
      After any number of such answers the client has not been called, so no bound on the submissions holds. */
  method ReadForever(d: Driver, n: nat)
    requires d.Valid() && !d.panicked && d.open.Some? && d.intact && ZeroIsAbsurd(d.command, d.discharged)
    modifies d
    ensures d.Valid() && !d.panicked && d.open == old(d.open) && d.completions == old(d.completions)
              && d.stage == old(d.stage) + n
  {
    hide Accounted;
    var zero := Reply(StatusOK, 2, seq(32, _ => 0));
    for i := 0 to n
      invariant d.Valid() && !d.panicked && d.open == old(d.open) && d.intact && ZeroIsAbsurd(d.command, d.discharged)
      invariant d.completions == old(d.completions) && d.stage == old(d.stage) + i
    {
      d.SmbusCompletion(d.subs % TWO_32, zero, Success, true, d.subs);
    }
  }
}
