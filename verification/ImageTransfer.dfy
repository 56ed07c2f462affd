/**
 The gas-gauge image transfer of AppleSmartBatteryManager/AppleGasGaugeUpdate.cpp: 32-byte frames through
 two SMC keys, each acknowledged by a notification and followed by polling until the updater is ready.

 Operation codes and updater states come from a header that is not part of this model; they are
 parameters that only have to differ where the code tells them apart.
 */
module ImageTransfer {
  import opened Common

  const FRAME: nat := 32

  type Byte = b: nat | b < 256

  datatype Codes = Codes(busy: nat, ready: nat, success: nat, reset: nat, getStatus: nat, startImage: nat,
                         setImageData: nat, setDone: nat,
                         firmware: Byte, configuration: Byte, dnvd: Byte)

  ghost predicate Distinct(c: Codes) {
    && c.busy !in {c.ready, c.success, c.reset}
    && c.getStatus !in {c.startImage, c.setImageData, c.setDone}
  }

  /** A notification from the controller. */
  datatype Note = Note(op: nat, i2c: nat, updater: nat)

  /** The notification reports the operation and no error. */
  predicate Acknowledges(c: Codes, n: Note, op: nat) {
    n.op == op && n.i2c == 0 && !(n.updater > c.ready && n.updater != c.success)
  }

  /** What passes between the driver and the controller, in order. */
  datatype Event = DataKey(bytes: seq<Byte>) | CommandKey(op: nat) | Notified(note: Note) | StatusRead(status: nat)

  /** What the controller answers to one access: whether a write or read succeeds, what a wait brings and whether
      it ends before its deadline, what a read returns. */
  datatype Answer = Answer(ok: bool, notes: seq<Note>, awakened: bool, status: nat)

  datatype IOReturn = Success | IOError | Timeout | InternalError | BadArgument

  datatype ImageType = Firmware | Configuration | Dnvd

  // ---- frames --------------------------------------------------------------------------

  function Zeros(n: nat): (r: seq<Byte>)
    ensures |r| == n && forall i :: 0 <= i < n ==> r[i] == 0
  {
    seq(n, _ => 0)
  }

  function Min(a: nat, b: nat): nat {
    if a < b then a else b
  }

  /** Number of frames an image takes. */
  function Blocks(length: nat): nat {
    (length + 31) / 32
  }

  /** Frame `k` of an image, padded with zeros. */
  function FrameAt(data: seq<Byte>, k: nat): (r: seq<Byte>)
    requires k < Blocks(|data|)
    ensures |r| == FRAME
  {
    var from := k * FRAME;
    var to := Min(from + FRAME, |data|);
    data[from..to] + Zeros(FRAME - (to - from))
  }

  function Join(frames: seq<seq<Byte>>): seq<Byte> {
    if frames == [] then [] else Join(frames[..|frames| - 1]) + frames[|frames| - 1]
  }

  ghost function FramesOf(data: seq<Byte>, n: nat): (r: seq<seq<Byte>>)
    requires n <= Blocks(|data|)
    ensures |r| == n && forall k :: 0 <= k < n ==> r[k] == FrameAt(data, k)
  {
    seq(n, k requires 0 <= k < n => FrameAt(data, k))
  }

  /** The frames of an image, one after the other, are the image padded with zeros to a multiple of 32. */
  lemma {:induction false} FramesJoin(data: seq<Byte>, n: nat)
    requires n <= Blocks(|data|)
    ensures Join(FramesOf(data, n)) == if n * FRAME <= |data| then data[..n * FRAME]
              else data + Zeros(n * FRAME - |data|)
  {
    hide FrameAt;
    if n > 0 {
      FramesJoin(data, n - 1);
      assert FramesOf(data, n)[..n - 1] == FramesOf(data, n - 1);
      FrameAppends(data, n - 1);
    }
  }

  lemma FrameAppends(data: seq<Byte>, n: nat)
    requires n < Blocks(|data|)
    ensures n * FRAME < |data|
    ensures data[..n * FRAME] + FrameAt(data, n)
              == if (n + 1) * FRAME <= |data| then data[..(n + 1) * FRAME] else data + Zeros((n + 1) * FRAME - |data|)
  {
    var from := n * FRAME;
    if from + FRAME <= |data| {
      assert FrameAt(data, n) == data[from..from + FRAME];
      assert data[..from] + data[from..from + FRAME] == data[..from + FRAME];
    } else {
      assert data[..from] + data[from..] == data;
    }
  }

  lemma WholeImage(data: seq<Byte>)
    ensures var n := Blocks(|data|);
            && n * FRAME >= |data| && n * FRAME < |data| + FRAME
            && Join(FramesOf(data, n)) == data + Zeros(n * FRAME - |data|)
  {
    var n := Blocks(|data|);
    FramesJoin(data, n);
    if n * FRAME == |data| {
      assert data[..n * FRAME] == data;
      assert data + Zeros(0) == data;
    }
  }

  /** The block count is announced in 16 bits: it is the number of frames exactly for images below 65536 blocks. */
  lemma AnnouncedCount(length: nat)
    ensures Blocks(length) % 0x1_0000 == Blocks(length) <==> Blocks(length) < 0x1_0000
  {
  }

  // ---- exchanges -----------------------------------------------------------------------

  /** A frame, its command, the notifications received while waiting for it, and the polling that followed. */
  datatype Exchange = Exchange(frame: seq<Byte>, op: nat, notes: seq<Note>, poll: seq<Event>)

  ghost function NoteEvents(notes: seq<Note>): (r: seq<Event>)
    ensures |r| == |notes| && forall i :: 0 <= i < |notes| ==> r[i] == Notified(notes[i])
  {
    seq(|notes|, i requires 0 <= i < |notes| => Notified(notes[i]))
  }

  ghost function EventsOf(x: Exchange): seq<Event> {
    [DataKey(x.frame), CommandKey(x.op)] + NoteEvents(x.notes) + x.poll
  }

  ghost function AllEvents(xs: seq<Exchange>): seq<Event> {
    if xs == [] then [] else AllEvents(xs[..|xs| - 1]) + EventsOf(xs[|xs| - 1])
  }

  /** The data that went out with some exchanges. */
  ghost function Frames(xs: seq<Exchange>): (r: seq<seq<Byte>>)
    ensures |r| == |xs| && forall k :: 0 <= k < |xs| ==> r[k] == xs[k].frame
  {
    seq(|xs|, k requires 0 <= k < |xs| => xs[k].frame)
  }

  lemma AllFrames(xs: seq<Exchange>, data: seq<Byte>)
    requires |xs| == Blocks(|data|) && forall k :: 0 <= k < |xs| ==> xs[k].frame == FrameAt(data, k)
    ensures |xs| * FRAME >= |data| && Join(Frames(xs)) == data + Zeros(|xs| * FRAME - |data|)
  {
    WholeImage(data);
    assert Frames(xs) == FramesOf(data, |xs|);
  }

  lemma AllEventsSnoc(xs: seq<Exchange>, x: Exchange)
    ensures AllEvents(xs + [x]) == AllEvents(xs) + EventsOf(x)
  {
    assert (xs + [x])[..|xs|] == xs;
  }

  function Commands(s: seq<Event>): nat {
    if s == [] then 0 else Commands(s[..|s| - 1]) + if s[|s| - 1].CommandKey? then 1 else 0
  }

  lemma {:induction false} CommandsOfNotes(s: seq<Event>, notes: seq<Note>)
    ensures Commands(s + NoteEvents(notes)) == Commands(s)
    decreases |notes|
  {
    var t := s + NoteEvents(notes);
    if notes == [] {
      assert t == s;
    } else {
      var fewer := notes[..|notes| - 1];
      CommandsOfNotes(s, fewer);
      assert t[..|t| - 1] == s + NoteEvents(fewer);
    }
  }

  lemma CommandsSnoc(s: seq<Event>, e: Event)
    ensures Commands(s + [e]) == Commands(s) + if e.CommandKey? then 1 else 0
  {
    assert (s + [e])[..|s|] == s;
  }

  /** Polling only asks for the status. */
  ghost predicate OnlyPolls(c: Codes, s: seq<Event>) {
    forall i :: 0 <= i < |s| ==> !s[i].DataKey? && (s[i].CommandKey? ==> s[i].op == c.getStatus)
  }

  /** Polling alone, in which every state read is busy but the last, if that ends it. */
  ghost predicate BusyUntil(c: Codes, s: seq<Event>, status: nat) {
    && OnlyPolls(c, s)
    && forall i :: 0 <= i < |s| && s[i].StatusRead? ==>
         s[i].status == c.busy || (s[i].status == status && i == |s| - 1)
  }

  lemma BusyAtFirst(c: Codes)
    ensures BusyUntil(c, [], c.busy)
  {
  }

  lemma BusyJoin(c: Codes, a: seq<Event>, b: seq<Event>, status: nat)
    requires BusyUntil(c, a, c.busy) && OnlyPolls(c, b)
    requires forall i :: 0 <= i < |b| && b[i].StatusRead? ==> b[i].status == status && i == |b| - 1
    ensures BusyUntil(c, a + b, status)
  {
  }

  lemma BusyBefore(c: Codes, s: seq<Event>, status: nat)
    requires BusyUntil(c, s, status)
    ensures OnlyPolls(c, s) && forall i :: 0 <= i < |s| - 1 && s[i].StatusRead? ==> s[i].status == c.busy
  {
  }

  /** The frame was acknowledged under its own operation by a notification received after its command, and the
      polling, of at most `limit` commands, ended with the expected state. */
  ghost predicate Good(c: Codes, x: Exchange, expected: nat, limit: nat) {
    && x.notes != [] && Acknowledges(c, x.notes[|x.notes| - 1], x.op)
    && OnlyPolls(c, x.poll) && Commands(x.poll) <= limit
    && x.poll != [] && x.poll[|x.poll| - 1] == StatusRead(expected)
  }

  // ---- what the answers lead to --------------------------------------------------------

  /** How a stretch of the protocol ends: its result, the state read last, the next access, the latest notification. */
  datatype Outcome = Outcome(ret: IOReturn, status: nat, step: nat, received: Note)

  function Latest(received: Note, notes: seq<Note>): Note {
    if notes == [] then received else notes[|notes| - 1]
  }

  /** A wait that began at access `n` was ended by a notification for the status command. */
  predicate Heard(c: Codes, w: nat -> Answer, n: nat, received: Note) {
    w(n).awakened && Acknowledges(c, Latest(received, w(n).notes), c.getStatus)
  }

  /** Polling from access `n` on, with `left` commands to go: the first state read that is not busy ends it, an
      access that fails too, and a round without a notification for the command reads nothing. */
  ghost function PollFrom(c: Codes, w: nat -> Answer, n: nat, received: Note, left: nat): Outcome
    decreases left
  {
    var heard := Latest(received, w(n + 1).notes);
    if left == 0 then Outcome(Success, c.busy, n, received)
    else if !w(n).ok then Outcome(IOError, c.busy, n + 1, received)
    else if !Heard(c, w, n + 1, received) then PollFrom(c, w, n + 2, heard, left - 1)
    else if !w(n + 2).ok then Outcome(IOError, c.busy, n + 3, heard)
    else if w(n + 2).status != c.busy then Outcome(Success, w(n + 2).status, n + 3, heard)
    else PollFrom(c, w, n + 3, heard, left - 1)
  }

  /** A frame and its command from access `n` on, and the polling after them. */
  ghost function ExchangeFrom(c: Codes, w: nat -> Answer, n: nat, received: Note, p: Phase): Outcome {
    var heard := Latest(received, w(n + 2).notes);
    if !w(n).ok then Outcome(IOError, c.busy, n + 1, received)
    else if !w(n + 1).ok then Outcome(IOError, c.busy, n + 2, received)
    else if !Acknowledges(c, heard, p.op) then Outcome(IOError, c.busy, n + 3, heard)
    else
      var o := PollFrom(c, w, n + 3, heard, p.polls);
      if o.ret.Success? && o.status != p.expected then o.(ret := Timeout) else o
  }

  /** What an exchange is about: its operation, the state to wait for, and how many polls that may take. */
  datatype Phase = Phase(op: nat, expected: nat, polls: nat)

  /** Exchanges one after the other, up to the first that does not succeed. */
  ghost function PhasesFrom(c: Codes, w: nat -> Answer, n: nat, received: Note, ps: seq<Phase>): Outcome
    decreases |ps|
  {
    if ps == [] then Outcome(Success, c.ready, n, received)
    else
      var o := ExchangeFrom(c, w, n, received, ps[0]);
      if o.ret.Success? then PhasesFrom(c, w, o.step, o.received, ps[1..]) else o
  }

  /** The frames of an image. */
  ghost function FramePhases(c: Codes, count: nat): (r: seq<Phase>)
    ensures |r| == count
  {
    seq(count, _ => Phase(c.setImageData, c.ready, 12))
  }

  /** A whole image: the start, its frames, the block count. */
  ghost function ImagePhases(c: Codes, t: ImageType, twoStage: bool, count: nat): (r: seq<Phase>)
    ensures |r| == count + 2
  {
    [Phase(c.startImage, c.ready, if t.Firmware? then 4 else 16)] + FramePhases(c, count)
    + [match t
       case Dnvd => Phase(c.setDone, if twoStage then c.ready else c.success, 4)
       case Configuration => Phase(c.setDone, if twoStage then c.ready else c.reset, 16)
       case Firmware => Phase(c.setDone, if twoStage then c.ready else c.reset, 18)]
  }

  lemma {:induction false} PhasesJoin(c: Codes, w: nat -> Answer, n: nat, received: Note, ps: seq<Phase>,
                                      qs: seq<Phase>)
    ensures var o := PhasesFrom(c, w, n, received, ps);
            PhasesFrom(c, w, n, received, ps + qs)
              == if o.ret.Success? then (if qs == [] then o else PhasesFrom(c, w, o.step, o.received, qs)) else o
    decreases |ps|
  {
    if ps == [] {
      assert ps + qs == qs;
      if qs == [] {
        assert ps + qs == [];
      }
    } else {
      assert (ps + qs)[0] == ps[0] && (ps + qs)[1..] == ps[1..] + qs;
      var o := ExchangeFrom(c, w, n, received, ps[0]);
      if o.ret.Success? {
        PhasesJoin(c, w, o.step, o.received, ps[1..], qs);
      }
    }
  }

  /** A whole image from access `n` on: the state is asked for first. */
  ghost function ImageFrom(c: Codes, w: nat -> Answer, n: nat, received: Note, ps: seq<Phase>): Outcome {
    var o := PollFrom(c, w, n, received, 6);
    if !o.ret.Success? then o
    else if o.status !in {c.ready, c.success, c.reset} then o.(ret := InternalError)
    else PhasesFrom(c, w, o.step, o.received, ps)
  }

  /** The three parts of an image, one after the other. */
  lemma ImagePhasesFrom(c: Codes, w: nat -> Answer, t: ImageType, twoStage: bool, count: nat)
    ensures var ps := ImagePhases(c, t, twoStage, count);
            forall n, received {:trigger PhasesFrom(c, w, n, received, ps)} ::
              var o := ExchangeFrom(c, w, n, received, ps[0]);
              var f := PhasesFrom(c, w, o.step, o.received, FramePhases(c, count));
              PhasesFrom(c, w, n, received, ps).ret
                == if !o.ret.Success? then o.ret else if !f.ret.Success? then f.ret
                   else ExchangeFrom(c, w, f.step, f.received, ps[count + 1]).ret
  {
    hide ExchangeFrom, FramePhases;
    var ps := ImagePhases(c, t, twoStage, count);
    forall n, received
      ensures var o := ExchangeFrom(c, w, n, received, ps[0]);
              var f := PhasesFrom(c, w, o.step, o.received, FramePhases(c, count));
              PhasesFrom(c, w, n, received, ps).ret
                == if !o.ret.Success? then o.ret else if !f.ret.Success? then f.ret
                   else ExchangeFrom(c, w, f.step, f.received, ps[count + 1]).ret
    {
      var o := ExchangeFrom(c, w, n, received, ps[0]);
      var last := [ps[count + 1]];
      assert ps[1..] == FramePhases(c, count) + last;
      PhasesJoin(c, w, o.step, o.received, FramePhases(c, count), last);
      var f := PhasesFrom(c, w, o.step, o.received, FramePhases(c, count));
      assert last[1..] == [];
    }
  }

  lemma FramePhasesStep(c: Codes, count: nat)
    requires count > 0
    ensures FramePhases(c, count)[0] == Phase(c.setImageData, c.ready, 12)
    ensures FramePhases(c, count)[1..] == FramePhases(c, count - 1)
  {
  }

  // ---- when a transfer succeeds --------------------------------------------------------

  /** Where a round of polling or an exchange begins: the next access and the latest notification. */
  datatype Place = Place(step: nat, received: Note)

  /** A round of polling brings nothing: no notification for the command, or the state is busy. */
  ghost predicate Idle(c: Codes, w: nat -> Answer, p: Place, q: Place) {
    && w(p.step).ok && q.received == Latest(p.received, w(p.step + 1).notes)
    && if Heard(c, w, p.step + 1, p.received)
       then w(p.step + 2).ok && w(p.step + 2).status == c.busy && q.step == p.step + 3
       else q.step == p.step + 2
  }

  /** A round of polling reads the state. */
  ghost predicate Reads(c: Codes, w: nat -> Answer, p: Place, status: nat, q: Place) {
    && w(p.step).ok && Heard(c, w, p.step + 1, p.received) && w(p.step + 2).ok && w(p.step + 2).status == status
    && q == Place(p.step + 3, Latest(p.received, w(p.step + 1).notes))
  }

  /** After some idle rounds, fewer than `left`, a round reads the state, which is not busy. */
  ghost predicate ReadsFirst(c: Codes, w: nat -> Answer, p: Place, left: nat, status: nat, q: Place,
                             rounds: seq<Place>)
  {
    && 0 < |rounds| <= left && rounds[0] == p && status != c.busy
    && (forall i :: 0 <= i < |rounds| - 1 ==> Idle(c, w, rounds[i], rounds[i + 1]))
    && Reads(c, w, rounds[|rounds| - 1], status, q)
  }

  /** Polling ends with a state other than busy if and only if that is the first one read, within the polls there
      are. */
  lemma {:induction false} PollReads(c: Codes, w: nat -> Answer, p: Place, left: nat, status: nat)
    requires status != c.busy
    ensures var o := PollFrom(c, w, p.step, p.received, left);
            o.ret.Success? && o.status == status <==>
              exists rounds :: ReadsFirst(c, w, p, left, status, Place(o.step, o.received), rounds)
    decreases left
  {
    hide ReadsFirst, Reads;
    var o := PollFrom(c, w, p.step, p.received, left);
    var q := Place(o.step, o.received);
    if left > 0 && w(p.step).ok {
      var next := Place(if Heard(c, w, p.step + 1, p.received) then p.step + 3 else p.step + 2,
                        Latest(p.received, w(p.step + 1).notes));
      if Idle(c, w, p, next) {
        var fewer := left - 1;
        PollReads(c, w, next, fewer, status);
        if rounds :| ReadsFirst(c, w, next, fewer, status, q, rounds) {
          MoreRounds(c, w, p, next, left, status, q, rounds);
        }
        if rounds :| ReadsFirst(c, w, p, left, status, q, rounds) {
          FewerRounds(c, w, p, next, left, status, q, rounds);
          var tail := rounds[1..];
          assert ReadsFirst(c, w, next, fewer, status, q, tail);
        }
      } else {
        LastRound(c, w, p, left, status);
      }
    } else {
      NoRound(c, w, p, left, status, q);
    }
  }

  /** A round that is not idle is the last one. */
  lemma LastRound(c: Codes, w: nat -> Answer, p: Place, left: nat, status: nat)
    requires status != c.busy && left > 0 && w(p.step).ok
    requires !Idle(c, w, p, Place(if Heard(c, w, p.step + 1, p.received) then p.step + 3 else p.step + 2,
                                  Latest(p.received, w(p.step + 1).notes)))
    ensures var o := PollFrom(c, w, p.step, p.received, left);
            o.ret.Success? && o.status == status <==>
              exists rounds :: ReadsFirst(c, w, p, left, status, Place(o.step, o.received), rounds)
  {
    var o := PollFrom(c, w, p.step, p.received, left);
    var q := Place(o.step, o.received);
    if o.ret.Success? && o.status == status {
      assert ReadsFirst(c, w, p, left, status, q, [p]);
    }
    if rounds :| ReadsFirst(c, w, p, left, status, q, rounds) {
      assert |rounds| == 1 || Idle(c, w, rounds[0], rounds[0 + 1]);
    }
  }

  lemma NoRound(c: Codes, w: nat -> Answer, p: Place, left: nat, status: nat, q: Place)
    requires left == 0 || !w(p.step).ok
    ensures !exists rounds :: ReadsFirst(c, w, p, left, status, q, rounds)
  {
    if rounds :| ReadsFirst(c, w, p, left, status, q, rounds) {
      assert |rounds| == 1 || Idle(c, w, rounds[0], rounds[0 + 1]);
    }
  }

  lemma MoreRounds(c: Codes, w: nat -> Answer, p: Place, next: Place, left: nat, status: nat, q: Place,
                   rounds: seq<Place>)
    requires left > 0 && Idle(c, w, p, next) && ReadsFirst(c, w, next, left - 1, status, q, rounds)
    ensures ReadsFirst(c, w, p, left, status, q, [p] + rounds)
  {
    hide Idle, Reads;
    var more := [p] + rounds;
    forall i | 0 <= i < |more| - 1 ensures Idle(c, w, more[i], more[i + 1]) {
      assert i > 0 ==> more[i] == rounds[i - 1] && more[i + 1] == rounds[i - 1 + 1];
    }
  }

  lemma FewerRounds(c: Codes, w: nat -> Answer, p: Place, next: Place, left: nat, status: nat, q: Place,
                    rounds: seq<Place>)
    requires Idle(c, w, p, next) && ReadsFirst(c, w, p, left, status, q, rounds)
    ensures left > 0 && |rounds| > 1 && ReadsFirst(c, w, next, left - 1, status, q, rounds[1..])
  {
    assert |rounds| > 1;
    assert Idle(c, w, rounds[0], rounds[0 + 1]);
    assert rounds[1] == next;
    hide Idle, Reads;
    var fewer := rounds[1..];
    forall i | 0 <= i < |fewer| - 1 ensures Idle(c, w, fewer[i], fewer[i + 1]) {
      assert fewer[i] == rounds[i + 1] && fewer[i + 1] == rounds[i + 1 + 1];
    }
  }

  /** An exchange goes well: both writes succeed, the operation is acknowledged, and the state to wait for is the
      first one read that is not busy, within its polls. */
  ghost predicate GoesWell(c: Codes, w: nat -> Answer, p: Place, x: Phase, q: Place) {
    && w(p.step).ok && w(p.step + 1).ok && Acknowledges(c, Latest(p.received, w(p.step + 2).notes), x.op)
    && var r := Place(p.step + 3, Latest(p.received, w(p.step + 2).notes));
       exists rounds :: ReadsFirst(c, w, r, x.polls, x.expected, q, rounds)
  }

  lemma ExchangeSucceeds(c: Codes, w: nat -> Answer, p: Place, x: Phase)
    requires x.expected != c.busy
    ensures var o := ExchangeFrom(c, w, p.step, p.received, x);
            o.ret.Success? <==> GoesWell(c, w, p, x, Place(o.step, o.received))
    ensures forall q :: GoesWell(c, w, p, x, q) ==>
              var o := ExchangeFrom(c, w, p.step, p.received, x); o.ret.Success? && q == Place(o.step, o.received)
  {
    hide ReadsFirst, PollFrom;
    var r := Place(p.step + 3, Latest(p.received, w(p.step + 2).notes));
    PollReads(c, w, r, x.polls, x.expected);
    forall q, rounds | ReadsFirst(c, w, r, x.polls, x.expected, q, rounds)
      ensures var o := PollFrom(c, w, r.step, r.received, x.polls);
              o.ret.Success? && o.status == x.expected && q == Place(o.step, o.received)
    {
      OnePlace(c, w, r, x.polls, x.expected, q, rounds);
    }
  }

  /** The rounds end in one place only. */
  lemma {:induction false} OnePlace(c: Codes, w: nat -> Answer, p: Place, left: nat, status: nat, q: Place,
                                    rounds: seq<Place>)
    requires ReadsFirst(c, w, p, left, status, q, rounds)
    ensures var o := PollFrom(c, w, p.step, p.received, left);
            o.ret.Success? && o.status == status && q == Place(o.step, o.received)
    decreases left
  {
    if |rounds| > 1 {
      assert Idle(c, w, rounds[0], rounds[0 + 1]);
      FewerRounds(c, w, p, rounds[1], left, status, q, rounds);
      OnePlace(c, w, rounds[1], left - 1, status, q, rounds[1..]);
    }
  }

  /** Every exchange of a transfer goes well, one after the other. */
  ghost predicate AllGoWell(c: Codes, w: nat -> Answer, p: Place, ps: seq<Phase>, places: seq<Place>) {
    && |places| == |ps| + 1 && places[0] == p
    && forall j :: 0 <= j < |ps| ==> GoesWell(c, w, places[j], ps[j], places[j + 1])
  }

  /** A transfer succeeds if and only if every exchange goes well. */
  lemma {:induction false} PhasesSucceed(c: Codes, w: nat -> Answer, p: Place, ps: seq<Phase>)
    requires forall j :: 0 <= j < |ps| ==> ps[j].expected != c.busy
    ensures PhasesFrom(c, w, p.step, p.received, ps).ret.Success? <==> exists places :: AllGoWell(c, w, p, ps, places)
    decreases |ps|
  {
    hide GoesWell, ExchangeFrom;
    if ps == [] {
      assert AllGoWell(c, w, p, ps, [p]);
    } else {
      var o := ExchangeFrom(c, w, p.step, p.received, ps[0]);
      var q := Place(o.step, o.received);
      ExchangeSucceeds(c, w, p, ps[0]);
      PhasesSucceed(c, w, q, ps[1..]);
      if o.ret.Success? && PhasesFrom(c, w, p.step, p.received, ps).ret.Success? {
        var places :| AllGoWell(c, w, q, ps[1..], places);
        WellBefore(c, w, p, ps, q, places);
      }
      if places :| AllGoWell(c, w, p, ps, places) {
        assert GoesWell(c, w, places[0], ps[0], places[0 + 1]);
        WellAfter(c, w, p, ps, q, places);
      }
    }
  }

  lemma WellBefore(c: Codes, w: nat -> Answer, p: Place, ps: seq<Phase>, q: Place, places: seq<Place>)
    requires ps != [] && GoesWell(c, w, p, ps[0], q) && AllGoWell(c, w, q, ps[1..], places)
    ensures AllGoWell(c, w, p, ps, [p] + places)
  {
    hide GoesWell;
    var more := [p] + places;
    forall j | 0 <= j < |ps| ensures GoesWell(c, w, more[j], ps[j], more[j + 1]) {
      if j > 0 {
        assert more[j] == places[j - 1] && ps[j] == ps[1..][j - 1] && more[j + 1] == places[j - 1 + 1];
      }
    }
  }

  lemma WellAfter(c: Codes, w: nat -> Answer, p: Place, ps: seq<Phase>, q: Place, places: seq<Place>)
    requires ps != [] && AllGoWell(c, w, p, ps, places) && places[1] == q
    ensures AllGoWell(c, w, q, ps[1..], places[1..])
  {
    hide GoesWell;
    var fewer := places[1..];
    forall j | 0 <= j < |ps[1..]| ensures GoesWell(c, w, fewer[j], ps[1..][j], fewer[j + 1]) {
      assert fewer[j] == places[j + 1] && fewer[j + 1] == places[j + 1 + 1] && ps[1..][j] == ps[j + 1];
    }
  }

  /** A controller that is asked for a state first and is ready, has had an image written, or was reset; and then serves
      every exchange. */
  ghost predicate Serves(c: Codes, w: nat -> Answer, p: Place, ps: seq<Phase>, q: Place, places: seq<Place>) {
    && (exists status, rounds :: status in {c.ready, c.success, c.reset} && ReadsFirst(c, w, p, 6, status, q, rounds))
    && AllGoWell(c, w, q, ps, places)
  }

  /** The transfer of an image succeeds if and only if the controller is in a state to begin with, and every exchange,
      from the start over the frames to the block count, goes well. */
  lemma ImageSucceeds(c: Codes, w: nat -> Answer, p: Place, t: ImageType, twoStage: bool, count: nat)
    requires Distinct(c)
    ensures ImageFrom(c, w, p.step, p.received, ImagePhases(c, t, twoStage, count)).ret.Success? <==>
              exists q, places :: Serves(c, w, p, ImagePhases(c, t, twoStage, count), q, places)
  {
    hide ReadsFirst, PollFrom, PhasesFrom, AllGoWell;
    var ps := ImagePhases(c, t, twoStage, count);
    ExpectedStates(c, t, twoStage, count);
    var o := PollFrom(c, w, p.step, p.received, 6);
    var q := Place(o.step, o.received);
    PhasesSucceed(c, w, q, ps);
    if o.status != c.busy {
      PollReads(c, w, p, 6, o.status);
    }
    if o.ret.Success? && o.status in {c.ready, c.success, c.reset}
        && PhasesFrom(c, w, q.step, q.received, ps).ret.Success? {
      var places :| AllGoWell(c, w, q, ps, places);
      assert Serves(c, w, p, ps, q, places);
    }
    if q', places :| Serves(c, w, p, ps, q', places) {
      var status, rounds :| status in {c.ready, c.success, c.reset} && ReadsFirst(c, w, p, 6, status, q', rounds);
      OnePlace(c, w, p, 6, status, q', rounds);
    }
  }

  lemma ExpectedStates(c: Codes, t: ImageType, twoStage: bool, count: nat)
    requires Distinct(c)
    ensures var ps := ImagePhases(c, t, twoStage, count);
            |ps| == count + 2 && forall j :: 0 <= j < |ps| ==> ps[j].expected != c.busy && ps[j].polls > 0
  {
  }

  /** A prompt controller: every access succeeds, every wait is ended by the notification for the command just
      written, and every state read is the one to wait for, so that exchange `j` takes six accesses. */
  ghost predicate Prompt(c: Codes, w: nat -> Answer, n: nat, ps: seq<Phase>) {
    && (forall i :: i >= n ==> w(i).ok && w(i).awakened)
    && w(n + 1).notes == [Note(c.getStatus, 0, c.ready)] && w(n + 2).status == c.ready
    && forall j :: 0 <= j < |ps| ==>
         && w(n + 3 + 6 * j + 2).notes == [Note(ps[j].op, 0, c.ready)]
         && w(n + 3 + 6 * j + 4).notes == [Note(c.getStatus, 0, c.ready)]
         && w(n + 3 + 6 * j + 5).status == ps[j].expected
  }

  lemma PromptSucceeds(c: Codes, w: nat -> Answer, n: nat, received: Note, t: ImageType, twoStage: bool, count: nat)
    requires Distinct(c) && Prompt(c, w, n, ImagePhases(c, t, twoStage, count))
    ensures ImageFrom(c, w, n, received, ImagePhases(c, t, twoStage, count)).ret.Success?
  {
    hide ImagePhases, PhasesFrom, ReadsFirst;
    var ps := ImagePhases(c, t, twoStage, count);
    var note := Note(c.getStatus, 0, c.ready);
    assert PollFrom(c, w, n, received, 6) == Outcome(Success, c.ready, n + 3, note);
    ExpectedStates(c, t, twoStage, count);
    PromptFrom(c, w, n, ps, 0);
    assert ps[0..] == ps;
  }

  lemma PromptExchange(c: Codes, w: nat -> Answer, m: nat, x: Phase)
    requires x.expected != c.busy && x.polls > 0 && c.ready != c.busy
    requires forall i :: m <= i < m + 6 ==> w(i).ok && w(i).awakened
    requires w(m + 2).notes == [Note(x.op, 0, c.ready)] && w(m + 4).notes == [Note(c.getStatus, 0, c.ready)]
    requires w(m + 5).status == x.expected
    ensures var note := Note(c.getStatus, 0, c.ready);
            ExchangeFrom(c, w, m, note, x) == Outcome(Success, x.expected, m + 6, note)
  {
    var note, asked := Note(c.getStatus, 0, c.ready), Note(x.op, 0, c.ready);
    assert Latest(note, w(m + 2).notes) == asked && Latest(asked, w(m + 4).notes) == note;
    assert PollFrom(c, w, m + 3, asked, x.polls) == Outcome(Success, x.expected, m + 6, note);
  }

  lemma {:induction false} PromptFrom(c: Codes, w: nat -> Answer, n: nat, ps: seq<Phase>, j: nat)
    requires Distinct(c) && Prompt(c, w, n, ps) && j <= |ps|
    requires forall j :: 0 <= j < |ps| ==> ps[j].expected != c.busy && ps[j].polls > 0
    ensures PhasesFrom(c, w, n + 3 + 6 * j, Note(c.getStatus, 0, c.ready), ps[j..]).ret.Success?
    decreases |ps| - j
  {
    hide ExchangeFrom;
    if j < |ps| {
      PromptExchange(c, w, n + 3 + 6 * j, ps[j]);
      PromptFrom(c, w, n, ps, j + 1);
      assert ps[j..][0] == ps[j] && ps[j..][1..] == ps[j + 1..];
    }
  }

  class Updater {
    const codes: Codes
    const world: nat -> Answer
    const twoStage: bool
    /** The latest notification. */
    var received: Note
    /** Accesses made so far, and everything that passed. */
    var step: nat
    var wire: seq<Event>

    constructor (codes: Codes, world: nat -> Answer, twoStage: bool, received: Note)
      ensures this.codes == codes && this.world == world && wire == []
    {
      this.codes, this.world, this.twoStage, this.received, step, wire := codes, world, twoStage, received, 0, [];
    }

    /** A write of one of the two keys. */
    method WriteKey(e: Event) returns (ok: bool)
      modifies `step, `wire
      ensures wire == if ok then old(wire) + [e] else old(wire)
      ensures step == old(step) + 1 && ok == world(old(step)).ok
    {
      ok := world(step).ok;
      step := step + 1;
      if ok {
        wire := wire + [e];
      }
    }

    /** Sleep until a notification or the deadline. */
    method Wait() returns (awakened: bool, ghost notes: seq<Note>)
      modifies `step, `wire, `received
      ensures wire == old(wire) + NoteEvents(notes)
      ensures received == Latest(old(received), notes)
      ensures step == old(step) + 1 && notes == world(old(step)).notes && awakened == world(old(step)).awakened
    {
      var a := world(step);
      step := step + 1;
      notes := a.notes;
      for i := 0 to |a.notes|
        invariant wire == old(wire) + NoteEvents(a.notes[..i]) && step == old(step) + 1
        invariant received == if i == 0 then old(received) else a.notes[i - 1]
      {
        received := a.notes[i];
        wire := wire + [Notified(a.notes[i])];
        assert NoteEvents(a.notes[..i + 1]) == NoteEvents(a.notes[..i]) + [Notified(a.notes[i])];
      }
      assert a.notes[..|a.notes|] == a.notes;
      awakened := a.awakened;
    }

    method CheckOperationStatus(op: nat) returns (ret: IOReturn)
      ensures ret in {Success, IOError} && (ret.Success? <==> Acknowledges(codes, received, op))
    {
      if received.op != op { return IOError; }
      if received.i2c != 0 { return IOError; }
      if received.updater > codes.ready && received.updater != codes.success { return IOError; }
      return Success;
    }

    /** One round of polling; `status` is what was read, if anything was. */
    method PollOnce(before: nat) returns (ret: IOReturn, status: nat, ghost seen: seq<Event>)
      modifies `step, `wire, `received
      ensures wire == old(wire) + seen && OnlyPolls(codes, seen) && Commands(seen) <= 1
      ensures ret in {Success, IOError} && (ret.Success? ==> Commands(seen) == 1)
      ensures ret.Success? && status != before ==>
                received.op == codes.getStatus && seen != [] && seen[|seen| - 1] == StatusRead(status)
      ensures forall i :: 0 <= i < |seen| && seen[i].StatusRead? ==>
                ret.Success? && seen[i].status == status && i == |seen| - 1
      ensures if !world(old(step)).ok then ret.IOError? && step == old(step) + 1 && received == old(received)
              else
                && received == Latest(old(received), world(old(step) + 1).notes)
                && if !Heard(codes, world, old(step) + 1, old(received)) then
                     ret.Success? && status == before && step == old(step) + 2
                   else
                     && step == old(step) + 3 && (ret.Success? <==> world(old(step) + 2).ok)
                     && (ret.Success? ==> status == world(old(step) + 2).status)
    {
      hide Commands;
      status, seen := before, [];
      NoCommands();
      var ok := WriteKey(CommandKey(codes.getStatus));
      if !ok { return IOError, status, seen; }
      seen := [CommandKey(codes.getStatus)];
      CommandsSnoc([], CommandKey(codes.getStatus));
      assert [] + [CommandKey(codes.getStatus)] == seen;
      var awakened;
      ghost var notes;
      awakened, notes := Wait();
      CommandsOfNotes(seen, notes);
      seen := seen + NoteEvents(notes);
      if !awakened { return Success, status, seen; }
      var checked := CheckOperationStatus(codes.getStatus);
      if checked != Success { return Success, status, seen; }
      var a := world(step);
      step := step + 1;
      if !a.ok { return IOError, status, seen; }
      status := a.status;
      wire := wire + [StatusRead(status)];
      CommandsSnoc(seen, StatusRead(status));
      seen := seen + [StatusRead(status)];
      ret := Success;
    }

    /** _pollUpdaterStatus: the first state read that is not busy, read under a notification for the status command;
        busy only after timeout / retry + 2 commands. */
    method PollUpdaterStatus(timeout: nat, retryMs: nat) returns (ret: IOReturn, status: nat, ghost seen: seq<Event>)
      requires retryMs > 0
      modifies `step, `wire, `received
      ensures wire == old(wire) + seen && OnlyPolls(codes, seen) && Commands(seen) <= timeout / retryMs + 2
      ensures ret in {Success, IOError}
      ensures ret.Success? && status != codes.busy ==>
                received.op == codes.getStatus && seen != [] && seen[|seen| - 1] == StatusRead(status)
      ensures ret.Success? && status == codes.busy ==> Commands(seen) == timeout / retryMs + 2
      ensures forall i :: 0 <= i < |seen| - 1 && seen[i].StatusRead? ==> seen[i].status == codes.busy
      ensures var o := PollFrom(codes, world, old(step), old(received), timeout / retryMs + 2);
              ret == o.ret && step == o.step && received == o.received && (ret.Success? ==> status == o.status)
    {
      hide Commands, OnlyPolls, BusyUntil, Heard, Latest;
      var maxRetries := timeout / retryMs + 1;
      status, seen, ret := codes.busy, [], Success;
      BusyAtFirst(codes);
      var retry := 0;
      var again := true;
      NoCommands();
      while again
        invariant wire == old(wire) + seen && BusyUntil(codes, seen, status) && ret.Success? && retry <= maxRetries + 1
        invariant Commands(seen) == if again then retry else retry + 1
        invariant !again && status == codes.busy ==> retry == maxRetries
        invariant PollFrom(codes, world, old(step), old(received), maxRetries + 1)
               == if again then PollFrom(codes, world, step, received, maxRetries + 1 - retry)
                  else Outcome(Success, status, step, received)
        invariant again ==> status == codes.busy && retry <= maxRetries
        invariant !again && status != codes.busy ==>
            received.op == codes.getStatus && seen != [] && seen[|seen| - 1] == StatusRead(status)
        invariant !again ==> Commands(seen) <= maxRetries + 1
        decreases if again then maxRetries + 1 - retry + 1 else 0
      {
        ghost var one;
        ret, status, one := PollOnce(codes.busy);
        CommandsJoin(seen, one);
        BusyJoin(codes, seen, one, status);
        seen := seen + one;
        if ret != Success {
          BusyBefore(codes, seen, status);
          return;
        }
        again := status == codes.busy && retry < maxRetries;
        if again {
          retry := retry + 1;
        }
      }
      BusyBefore(codes, seen, status);
    }

    /** A frame with its command, its acknowledgement and the polling after it. */
    method Exchanged(frame: seq<Byte>, op: nat, timeout: nat, retryMs: nat, expected: nat)
        returns (ret: IOReturn, ghost x: Exchange)
      requires retryMs > 0 && expected != codes.busy && op != codes.getStatus && received.op == codes.getStatus
      modifies `step, `wire, `received
      ensures ret.Success? ==>
                && wire == old(wire) + EventsOf(x) && x.frame == frame && x.op == op
                && Good(codes, x, expected, timeout / retryMs + 2) && received.op == codes.getStatus
      ensures var o := ExchangeFrom(codes, world, old(step), old(received),
                  Phase(op, expected, timeout / retryMs + 2));
              ret == o.ret && step == o.step && received == o.received
    {
      hide Commands, PollFrom;
      x := Exchange(frame, op, [], []);
      var ok := WriteKey(DataKey(frame));
      if !ok { return IOError, x; }
      ok := WriteKey(CommandKey(op));
      if !ok { return IOError, x; }
      var awakened;
      ghost var notes;
      awakened, notes := Wait();
      ret := CheckOperationStatus(op);
      if ret != Success { return; }
      var status;
      ghost var poll;
      ret, status, poll := PollUpdaterStatus(timeout, retryMs);
      x := Exchange(frame, op, notes, poll);
      if ret != Success { return; }
      if status != expected { return Timeout, x; }
    }

    /** The buffer for the frame at an offset.  A short frame is cleared first, a full one is overwritten. */
    method FillBuffer(buffer: array<Byte>, data: seq<Byte>, offset: nat) returns (size: nat)
      requires buffer.Length == FRAME && offset < |data| && offset % FRAME == 0
      modifies buffer
      ensures size == Min(FRAME, |data| - offset)
      ensures offset / FRAME < Blocks(|data|) && buffer[..] == FrameAt(data, offset / FRAME)
    {
      size := Min(FRAME, |data| - offset);
      if size < FRAME {
        for i := 0 to FRAME
          invariant forall j :: 0 <= j < i ==> buffer[j] == 0
        {
          buffer[i] := 0;
        }
      }
      for i := 0 to size
        invariant forall j :: 0 <= j < i ==> buffer[j] == data[offset + j]
        invariant size < FRAME ==> forall j :: i <= j < FRAME ==> buffer[j] == 0
      {
        buffer[i] := data[offset + i];
      }
      assert offset == offset / FRAME * FRAME;
    }

    /** The frames of the data up to `offset` went out, in order, each acknowledged and followed by a ready state. */
    ghost predicate Sent(xs: seq<Exchange>, data: seq<Byte>, offset: nat, op: nat) {
      && offset <= |data| && |xs| == Blocks(offset) && |xs| <= Blocks(|data|)
      && forall k :: 0 <= k < |xs| ==>
           xs[k].frame == FrameAt(data, k) && xs[k].op == op && Good(codes, xs[k], codes.ready, 12)
    }

    lemma SentNothing(data: seq<Byte>, op: nat)
      ensures Sent([], data, 0, op) && AllEvents([]) == []
    {
    }

    /** One more frame; only the last one may be short. */
    lemma SentOne(xs: seq<Exchange>, x: Exchange, data: seq<Byte>, offset: nat, op: nat)
      requires Sent(xs, data, offset, op) && offset < |data| && offset % FRAME == 0
      requires x.frame == FrameAt(data, offset / FRAME) && x.op == op && Good(codes, x, codes.ready, 12)
      ensures Sent(xs + [x], data, offset + Min(FRAME, |data| - offset), op)
    {
      hide Good, FrameAt;
      assert Blocks(offset) == offset / FRAME;
    }

    /** _writeDataDataGated: on success every frame of the data went out once, in order, each acknowledged and
        followed by a ready state. */
    method WriteDataData(data: seq<Byte>, op: nat) returns (ret: IOReturn, ghost xs: seq<Exchange>)
      requires Distinct(codes) && op != codes.getStatus && received.op == codes.getStatus
      modifies `step, `wire, `received
      ensures ret.Success? ==>
                && wire == old(wire) + AllEvents(xs) && Sent(xs, data, |data|, op) && received.op == codes.getStatus
                && |xs| * FRAME >= |data| && Join(Frames(xs)) == data + Zeros(|xs| * FRAME - |data|)
      ensures op == codes.setImageData ==>
                var o := PhasesFrom(codes, world, old(step), old(received), FramePhases(codes, Blocks(|data|)));
                ret == o.ret && step == o.step && received == o.received
    {
      hide Good, AllEvents, EventsOf, Join, Sent, FrameAt, ExchangeFrom, Heard, FramePhases;
      xs := [];
      SentNothing(data, op);
      var buffer := new Byte[FRAME];
      var offset, remaining := 0, |data|;
      while remaining > 0
        invariant 0 <= remaining && offset + remaining == |data| && received.op == codes.getStatus && fresh(buffer)
        invariant remaining > 0 ==> offset % FRAME == 0
        invariant wire == old(wire) + AllEvents(xs) && Sent(xs, data, offset, op)
        invariant op == codes.setImageData ==>
            PhasesFrom(codes, world, old(step), old(received), FramePhases(codes, Blocks(|data|)))
              == PhasesFrom(codes, world, step, received, FramePhases(codes, Blocks(remaining)))
        decreases remaining
      {
        FramePhasesStep(codes, Blocks(remaining));
        var size := FillBuffer(buffer, data, offset);
        ghost var x;
        ret, x := Exchanged(buffer[..], op, 700, 70, codes.ready);
        if ret != Success { return; }
        AllEventsSnoc(xs, x);
        SentOne(xs, x, data, offset, op);
        xs := xs + [x];
        offset := offset + size;
        remaining := remaining - size;
      }
      SentAll(xs, data, op);
      ret := Success;
    }

    lemma SentAll(xs: seq<Exchange>, data: seq<Byte>, op: nat)
      requires Sent(xs, data, |data|, op)
      ensures |xs| * FRAME >= |data| && Join(Frames(xs)) == data + Zeros(|xs| * FRAME - |data|)
    {
      AllFrames(xs, data);
    }

    /** The frame holds a 16-bit number, low byte first, and nothing else. */
    predicate Announces(frame: seq<Byte>, n: nat) {
      && |frame| == FRAME && frame[0] as int + 256 * frame[1] as int == n && n < 0x1_0000
      && forall i :: 2 <= i < FRAME ==> frame[i] == 0
    }

    lemma CountFrame(length: nat)
      requires length < 0x1_0000
      ensures Announces([length % 256, length / 256] + Zeros(FRAME - 2), length)
    {
    }

    /** State, timeout and retry interval after an image is done. */
    function DoneWait(t: ImageType): (nat, nat, nat) {
      match t
      case Dnvd => (if twoStage then codes.ready else codes.success, 2000, 700)
      case Configuration => (if twoStage then codes.ready else codes.reset, 10000, 700)
      case Firmware => (if twoStage then codes.ready else codes.reset, 16000, 1000)
    }

    /** Timeout and retry interval after an image is started. */
    function StartWait(t: ImageType): (nat, nat) {
      if t.Firmware? then (1500, 700) else (1000, 70)
    }

    /** The image type went out in the first byte of a cleared frame, was acknowledged under the start operation and
        followed by a ready state. */
    ghost predicate Started(t: ImageType, x: Exchange) {
      && |x.frame| == FRAME && (forall i :: 1 <= i < FRAME ==> x.frame[i] == 0)
      && x.frame[0] == (match t case Firmware => codes.firmware case Configuration => codes.configuration case Dnvd =>
           codes.dnvd)
      && x.op == codes.startImage && Good(codes, x, codes.ready, StartWait(t).0 / StartWait(t).1 + 2)
    }

    /** _writeDataGated for an image: start, frames, block count. */
    method WriteImage(t: ImageType, data: seq<Byte>)
        returns (ret: IOReturn, ghost poll: seq<Event>, ghost first: Exchange, ghost xs: seq<Exchange>,
        ghost done: Exchange)
      requires Distinct(codes)
      modifies `step, `wire, `received
      ensures ret.Success? ==>
                && Sent(xs, data, |data|, codes.setImageData)
                && |xs| * FRAME >= |data| && Join(Frames(xs)) == data + Zeros(|xs| * FRAME - |data|)
                && wire == old(wire) + poll + EventsOf(first) + AllEvents(xs) + EventsOf(done)
                && OnlyPolls(codes, poll) && Started(t, first)
                && Announces(done.frame, |xs| % 0x1_0000) && done.op == codes.setDone
                && Good(codes, done, DoneWait(t).0, DoneWait(t).1 / DoneWait(t).2 + 2)
      ensures ret == ImageFrom(codes, world, old(step), old(received),
                       ImagePhases(codes, t, twoStage, Blocks(|data|))).ret
    {
      hide Good, AllEvents, EventsOf, OnlyPolls, Commands, Join, Started, PollFrom, ExchangeFrom, PhasesFrom,
           FramePhases, FrameAt, Latest, Heard, Acknowledges, Announces;
      ImagePhasesFrom(codes, world, t, twoStage, Blocks(|data|));
      xs, first, done := [], Exchange([], 0, [], []), Exchange([], 0, [], []);
      var status;
      ret, status, poll := PollUpdaterStatus(2800, 700);
      if ret != Success { return; }
      if status != codes.ready && status != codes.success && status != codes.reset {
        ret := InternalError;
        return;
      }
      ret, first := StartImage(t);
      if ret != Success { return; }
      ret, xs := WriteDataData(data, codes.setImageData);
      if ret != Success { return; }
      var blocks := (|data| + 31) / 32;
      assert Sent(xs, data, |data|, codes.setImageData);
      var length := blocks % 0x1_0000;
      CountFrame(length);
      ret, done := Exchanged([length % 256, length / 256] + Zeros(FRAME - 2), codes.setDone, DoneWait(t).1,
          DoneWait(t).2, DoneWait(t).0);
    }

    method StartImage(t: ImageType) returns (ret: IOReturn, ghost x: Exchange)
      requires Distinct(codes) && received.op == codes.getStatus
      modifies `step, `wire, `received
      ensures ret.Success? ==> received.op == codes.getStatus && wire == old(wire) + EventsOf(x) && Started(t, x)
      ensures var o := ExchangeFrom(codes, world, old(step), old(received),
                  Phase(codes.startImage, codes.ready, if t.Firmware? then 4 else 16));
              ret == o.ret && step == o.step && received == o.received
    {
      hide Good, EventsOf, ExchangeFrom;
      var code, timeout, retryMs;
      match t {
        case Firmware => code, timeout, retryMs := codes.firmware, 1500, 700;
        case Configuration => code, timeout, retryMs := codes.configuration, 1000, 70;
        case Dnvd => code, timeout, retryMs := codes.dnvd, 1000, 70;
      }
      ret, x := Exchanged([code] + Zeros(FRAME - 1), codes.startImage, timeout, retryMs, codes.ready);
    }
  }

  lemma NoCommands()
    ensures Commands([]) == 0
  {
  }

  lemma {:induction false} CommandsJoin(a: seq<Event>, b: seq<Event>)
    ensures Commands(a + b) == Commands(a) + Commands(b)
    decreases |b|
  {
    if b == [] {
      assert a + b == a;
    } else {
      var t := a + b;
      assert t[..|t| - 1] == a + b[..|b| - 1];
      CommandsJoin(a, b[..|b| - 1]);
    }
  }
}
