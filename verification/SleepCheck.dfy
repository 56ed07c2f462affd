/**
 The sleep-veto round trip of pmconfigd/PMAssertions.c: before the system sleeps, every connected
 process is asked for assertions that block sleep, and the kernel gets one answer per call.
 */
module SleepCheck {
  import opened Common

  type Pid = nat


  datatype Process = Process(pid: Pid, connected: bool, exited: bool, suspended: bool)

  /** One answer to the kernel. */
  datatype Response = Response(token: nat, allow: bool)

  /** A reply that was accepted, with the number of blockers it reported. */
  datatype Accepted = Accepted(pid: Pid, blockers: nat)

  /** A round that contacted processes: which call it served, whom it contacted, what was accepted. */
  datatype Round = Round(call: nat, token: nat, contacted: set<Pid>, accepted: seq<Accepted>)

  predicate Wanted(p: Process) {
    p.connected && !p.exited && !p.suspended
  }

  ghost function Sum(a: seq<Accepted>): nat {
    if a == [] then 0 else Sum(a[..|a| - 1]) + a[|a| - 1].blockers
  }

  lemma SumSnoc(a: seq<Accepted>, x: Accepted)
    ensures Sum(a + [x]) == Sum(a) + x.blockers
  {
    assert (a + [x])[..|a|] == a;
  }

  lemma {:induction false} SumZero(a: seq<Accepted>)
    ensures Sum(a) == 0 <==> forall n :: 0 <= n < |a| ==> a[n].blockers == 0
  {
    if a != [] {
      SumZero(a[..|a| - 1]);
      assert forall n :: 0 <= n < |a| - 1 ==> a[..|a| - 1][n] == a[n];
    }
  }

  ghost function Repliers(a: seq<Accepted>): set<Pid> {
    set n | 0 <= n < |a| :: a[n].pid
  }

  lemma RepliersSnoc(a: seq<Accepted>, x: Accepted)
    ensures Repliers(a + [x]) == Repliers(a) + {x.pid}
  {
    var b := a + [x];
    forall p | p in Repliers(a) ensures p in Repliers(b) {
      var n :| 0 <= n < |a| && a[n].pid == p;
      assert b[n].pid == p;
    }
    assert b[|a|].pid == x.pid;
  }

  /** The answer that closes a round. */
  ghost function Closing(r: Round): Response {
    Response(r.token, Sum(r.accepted) % TWO_32 == 0)
  }

  /** Nobody is accepted twice, and only contacted processes are. */
  ghost predicate Proper(r: Round) {
    Repliers(r.accepted) <= r.contacted && |Repliers(r.accepted)| == |r.accepted|
  }

  /** Every call but those in `open` has exactly one answer, which carries its token; those have none. */
  ghost predicate OneAnswerEach(sent: seq<Response>, calls: seq<nat>, answered: seq<nat>, open: set<nat>) {
    && |answered| == |sent|
    && (forall n :: 0 <= n < |answered| ==> answered[n] < |calls| && sent[n].token == calls[answered[n]])
    && (forall m, n :: 0 <= m < n < |answered| ==> answered[m] != answered[n])
    && (forall c :: 0 <= c < |calls| && c !in open ==> c in answered)
    && (forall c :: c in open ==> c < |calls| && c !in answered)
  }

  lemma CallOpens(sent: seq<Response>, calls: seq<nat>, answered: seq<nat>, t: nat)
    requires OneAnswerEach(sent, calls, answered, {})
    ensures OneAnswerEach(sent, calls + [t], answered, {|calls|})
  {
  }

  lemma CallAnswered(sent: seq<Response>, calls: seq<nat>, answered: seq<nat>, open: set<nat>, t: nat, allow: bool)
    requires OneAnswerEach(sent, calls, answered, open)
    ensures OneAnswerEach(sent + [Response(t, allow)], calls + [t], answered + [|calls|], open)
  {
    var b := answered + [|calls|];
    forall c | 0 <= c < |calls + [t]| && c !in open ensures c in b {
      if c < |calls| {
        assert c in answered;
      } else {
        assert b[|answered|] == c;
      }
    }
  }

  lemma RoundAnswered(sent: seq<Response>, calls: seq<nat>, answered: seq<nat>, c: nat, allow: bool)
    requires OneAnswerEach(sent, calls, answered, {c})
    ensures c < |calls| && OneAnswerEach(sent + [Response(calls[c], allow)], calls, answered + [c], {})
  {
    var b := answered + [c];
    assert c in {c};
    assert b[|answered|] == c;
    forall d | 0 <= d < |calls| ensures d in b {
      if d != c {
        assert d in answered;
      }
    }
  }

  /** A finished round was answered "allowed" exactly when the blockers of its accepted replies add up to
      zero in 32 bits. */
  ghost predicate FairVerdicts(sent: seq<Response>, answered: seq<nat>, finished: seq<Round>, verdicts: seq<nat>) {
    && |verdicts| == |finished| && |answered| == |sent|
    && forall n :: 0 <= n < |finished| ==>
         && Proper(finished[n]) && verdicts[n] < |sent| && answered[verdicts[n]] == finished[n].call
         && (sent[verdicts[n]].allow <==> Sum(finished[n].accepted) % TWO_32 == 0)
  }

  lemma VerdictsKept(sent: seq<Response>, answered: seq<nat>, finished: seq<Round>, verdicts: seq<nat>, x: Response,
                     c: nat)
    requires FairVerdicts(sent, answered, finished, verdicts)
    ensures FairVerdicts(sent + [x], answered + [c], finished, verdicts)
  {
  }

  /** The processes among the first `j` that are asked. */
  ghost function Asked(processes: seq<Process>, j: nat): (r: set<Pid>)
    requires j <= |processes|
    ensures forall p :: p in r <==> exists n :: 0 <= n < j && Wanted(processes[n]) && processes[n].pid == p
  {
    if j == 0 then {} else Asked(processes, j - 1) + if Wanted(processes[j - 1]) then {processes[j - 1].pid} else {}
  }

  /** A process of that number is connected, has not exited and is not suspended. */
  ghost predicate CanAnswer(processes: seq<Process>, p: Pid) {
    exists n :: 0 <= n < |processes| && processes[n].pid == p && processes[n].connected && !processes[n].exited
      && !processes[n].suspended
  }

  class Check {
    var token: nat
    var pending: set<Pid>
    var blockers: nat
    /** The timer is set and will go off. */
    var armed: bool
    /** What the kernel was answered, in order. */
    var sent: seq<Response>
    /** References held on process structures on behalf of the check. */
    ghost var held: multiset<Pid>
    /** Token of every call so far, and which call each answer belongs to. */
    ghost var calls: seq<nat>
    ghost var answered: seq<nat>
    /** The round under way, if any process is pending, and the finished ones with the place of their answers. */
    ghost var round: Round
    ghost var finished: seq<Round>
    ghost var verdicts: seq<nat>

    /** The call whose answer is outstanding. */
    ghost function Open(): set<nat>
      reads `pending, `round
    {
      if pending == {} then {} else {round.call}
    }

    /** The round under way knows what was asked, replied and counted. */
    ghost predicate RoundOK()
      reads `pending, `token, `blockers, `round, `calls
    {
      && round.token == token && Proper(round) && round.call < |calls| && calls[round.call] == token
      && round.contacted == pending + Repliers(round.accepted) && pending !! Repliers(round.accepted)
      && blockers == Sum(round.accepted) % TWO_32
    }

    ghost predicate Valid()
      reads this
    {
      && held == multiset(pending)
      && OneAnswerEach(sent, calls, answered, Open()) && FairVerdicts(sent, answered, finished, verdicts)
      && (if pending == {} then token == 0 && blockers == 0 else armed && RoundOK())
    }

    constructor ()
      ensures Valid() && pending == {} && calls == [] && sent == [] && finished == [] && !armed
    {
      token, pending, blockers, armed, sent := 0, {}, 0, false, [];
      held, calls, answered, round, finished, verdicts := multiset{}, [], [], Round(0, 0, {}, []), [], [];
    }

    /** A call that is answered at once. */
    method AnswerAtOnce(t: nat)
      requires OneAnswerEach(sent, calls, answered, Open()) && FairVerdicts(sent, answered, finished, verdicts)
      modifies `sent, `answered, `calls
      ensures OneAnswerEach(sent, calls, answered, Open()) && FairVerdicts(sent, answered, finished, verdicts)
      ensures sent == old(sent) + [Response(t, true)] && calls == old(calls) + [t]
    {
      CallAnswered(sent, calls, answered, Open(), t, true);
      VerdictsKept(sent, answered, finished, verdicts, Response(t, true), |calls|);
      sent := sent + [Response(t, true)];
      answered := answered + [|calls|];
      calls := calls + [t];
    }

    /** Retain and ask everyone who can answer. */
    method Contact(processes: seq<Process>) returns (asked: set<Pid>)
      requires held == multiset{} && forall m, n :: 0 <= m < n < |processes| ==> processes[m].pid != processes[n].pid
      modifies `held
      ensures asked == Asked(processes, |processes|) && held == multiset(asked)
    {
      hide Asked, Wanted;
      asked := {};
      NobodyAsked(processes);
      for j := 0 to |processes|
        invariant asked == Asked(processes, j) && held == multiset(asked)
      {
        NotAskedYet(processes, j);
        if Wanted(processes[j]) {
          OneMore(asked, processes[j].pid);
          held := held + multiset{processes[j].pid};
          asked := asked + {processes[j].pid};
        }
      }
    }

    /** A round starts with everyone asked. */
    method OpenRound(t: nat, asked: set<Pid>)
      requires pending == {} && blockers == 0 && held == multiset(asked) && asked != {}
      requires OneAnswerEach(sent, calls, answered, Open()) && FairVerdicts(sent, answered, finished, verdicts)
      modifies `pending, `token, `round, `calls, `armed
      ensures Valid() && pending == asked && calls == old(calls) + [t] && round == Round(|old(calls)|, t, asked, [])
                && armed
    {
      hide OneAnswerEach, FairVerdicts, Sum, Repliers, Proper;
      CallOpens(sent, calls, answered, t);
      NewRound(|calls|, t, asked);
      round := Round(|calls|, t, asked, []);
      calls := calls + [t];
      pending, token := asked, t;
      armed := true;
    }

    /** checkForAsyncAssertions: contact everyone who can answer, or answer at once. */
    method Call(t: nat, processes: seq<Process>, noMemory: bool)
      requires Valid() && forall m, n :: 0 <= m < n < |processes| ==> processes[m].pid != processes[n].pid
      modifies this
      ensures Valid() && calls == old(calls) + [t] && finished == old(finished)
      ensures armed == (old(armed) || (old(pending) == {} && !noMemory))
      ensures old(pending) != {} || noMemory ==>
                pending == old(pending) && round == old(round) && sent == old(sent) + [Response(t, true)]
      ensures old(pending) == {} && !noMemory ==>
                && pending == Asked(processes, |processes|)
                && (forall p :: p in pending <==> CanAnswer(processes, p))
                && (if pending == {} then sent == old(sent) + [Response(t, true)]
                    else sent == old(sent) && round == Round(|old(calls)|, t, pending, []))
    {
      hide OneAnswerEach, FairVerdicts, Sum, Repliers, Proper, Asked, CanAnswer;
      if token != 0 || pending != {} || noMemory {
        AnswerAtOnce(t);
        return;
      }
      blockers := 0;
      var asked := Contact(processes);
      WhoIsAsked(processes);
      if asked == {} {
        AnswerAtOnce(t);
      } else {
        OpenRound(t, asked);
      }
      armed := true;
    }

    /** The round under way ends with the answer its blockers call for. */
    method Conclude()
      requires pending != {} && held == multiset{} && round.token == token && Proper(round) && round.call < |calls|
                 && calls[round.call] == token
      requires blockers == Sum(round.accepted) % TWO_32
      requires OneAnswerEach(sent, calls, answered, Open()) && FairVerdicts(sent, answered, finished, verdicts)
      modifies this
      ensures Valid() && pending == {} && armed == old(armed) && calls == old(calls)
      ensures sent == old(sent) + [Closing(old(round))]
      ensures finished == old(finished) + [old(round)]
    {
      var allow := blockers == 0;
      RoundAnswered(sent, calls, answered, round.call, allow);
      hide OneAnswerEach;
      sent := sent + [Response(token, allow)];
      answered := answered + [round.call];
      finished := finished + [round];
      verdicts := verdicts + [|sent| - 1];
      pending, token, blockers := {}, 0, 0;
    }

    /** processAssertionCheckResp.  A reply that is no proper message reads as token 0 and no blockers. */
    method Reply(t: nat, pid: Pid, count: nat)
      requires Valid()
      modifies this
      ensures Valid() && calls == old(calls) && armed == old(armed)
      ensures t != old(token) || pid == 0 || pid !in old(pending) ==>
                pending == old(pending) && sent == old(sent) && blockers == old(blockers) && finished == old(finished)
                    && round == old(round)
      ensures t == old(token) && pid != 0 && pid in old(pending) ==>
                && pending == old(pending) - {pid}
                && var r := old(round).(accepted := old(round).accepted + [Accepted(pid, count % TWO_32)]);
                   if pending == {} then finished == old(finished) + [r] && sent == old(sent) + [Closing(r)]
                   else round == r && sent == old(sent) && finished == old(finished)
    {
      hide OneAnswerEach, FairVerdicts, Sum, Repliers, Proper, Closing;
      if t != token || pid == 0 || pid !in pending { return; }
      var reported := count % TWO_32;
      ghost var before := round;
      CountOne(before, pid, reported, pending, blockers);
      blockers := (blockers + reported) % TWO_32;
      round := round.(accepted := round.accepted + [Accepted(pid, reported)]);
      held := held - multiset{pid};
      assert held == multiset(pending - {pid});
      if pending - {pid} == {} {
        Conclude();
      } else {
        pending := pending - {pid};
      }
    }

    /** The timer goes off: whoever has not replied is given up. */
    method TimerFires()
      requires Valid() && armed
      modifies this
      ensures Valid() && calls == old(calls) && pending == {} && !armed
      ensures if old(pending) == {} then sent == old(sent) && finished == old(finished)
              else finished == old(finished) + [old(round)] && sent == old(sent) + [Closing(old(round))]
    {
      hide OneAnswerEach, FairVerdicts, Sum, Repliers, Proper;
      armed := false;
      if pending == {} { return; }
      held := held - multiset(pending);
      Conclude();
    }
  }

  lemma NewRound(call: nat, t: nat, asked: set<Pid>)
    ensures var r := Round(call, t, asked, []);
            Proper(r) && r.contacted == asked + Repliers(r.accepted) && asked !! Repliers(r.accepted)
                && Sum(r.accepted) % TWO_32 == 0
  {
    assert Repliers([]) == {};
  }

  lemma AddMod(a: nat, b: nat)
    ensures (a % TWO_32 + b) % TWO_32 == (a + b) % TWO_32
  {
  }

  lemma WhoIsAsked(processes: seq<Process>)
    ensures forall p :: p in Asked(processes, |processes|) <==> CanAnswer(processes, p)
  {
  }

  lemma NobodyAsked(processes: seq<Process>)
    ensures Asked(processes, 0) == {}
  {
  }

  /** Processes are distinct, so each is asked once. */
  lemma NotAskedYet(processes: seq<Process>, j: nat)
    requires j < |processes| && forall m, n :: 0 <= m < n < |processes| ==> processes[m].pid != processes[n].pid
    ensures processes[j].pid !in Asked(processes, j)
    ensures Asked(processes, j + 1) == Asked(processes, j) + if Wanted(processes[j]) then {processes[j].pid} else {}
  {
  }

  lemma OneMore(s: set<Pid>, p: Pid)
    requires p !in s
    ensures multiset(s + {p}) == multiset(s) + multiset{p}
  {
  }

  /** One accepted reply. */
  lemma CountOne(r: Round, pid: Pid, reported: nat, pending: set<Pid>, blockers: nat)
    requires Proper(r) && pid in pending && r.contacted == pending + Repliers(r.accepted)
               && pending !! Repliers(r.accepted)
    requires blockers == Sum(r.accepted) % TWO_32
    ensures var r' := r.(accepted := r.accepted + [Accepted(pid, reported)]);
            && Proper(r') && r'.contacted == (pending - {pid}) + Repliers(r'.accepted)
            && (pending - {pid}) !! Repliers(r'.accepted)
            && (blockers + reported) % TWO_32 == Sum(r'.accepted) % TWO_32
  {
    SumSnoc(r.accepted, Accepted(pid, reported));
    RepliersSnoc(r.accepted, Accepted(pid, reported));
    AddMod(Sum(r.accepted), reported);
    hide Sum, Repliers;
  }

  /** The answer tells whether some accepted reply reported a blocker, unless the blockers reported add up to a
      positive multiple of 2^32, and then it does not. */
  lemma AllowedIffNoBlockers(r: Round)
    ensures (Closing(r).allow <==> forall n :: 0 <= n < |r.accepted| ==> r.accepted[n].blockers == 0)
            <==> Sum(r.accepted) == 0 || Sum(r.accepted) % TWO_32 != 0
  {
    SumZero(r.accepted);
  }

  /** Such a sum is possible: two replies whose blockers fill 32 bits are taken for none. */
  lemma BlockersWrap()
    ensures var a := [Accepted(1, TWO_32 / 2), Accepted(2, TWO_32 / 2)]; Sum(a) % TWO_32 == 0 && a[0].blockers != 0
  {
    var a := [Accepted(1, TWO_32 / 2), Accepted(2, TWO_32 / 2)];
    assert a[..1] == [Accepted(1, TWO_32 / 2)];
    assert a[..1][..0] == [];
    assert Sum(a[..1]) == TWO_32 / 2;
  }

  datatype Event = Called(token: nat, processes: seq<Process>, noMemory: bool) | Replied(token: nat, pid: Pid,
                          count: nat) | Fired

  /** What the events alone say: the calls so far, the round under way, the finished ones, the answers given, and
      whether the timer is set.  No token, pending set or counter is kept: who is pending follows from the round. */
  datatype Protocol = Protocol(calls: seq<nat>, open: Option<Round>, finished: seq<Round>, sent: seq<Response>,
                               armed: bool)

  ghost function Missing(r: Round): set<Pid> {
    r.contacted - Repliers(r.accepted)
  }

  ghost function Close(p: Protocol, r: Round): Protocol {
    p.(open := None, finished := p.finished + [r], sent := p.sent + [Closing(r)])
  }

  ghost function Next(p: Protocol, ev: Event): Protocol {
    match ev
    case Called(t, processes, noMemory) =>
      var asked := Asked(processes, |processes|);
      var q := p.(calls := p.calls + [t], armed := p.armed || (p.open.None? && !noMemory));
      if p.open.None? && !noMemory && asked != {} then q.(open := Some(Round(|p.calls|, t, asked, [])))
      else q.(sent := p.sent + [Response(t, true)])
    case Replied(t, pid, count) =>
      if p.open.Some? && t == p.open.value.token && pid != 0 && pid in Missing(p.open.value) then
        var r := p.open.value.(accepted := p.open.value.accepted + [Accepted(pid, count % TWO_32)]);
        if Missing(r) == {} then Close(p, r) else p.(open := Some(r))
      else p
    case Fired => if p.armed && p.open.Some? then Close(p.(armed := false), p.open.value) else p.(armed := false)
  }

  ghost function ProtocolOf(events: seq<Event>): Protocol {
    if events == [] then Protocol([], None, [], [], false)
        else Next(ProtocolOf(events[..|events| - 1]), events[|events| - 1])
  }

  /** The state is what the events say. */
  ghost predicate Follows(s: Check, p: Protocol)
    reads s
  {
    && s.calls == p.calls && s.finished == p.finished && s.sent == p.sent && s.armed == p.armed
    && (p.open.None? <==> s.pending == {}) && (p.open.Some? ==> s.round == p.open.value)
  }

  /** One event on a check that follows the protocol. */
  method Perform(s: Check, ev: Event, ghost p: Protocol)
    requires s.Valid() && Follows(s, p)
    requires ev.Called? ==> forall m, n :: 0 <= m < n < |ev.processes| ==> ev.processes[m].pid != ev.processes[n].pid
    modifies s
    ensures s.Valid() && Follows(s, Next(p, ev))
  {
    hide OneAnswerEach, FairVerdicts, Sum, Proper, Asked, Closing;
    match ev {
      case Called(t, processes, noMemory) => s.Call(t, processes, noMemory);
      case Replied(t, pid, count) =>
        ghost var pending := s.pending;
        PendingIsMissing(s, p);
        s.Reply(t, pid, count);
        MissingAfter(p, pid, count % TWO_32);
      case Fired =>
        if s.armed {
          s.TimerFires();
        }
    }
  }

  lemma PendingIsMissing(s: Check, p: Protocol)
    requires s.Valid() && Follows(s, p)
    ensures p.open.Some? ==> s.pending == Missing(p.open.value) && s.token == p.open.value.token
  {
    hide OneAnswerEach, FairVerdicts, Sum, Repliers;
  }

  lemma MissingAfter(p: Protocol, pid: Pid, count: nat)
    ensures p.open.Some? ==>
              Missing(p.open.value.(accepted := p.open.value.accepted + [Accepted(pid, count)]))
                  == Missing(p.open.value) - {pid}
  {
    if p.open.Some? {
      RepliersSnoc(p.open.value.accepted, Accepted(pid, count));
    }
  }

  /** Every interleaving of calls, replies of any token at any time, and timer events: calls, rounds and answers are
      what the protocol makes of the events.  If the run ends with no round under way, every call has exactly one
      answer and no reference is left. */
  method Run(events: seq<Event>) returns (s: Check)
    requires forall e :: e in events && e.Called? ==>
               forall m, n :: 0 <= m < n < |e.processes| ==> e.processes[m].pid != e.processes[n].pid
    ensures s.Valid() && Follows(s, ProtocolOf(events))
    ensures s.pending == {} ==> |s.sent| == |s.calls| && s.held == multiset{}
    ensures s.pending != {} ==> |s.sent| == |s.calls| - 1 && s.armed
  {
    hide Next, OneAnswerEach, FairVerdicts;
    s := new Check();
    assert events[..0] == [];
    for n := 0 to |events|
      invariant fresh(s) && s.Valid() && Follows(s, ProtocolOf(events[..n]))
    {
      assert events[n] in events;
      assert events[..n + 1][..n] == events[..n] && events[..n + 1][n] == events[n];
      Perform(s, events[n], ProtocolOf(events[..n]));
    }
    assert events[..|events|] == events;
    AnswerCount(s.sent, s.calls, s.answered, s.Open());
  }

  ghost function Upto(n: nat): (r: set<nat>)
    ensures |r| == n && forall c: nat :: c in r <==> c < n
  {
    if n == 0 then {} else Upto(n - 1) + {n - 1}
  }

  ghost function Elements(s: seq<nat>): (r: set<nat>)
    ensures forall c :: c in r <==> c in s
  {
    set c | c in s
  }

  lemma {:induction false} DistinctSize(s: seq<nat>)
    requires forall m, n :: 0 <= m < n < |s| ==> s[m] != s[n]
    ensures |Elements(s)| == |s|
  {
    if s == [] {
      assert Elements(s) == {};
    } else {
      var a := s[..|s| - 1];
      DistinctSize(a);
      assert s == a + [s[|s| - 1]];
      assert Elements(s) == Elements(a) + {s[|s| - 1]};
    }
  }

  /** Distinct answers to all calls but the open ones. */
  lemma AnswerCount(sent: seq<Response>, calls: seq<nat>, answered: seq<nat>, open: set<nat>)
    requires OneAnswerEach(sent, calls, answered, open)
    ensures |sent| + |open| == |calls|
  {
    DistinctSize(answered);
    assert Elements(answered) + open == Upto(|calls|);
    assert Elements(answered) !! open;
  }
}
