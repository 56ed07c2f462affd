# Verified model of the power-management daemon and its battery driver

A Dafny 4.11 model of six parts of the power-management sources, with proofs of what each part is for:

1. **The power-assertion engine** (`pmconfigd/PMAssertions.c`). Clients raise assertions that keep the machine, its display or its
   disks awake. An id table, four lists per assertion type, a timer and a valid-on-battery counter per type are updated in place;
   kernel bits, settings overrides and aggregate bits are derived from them by small incremental changes.
   - `EffectMirror.dfy`: the derived state, what a recomputation from scratch gives, and why one incremental handler call, one
     evaluation round or one reconfiguration restores it.
   - `AssertionLists.dfy`: the entities, what it means for table, lists, counters and timers to agree, and one lemma per kind of step.
   - `AssertionEngine.dfy`: class `Engine` with the list primitives, timers, handlers, create, retain, release, property updates,
     the display hand-off, timeouts, and the steps of suspending and resuming.
   - `ProcessExit.dfy`, `Suspension.dfy`, `Retiming.dfy`, `Reconfiguration.dfy`: operations that walk whole lists or all types.
   - `EngineSteps.dfy`: one step seen from outside: what every event makes of every assertion (`After`), of the types and of the rest.
     `EngineRun.dfy`: the operations take exactly these steps, one by one and in whole runs.
   - `EngineLifetimes.dfy`: what a creation, an update and a declaration give, and how long an assertion lives. `EngineConfiguration.dfy`: what
     the configuration of the types means for a client.
   - `EngineHistory.dfy`: what holds in every run: invariants, display hand-off, suspension. `EngineCounters.dfy`: the valid-on-battery
     counters, and what the derived state means while they are right. `FollowedDeadlines.dfy`: deadlines that follow a setting.
     `EngineLimits.dfy`: the middle of a hand-off, and where counter and lists part company.
2. **Time accounting per process** (`ProcessStats.dfy`).
3. **The sleep-veto round trip** (`SleepCheck.dfy`).
4. **The activity ring log** (`ActivityLog.dfy`, from `pmconfigd/PMAssertionLog.c`).
5. **The wake-event scheduler** (`WakeScheduler.dfy`, from `pmconfigd/AutoWakeScheduler.c`).
6. **Two battery drivers**: SMBus transactions (`SmbusDriver.dfy`) and the gas-gauge image transfer (`ImageTransfer.dfy`), from
   `AppleSmartBatteryManager/SmbusHandler.cpp` and `AppleSmartBatteryManager/AppleGasGaugeUpdate.cpp`. SMBus command codes are those of
   section 5.1 of the Smart Battery Data Specification, revision 1.1.

`Common.dfy` holds small definitions; its lemmas about list walks show why saving the next element before a callback is enough when the
callback unlinks the current one.

`dafny verify dfyconfig.toml` checks the project.

## How to read the engine

A type's lists are sequences of table indices. `Engine.Inv` is what holds between operations:

- *Partition*: every table entry is on exactly one list of exactly one type, the one its state bits name; timed lists are sorted.
- *Counters*: for each type in the ghost set `exact`, the valid-on-battery counter is the number of its timed and active assertions that
  carry the flag. From boot all four types that may be kept out on battery are in the set. A type leaves it only when a suspended assertion
  that carries the flag is released (the code counts it down a second time), or when an assertion that carries the flag is linked while the
  type counts no flags, which interactive push does not while keep-alive is on. `EngineSteps.Miscounts` names these
  events and no others: by `EngineCounters.StepCounts` an exact counter is right after an event if and only if the event is not among them.
- *Timers*: a type with timed assertions has its timer armed for the first deadline, or a timeout run is queued and that deadline has passed.
- *Mirror*: the derived state is what a recomputation over all types gives.
- *House*: powerd's display proxy, once created, is still its own assertion; whoever is suspended concerns a suspended process.

Inside an operation `limbo` names assertions that are unlinked, and one type at a time may be *pending*: the derived state is right except
that this type's handler has not run. `Ready` adds that its activity changed in the direction of the handler that will run.

Outside an operation the engine is a `State`. `Stepped(s, ev, s')` says what one event makes of it: the next record of every assertion
(`After`), the one new assertion if there is one (`NewRecord`), the configuration of every type, clock, settings and names, powerd's proxy and
its hand-off, and which counters may go wrong. Lists, timers and derived state follow from the invariants. `Runs(trace, events)` is a sequence
of states that all satisfy the invariants, each a step from the one before; `EngineRun.Run` delivers one for any events.

Timers, the clock, the power source, replies and bus completions are steps of the environment. The order of a client's properties in a
dictionary is not fixed; `WalkOrder` shows that the level and timeout keys may come in either order exactly when the level is not "off".

## Model

| member | source | states |
|---|---|---|
| EngineRun.Run | pmconfigd/PMAssertions.c:4141-4783 | any client calls, timer, process, power, configuration and setting events, in any order, give a trace in which every state satisfies the invariants and every step makes of each assertion, of the types and of the rest exactly what its event says |
| EngineRun.RunFromBoot | pmconfigd/PMAssertions.c:7607-7614 | the same for every run from boot, whose first state is the configured engine without assertions, all four counters exact |
| EngineRun.Perform | pmconfigd/PMAssertions.c:4141-4783 | one event is one such step, from any state that satisfies the invariants |
| EngineRun.NamesStep | pmconfigd/PMAssertions.c:6640-6833 | every step keeps every assertion under the type its name stands for, now or before a redirection changed |
| EngineHistory.SafeThroughout | pmconfigd/PMAssertions.c:4141-4211 | in every state of every run the lists partition the assertions, the derived state equals recomputation and no passed deadline is unwatched |
| EngineHistory.InvPartitions | pmconfigd/PMAssertions.c:4141-4187 | every id names one assertion on exactly one list of one type, the one its bits say; timed lists are sorted |
| EngineHistory.InvWatches | pmconfigd/PMAssertions.c:4361-4399 | every passed deadline has its timer due or a timeout run queued |
| EngineCounters.CountersThroughout | pmconfigd/PMAssertions.c:4154-4187 | in every run the counter of each of the four types is the number of its flagged timed and active assertions, up to the first event that miscounts that type |
| EngineCounters.StepCounts | pmconfigd/PMAssertions.c:4154-4187 | after any event whatsoever an exact counter is right if and only if the event is not one of those that miscount its type |
| EngineCounters.UpdateCounts | pmconfigd/PMAssertions.c:4928-5092 | a property update leaves an exact counter right if and only if it links no flagged assertion under a type that counts no flags now |
| EngineCounters.ReleaseCounts | pmconfigd/PMAssertions.c:4517-4534 | a client's release leaves it right if and only if what is released for good is not a suspended assertion with the flag, or the counter is zero |
| EngineCounters.ExitCounts | pmconfigd/PMAssertions.c:4650-4707 | a process exit leaves it right if and only if the process had no flagged suspended assertion of the type, or nobody else has a flagged live one |
| EngineCounters.ResumeCounts | pmconfigd/PMAssertions.c:4752-4783 | a resumption leaves it right if and only if the type counts flags now, or nothing flagged of the type comes back live |
| EngineCounters.DerivedFromAssertions | pmconfigd/PMAssertions.c:5133-5168 | while the counters that matter are right, a kernel bit, an override or an aggregate is set if and only if some live assertion asks for it, which on battery has the flag if its type is kept out there |
| EngineCounters.DerivedThroughout | pmconfigd/PMAssertions.c:5133-5168 | so in every state of a run from boot in which no event miscounts |
| EngineHistory.DisplayStaysOn | pmconfigd/PMAssertions.c:4536-4545 | when a client's display assertion is released, switched off, suspended, times out or goes with its process, the display bit is set before and after, and powerd's proxy is raised for five minutes, or for the display setting when that is shorter |
| EngineHistory.DisplayStaysOff | pmconfigd/PMAssertions.c:4517-4546 | when nobody's live display assertion is released, switched off, suspended, times out or goes with its process, and nothing is switched on, powerd's proxy is treated like any other assertion and the display bit does not come on |
| EngineHistory.DisplayBitMeans | pmconfigd/PMAssertions.c:5133-5168 | the display bit is set if and only if some live assertion's type is linked to it |
| EngineLifetimes.CreateMeans | pmconfigd/PMAssertions.c:5937-6037 | a creation by a process that is not suspended, of a known type and with room, adds exactly one assertion, with one reference, the owner and the properties asked for, inactive when its level is off, else live and timed as asked or capped by its type; any other creation adds nothing |
| EngineLifetimes.Lifetime | pmconfigd/PMAssertions.c:4592-4622 | from its creation on an assertion is in the table exactly as long as one plus its retains exceeds its releases, unless its process exits or it expires and is to be released then |
| EngineLifetimes.CreatedAndReleased | pmconfigd/PMAssertions.c:5992 | created and released once by the same process: the id is free again |
| EngineLifetimes.WishesThroughout | pmconfigd/PMAssertions.c:5937-6037 | owner, name, level, time, timeout action, limited power, on-behalf-of and the asynchronous mark stay what was asked for until the owner changes them |
| EngineLifetimes.ExpiredRunPossible | pmconfigd/PMAssertions.c:4189-4211 | whenever a deadline has passed, the timer of its type can go off or a queued run can start |
| EngineLifetimes.ExpiredIsDealtWith | pmconfigd/PMAssertions.c:4255-4335 | and whichever happens, the assertion is gone or inactive after it, unless it is powerd's proxy |
| EngineLifetimes.TimedOutAsAsked | pmconfigd/PMAssertions.c:4290-4316 | created, left alone and found expired by a timeout run: gone exactly when it asked to be released then or is asynchronous, else inactive |
| EngineLifetimes.UpdateMeans | pmconfigd/PMAssertions.c:4928-5092 | what an update makes of the record, key by key, for a live and for an inactive assertion; a refused one changes nothing; others unchanged but powerd's proxy when the display is handed over |
| EngineLifetimes.DeclareMeans | pmconfigd/PMAssertions.c:3544-3743 | a declaration extends the owner's assertion with the time of the setting, to be released then, or is refused with the level set; without one it creates a system-timed assertion with just these properties, or nothing |
| EngineConfiguration.ConfigurationStep | pmconfigd/PMAssertions.c:6553-6906 | after a configuration, a disable or an enable a type has the effect and flags meant for the surroundings and the source, none while disabled; a power-source change does that for three types; names are redirected with it; other events leave it alone |
| EngineConfiguration.SetUpThroughout | pmconfigd/PMAssertions.c:6553-6906 | and so it stays in every run until an event configures the type again |
| EngineConfiguration.PushTasksServed | pmconfigd/PMAssertions.c:6704-6758 | the type ApplePushServiceTask stands for has an effect unless disabled; in a sleep-service wake a live assertion under that name keeps the machine awake; otherwise the push type does nothing and the name stands for background tasks |
| EngineConfiguration.PushTasksThroughout | pmconfigd/PMAssertions.c:6704-6758 | the same in every run once both types were configured for the same surroundings |
| EngineConfiguration.PushTaskRaised | pmconfigd/PMAssertions.c:6704-6718 | a push task raised during a sleep-service wake sets the bit at once |
| EngineConfiguration.InteractiveTasksServed | pmconfigd/PMAssertions.c:6797-6833 | the same law for InteractivePushServiceTask: with keep-alive, in a sleep-service wake without it, and otherwise |
| EngineConfiguration.InteractiveTasksThroughout | pmconfigd/PMAssertions.c:6797-6833 | the same in every run once both types were configured for the same surroundings |
| EngineConfiguration.LiveSets | pmconfigd/PMAssertions.c:5133-5168 | a live assertion sets the bit or override its type is linked to, on battery when it is admitted there |
| EngineConfiguration.BootSetsUp | pmconfigd/PMAssertions.c:7607-7614 | at boot every type is set up for the surroundings and the source found |
| EngineHistory.SuspendedStays | pmconfigd/PMAssertions.c:4709-4783 | whatever happens, a suspended assertion keeps its whole record, deadline and remainder included, until it is resumed or released; only its references change, and its level, which a declaration sets and nothing else does |
| EngineHistory.RoundTrip | pmconfigd/PMAssertions.c:4474-4571 | suspended by the first event of a run and resumed by the last, with anything in between that neither resumes nor releases it, an assertion is inactive if and only if it was switched off and nobody declared activity on it in between; otherwise it is timed with exactly the seconds it had left, or active when it had none; the rest of its record is unchanged |
| EngineHistory.Revived | pmconfigd/PMAssertions.c:3602-3614 | switched off, suspended, declared (which is refused), resumed: live, without a deadline |
| EngineHistory.Revive | pmconfigd/PMAssertions.c:3602-3614 | the engine, started and run with these events, gets there |
| FollowedDeadlines.FloorStep | pmconfigd/PMAssertions.c:6227-6252 | every system-set deadline is at least 60 times the setting after a step if and only if what the step puts at risk was checked before: a client's deadline in an update, the remainder of what is resumed |
| FollowedDeadlines.FloorThroughout | pmconfigd/PMAssertions.c:6218-6374 | in every run from boot in which no client sets such a deadline too low and no setting is raised above what a suspended or switched-off assertion carries, with settings, clock, clients' times and changes of the setting below their limits, every system-set deadline is at least 60 times the setting in every state, and no further ahead than the changes so far allow |
| FollowedDeadlines.AheadStep | pmconfigd/PMAssertions.c:6236-6285 | only a change of the setting moves such a deadline further ahead of the clock than the largest time asked for, and by no more than the largest setting, also through suspension and resumption |
| FollowedDeadlines.LoweringIsCalm | pmconfigd/PMAssertions.c:6218-6292 | lowering a setting never endangers that |
| FollowedDeadlines.ChangesAreExact | pmconfigd/PMAssertions.c:6246-6252 | so the unsigned addition never wraps: in such a run a change of the setting moves every system-set deadline by the exact difference, floored at now |
| FollowedDeadlines.FloorLost | pmconfigd/PMAssertions.c:6236-6285 | otherwise it does wrap: declared for a minute, suspended, setting up to 100 minutes, resumed, setting down again, and the deadline is 2^64 - 5770 |
| FollowedDeadlines.LoseFloor | pmconfigd/PMAssertions.c:6236-6285 | the engine, started and run with these events, gets there |
| EffectMirror.HandlerRestoresMirror | pmconfigd/PMAssertions.c:5405-5543 | when one type changed, one call of its handler, which changes bits in one direction only, makes every bit, override and aggregate equal to recomputation |
| EffectMirror.RaiseWhilePending | pmconfigd/PMAssertions.c:2470-2521 | raising the proxy while another type awaits its handler sets the display bit and leaves nothing else out of date |
| EffectMirror.ReconfigureKeepsMirror | pmconfigd/PMAssertions.c:6863-6904 | unlink, evaluate with the old handler, relink, evaluate with the new one: right for both effects |
| EffectMirror.EvalAllRestoresMirror | pmconfigd/PMAssertions.c:6427-6433 | one evaluation round repairs the derived state after a power-source change that switched any set of types at once |
| AssertionLists.SortedInsertSorts | pmconfigd/PMAssertions.c:4402-4443 | insertion before the first later deadline keeps the list sorted and free of duplicates, and tells what is first |
| AssertionLists.WalkOrder | pmconfigd/PMAssertions.c:4815-4853 | the result of a property update does not depend on dictionary order if and only if the level given with a timeout is not off |
| AssertionLists.SuspendResume | pmconfigd/PMAssertions.c:4474-4571 | exactly when a suspended and resumed assertion is back on its kind of list, and exactly when it has its remaining time back |
| AssertionLists.IdRoundTrip | pmconfigd/PMAssertions.h:113-125 | index to id and back is the identity for table indices |
| AssertionEngine.Engine.InsertByTimeout | pmconfigd/PMAssertions.c:4402-4443 | the search loop inserts where the sorted insertion says |
| AssertionEngine.Engine.RemoveTimed | pmconfigd/PMAssertions.c:4337-4359 | unlinked, counted down, and the type's timer right again when the first one left |
| AssertionEngine.Engine.CheckForActives | pmconfigd/PMAssertions.c:5133-5168 | tells whether some type linked to the effect is active, and whether this one is |
| AssertionEngine.Engine.SetKernelAssertions | pmconfigd/PMAssertions.c:5405-5543 | the incremental change of the kernel bits and the aggregate |
| AssertionEngine.Engine.ModifySettings | pmconfigd/PMAssertions.c:5274-5351 | the incremental change of the overrides and the aggregate |
| AssertionEngine.Engine.ProbeIndex | pmconfigd/PMAssertions.c:5974-5983 | the circular probe finds a free index whenever one exists |
| AssertionEngine.Engine.DoCreate | pmconfigd/PMAssertions.c:5937-6037 | succeeds exactly for a process that is not suspended, a known type and a free index, the first from the last one on; exact new record, nothing else changed |
| AssertionEngine.Engine.DoSetProperties | pmconfigd/PMAssertions.c:4928-5092 | exact errors and exact new record; other assertions unchanged but powerd's proxy; display handed off when a client's display assertion is turned off |
| AssertionEngine.Engine.DoRetain | pmconfigd/PMAssertions.c:6190-6207 | one more reference, or an error and no change |
| AssertionEngine.Engine.DoRelease | pmconfigd/PMAssertions.c:4592-4622 | one reference less; the last one removes the id, leaves others unchanged and hands the display off exactly when the assertion was a client's display assertion and not inactive |
| AssertionEngine.Engine.DelayDisplayTurnOff | pmconfigd/PMAssertions.c:2470-2521 | powerd's proxy is raised for five minutes, or for the display setting when that is shorter, whenever it exists or can be created |
| AssertionEngine.Engine.HandleAssertionTimeout | pmconfigd/PMAssertions.c:4255-4335 | exactly the assertions whose deadline passed are released or switched off, the others unchanged, and only deadlines strictly ahead are left |
| AssertionEngine.Engine.TimerFires | pmconfigd/PMAssertions.c:4361-4399 | the same when the armed timer goes off; afterwards it is armed for the first deadline left, or not at all |
| AssertionEngine.Engine.QueuedRun | pmconfigd/PMAssertions.c:4189-4211 | the same for a run that was queued, which is used up |
| AssertionEngine.Engine.NotForgotten | pmconfigd/PMAssertions.c:4189-4211 | a passed deadline has a due timer or a queued run |
| ProcessExit.HandleProcessExit | pmconfigd/PMAssertions.c:4650-4707 | no list and no table entry holds an assertion of the dead process, every other one is unchanged, each list of every type but the proxy's is its old self without the dead ones in order, each counter went down once for every flagged assertion of the process that was not inactive, and the display is handed off |
| ProcessExit.ExitCounts | pmconfigd/PMAssertions.c:4517-4534 | counting down that often is right if and only if no flagged suspended assertion was among them or nobody else's counts |
| ProcessExit.WalkList | pmconfigd/PMAssertions.c:4624-4648 | a walk that saves the next element visits every original member once although the callback unlinks the current one |
| Common.WalkStep | pmconfigd/PMAssertions.c:4640-4646 | the saved element is the head of the part not visited yet |
| Common.StandsAtStep | pmconfigd/PMAssertions.c:4640-4646 | one step of the walk, whether or not the callback unlinks |
| Suspension.HandleSuspend | pmconfigd/PMAssertions.c:4709-4751 | exactly what concerns the process is set aside with the time it had left, the rest unchanged but powerd's proxy, which is raised when a live display assertion is among them |
| Suspension.HandleResume | pmconfigd/PMAssertions.c:4752-4783 | exactly what concerns the process comes back, the rest unchanged |
| Retiming.EvalAllUserActivity | pmconfigd/PMAssertions.c:6218-6292 | system-timed user-activity assertions shift with the setting, become untimed at zero and timed otherwise; nothing else changes |
| Retiming.EvalAllNetworkAccess | pmconfigd/PMAssertions.c:6301-6374 | the same for network access and the idle setting |
| Retiming.RetimedLists | pmconfigd/PMAssertions.c:6218-6292 | membership kept, list sorted, no live system-timed assertion timed at zero and all timed otherwise |
| Retiming.ShiftExact | pmconfigd/PMAssertions.c:6246-6252 | the unsigned addition is the exact sum floored at now if and only if the sum fits 64 bits, or is negative and wraps to no more than now |
| Retiming.ChangeExact | pmconfigd/PMAssertions.c:6230 | the signed change of the display setting is the exact difference if and only if that fits 32 bits |
| Retiming.IdleShifts | pmconfigd/PMAssertions.c:6312 | the unsigned change of the idle setting shifts every deadline as the exact difference would |
| Retiming.DeclareUserActive | pmconfigd/PMAssertions.c:3544-3641 | the caller's assertion is extended, with "release" as what its timeout does, or refused with its level set all the same; without one a new one is created, system-timed; on success it is live with the deadline of the setting unless switched off |
| Retiming.DeclareNetworkClient | pmconfigd/PMAssertions.c:3643-3743 | the same for network access and the idle setting, which leaves the client's own timeout alone when it is zero |
| Reconfiguration.ConfigAssertionType | pmconfigd/PMAssertions.c:6553-6906 | a run-time change of handler, effect or flags keeps every invariant and the lists |
| Reconfiguration.DisableAssertionType | pmconfigd/PMAssertions.c:5234-5239 | the type gets the record its configuration gives it with one more disable, which has no effect; lists and the other types unchanged |
| Reconfiguration.EnableAssertionType | pmconfigd/PMAssertions.c:5241-5249 | the same with one disable less, not below zero |
| Reconfiguration.BackgroundCounts | pmconfigd/PMAssertions.c:6724-6758 | what a disable and an enable come to for background tasks, whose configuration counts on its own: exactly when the count stays, goes up by two, or goes up on an enable |
| Reconfiguration.PowerSourceChanged | pmconfigd/PMAssertions.c:6415-6441 | a power-source change keeps every invariant, moves network access to the effect of the source and caps interactive-push deadlines |
| Reconfiguration.EvalAllInteractivePush | pmconfigd/PMAssertions.c:6377-6411 | no live assertion of the type outlives the cap, order kept |
| Reconfiguration.BackgroundDisable | pmconfigd/PMAssertions.c:6724-6758 | exactly when a configuration leaves alone the part of the disable count that others asked for |
| Reconfiguration.BackgroundReenabled | pmconfigd/PMAssertions.c:6749-6755 | two configurations without dark-wake tasks undo a disable that someone else asked for |
| Reconfiguration.Boot | pmconfigd/PMAssertions.c:7607-7614 | the configured engine satisfies every invariant |
| EngineLimits.NoDisplayGap | pmconfigd/PMAssertions.c:4536-4545 | after the hand-off the display bit is set before and after the release handler runs |
| EngineLimits.LimitedPowerCounts | pmconfigd/PMAssertions.c:4855-4869 | after a limited-power change the counter matches if and only if the assertion is live, or its flag went off at count zero |
| EngineLimits.SuspendedReleaseCounts | pmconfigd/PMAssertions.c:4531-4534 | after releasing a suspended assertion the counter matches if and only if the flag was clear or the count zero |
| EngineLimits.RelinkCounts | pmconfigd/PMAssertions.c:4154-4166 | after linking a live assertion the counter matches if and only if its flag is clear or the type counts flags now |
| EngineLimits.PushForgotten | pmconfigd/PMAssertions.c:6797-6833 | raised valid on battery, keep-alive on, new timeout, keep-alive off: the counter of interactive push is zero and the type reads as inactive on battery although its live assertion is valid there |
| EngineLimits.ForgetPush | pmconfigd/PMAssertions.c:6797-6833 | the engine, started and run with these events, gets there |
| ProcessStats.Run | pmconfigd/PMAssertions.c:3281-3349 | in any run, accumulated plus running time is the number of seconds in which, as the events tell, at least one assertion was counted, and the count is the number of those that are |
| ProcessStats.SamplesDoNotMatter | pmconfigd/PMAssertionLog.c:1233-1240 | what the events tell is the same without the samples |
| ProcessStats.Stats.Raise | pmconfigd/PMAssertions.c:3319-3333 | an admitted assertion is counted once |
| ProcessStats.Stats.Release | pmconfigd/PMAssertions.c:3335-3343 | it is no longer counted |
| ProcessStats.Stats.Sample | pmconfigd/PMAssertionLog.c:1233-1240 | sampling moves running time into the report and changes no total |
| SleepCheck.Run | pmconfigd/PMAssertions.c:654-800 | for every interleaving calls, rounds and answers are what the protocol, kept without token, pending set or counter, makes of the events; each call has exactly one answer unless its round is open, and then the timer is armed; no reference is left behind |
| SleepCheck.Check.Call | pmconfigd/PMAssertions.c:708-800 | overlapping calls and calls with nobody to ask are answered "allowed" at once, others open a round with exactly the processes that can answer |
| SleepCheck.Check.Reply | pmconfigd/PMAssertions.c:654-705 | stale tokens, error replies and late replies change nothing; an accepted one is counted once, the last one concludes |
| SleepCheck.Check.TimerFires | pmconfigd/PMAssertions.c:624-633 | a round in which replies are missing is concluded |
| SleepCheck.AllowedIffNoBlockers | pmconfigd/PMAssertions.c:685-702 | the answer tells whether an accepted reply reported a blocker, if and only if the blockers do not sum to a positive multiple of 2^32 |
| SleepCheck.BlockersWrap | pmconfigd/PMAssertions.c:685-702 | two replies whose blockers fill 32 bits are taken for none |
| ActivityLog.Log.Append | pmconfigd/PMAssertionLog.c:195-310 | the ring keeps refining the log; the reader is notified at exactly the 58th unread entry |
| ActivityLog.Log.Read | pmconfigd/PMAssertionLog.c:793-878 | for every cursor and every length of the log: exactly the missing entries in order, or the latest 64 with an overflow; only a first read just after the index has wrapped around gets these rotated, and how |
| ActivityLog.RotationShows | pmconfigd/PMAssertionLog.c:823-832 | entries that differ come in order if and only if the rotation is by none |
| ActivityLog.ReadRotated | pmconfigd/PMAssertionLog.c:823-832 | a first read after 2^32 + 1 entries that differ gets the newest one first |
| ActivityLog.Follow | pmconfigd/PMAssertionLog.c:793-878 | reads with the returned cursor concatenate to the log with no gap and no duplicate unless one overflows; none does within 64 entries |
| ActivityLog.SliceIsLog | pmconfigd/PMAssertionLog.c:848-872 | a slice of the ring that wraps at most once is a stretch of the log |
| WakeScheduler.Run | pmconfigd/AutoWakeScheduler.c:349-413 | any run whose cancel-alls are written, the repeating events changing with any step, is a trace of the steps it was given, and in every state a timer armed for a date ahead is armed for the least date of all own, shared and repeating events that are not past; every timer that goes off delivers the event on record |
| WakeScheduler.DeliversThroughout | pmconfigd/AutoWakeScheduler.c:315-404 | every armed timer has an event of its own date on record, and delivers that, in every run in which no addition is taken back that matches an event on record |
| WakeScheduler.FailedWrite | pmconfigd/AutoWakeScheduler.c:1297-1300 | an addition taken back keeps that true if and only if the event taken out is not on record for an armed timer |
| WakeScheduler.DeliverNothing | pmconfigd/AutoWakeScheduler.c:1112-1119 | the same request twice, the second time not written: the timer goes off for the first one and delivers nothing |
| WakeScheduler.AnewDelivers | pmconfigd/AutoWakeScheduler.c:349-404 | a timer decided just now is armed for the event put on record, the next one there is |
| WakeScheduler.Scheduler.TimerExpires | pmconfigd/AutoWakeScheduler.c:315-344 | the event on record is delivered, and the next one is put on record and armed for |
| WakeScheduler.Scheduler.Request | pmconfigd/AutoWakeScheduler.c:1189-1345 | exact results; add gives the unpurged events plus the new one, cancel succeeds exactly when date and application match; every dependant's timer is refreshed |
| WakeScheduler.Scheduler.PurgePastEvents | pmconfigd/AutoWakeScheduler.c:744-784 | the prefix purge is the filter of events that are not past |
| WakeScheduler.Scheduler.RemoveEvent | pmconfigd/AutoWakeScheduler.c:1081-1132 | taken out exactly when an event of that date and application exists, and no longer current anywhere |
| WakeScheduler.Find | pmconfigd/AutoWakeScheduler.c:1092-1129 | the early-exit search finds an event exactly when there is one |
| WakeScheduler.Scheduler.CopyEarliestUpcoming | pmconfigd/AutoWakeScheduler.c:839-901 | an event with the least date among own, shared and repeating events that are not past |
| WakeScheduler.Scheduler.CancelAll | pmconfigd/AutoWakeScheduler.c:1134-1184 | all queues empty and counted as such exactly when every write succeeded |
| WakeScheduler.Scheduler.DidWake | pmconfigd/AutoWakeScheduler.c:259-271 | every queue purged, every timer decided anew from what is left |
| WakeScheduler.Scheduler.CalendarChange | pmconfigd/AutoWakeScheduler.c:279-296 | queues kept, every timer decided anew for the new time |
| WakeScheduler.Scheduler.RepeatsChanged | pmconfigd/AutoWakeScheduler.c:416-438 | when the repeating events are set or cancelled, exactly the timers of the types they had or have are decided anew, for both wake and power-on when the type is shared; every other behaviour is untouched |
| WakeScheduler.UpcomingIsSuffix | pmconfigd/AutoWakeScheduler.c:762-779 | in a sorted queue the events that are not past are a suffix |
| WakeScheduler.ArmedForNext | pmconfigd/AutoWakeScheduler.c:349-413 | an armed timer whose date is ahead is for the next event |
| WakeScheduler.ArmedIffNextInReach | pmconfigd/AutoWakeScheduler.c:386-404 | right after a decision a timer is armed exactly when the next event is neither too near nor too far |
| WakeScheduler.NearEventBlocks | pmconfigd/AutoWakeScheduler.c:393-407 | an event less than a millisecond ahead leaves every later one unarmed |
| SmbusDriver.Run | AppleSmartBatteryManager/SmbusHandler.cpp:178-360 | in any run requests, submissions and completions are what the events make them; each accepted request is answered once, given up for a later one, or in flight; every answer reaches its client, and the driver panics, exactly as the next two rows say |
| SmbusDriver.AnswersRight | AppleSmartBatteryManager/SmbusHandler.cpp:280-345 | every answer reaches the client that asked if and only if, each time a latest completion ends a request, the last request that was allowed to work, well-formed or not, came from that request's client |
| SmbusDriver.PanicsWhen | AppleSmartBatteryManager/SmbusHandler.cpp:237-275 | the driver panics if and only if a latest completion ends well while the last allowed request was of an unknown type, unless that one's command makes the reading an absurd zero |
| SmbusDriver.OrderlyRun | AppleSmartBatteryManager/SmbusHandler.cpp:280-345 | with no malformed request while one is in flight neither happens |
| SmbusDriver.AnswerGoesAstray | AppleSmartBatteryManager/SmbusHandler.cpp:296-325 | a refused extended read by client 2 while client 1's reading is in flight: the error of that reading is told to client 2 |
| SmbusDriver.DriverPanics | AppleSmartBatteryManager/SmbusHandler.cpp:296-345 | a refused request of an unknown type in its place: the reading ends well and the driver panics |
| SmbusDriver.WireThroughout | AppleSmartBatteryManager/SmbusHandler.cpp:206-262 | unless it was overwritten, the request in flight is what the bus was given last, retries and the second stage of an extended read included |
| SmbusDriver.RetryCarriesOther | AppleSmartBatteryManager/SmbusHandler.cpp:206-224 | after a refused request overwrote the one in flight, a retry submits the refused one |
| SmbusDriver.Driver.SmbusCompletion | AppleSmartBatteryManager/SmbusHandler.cpp:178-278 | completions of earlier submissions change nothing; the latest one is answered or submitted again |
| SmbusDriver.Driver.PerformTransaction | AppleSmartBatteryManager/SmbusHandler.cpp:280-360 | what goes on the bus and what is refused; a malformed request is refused but takes over the callback of the one in flight |
| SmbusDriver.Driver.RequiresRetryGetMicroSec | AppleSmartBatteryManager/SmbusHandler.cpp:62-148 | exactly when a retry follows, with an index inside the delay table |
| SmbusDriver.Driver.SubmissionsBounded | AppleSmartBatteryManager/SmbusHandler.cpp:118-145 | at most six submissions a stage and twelve for an extended read, outside readings that may not be zero |
| SmbusDriver.ReadForever | AppleSmartBatteryManager/SmbusHandler.cpp:88-113 | zero capacities are read again any number of times without an answer to the client |
| ImageTransfer.Updater.WriteDataData | AppleSmartBatteryManager/AppleGasGaugeUpdate.cpp:437-501 | on success the frames sent join to the image padded with zeros, each acknowledged under its own operation after its command and followed by a ready state |
| ImageTransfer.Updater.PollUpdaterStatus | AppleSmartBatteryManager/AppleGasGaugeUpdate.cpp:171-221 | the first state read that is not busy, under a notification for the status command; busy only after exactly timeout / retry + 2 commands; its result is the one the answers lead to |
| ImageTransfer.PollReads | AppleSmartBatteryManager/AppleGasGaugeUpdate.cpp:171-221 | polling ends with a state if and only if that is the first one read that is not busy, within the polls there are |
| ImageTransfer.ImageSucceeds | AppleSmartBatteryManager/AppleGasGaugeUpdate.cpp:568-685 | the transfer of an image succeeds if and only if the first state is ready, success or reset and every exchange, from the start over the frames to the block count, is written, acknowledged and followed by its state as the first not busy one within its polls |
| ImageTransfer.PromptSucceeds | AppleSmartBatteryManager/AppleGasGaugeUpdate.cpp:568-685 | a controller that serves every access at once does all that |
| ImageTransfer.Updater.WriteImage | AppleSmartBatteryManager/AppleGasGaugeUpdate.cpp:568-685 | start frame, image frames and announced block count in order, each acknowledged under its own operation and followed by the state expected, everything between being polling; its result is the one the answers lead to |
| ImageTransfer.Updater.StartImage | AppleSmartBatteryManager/AppleGasGaugeUpdate.cpp:360-434 | the image type in the first byte of a cleared frame, acknowledged and followed by ready |
| ImageTransfer.AnnouncedCount | AppleSmartBatteryManager/AppleGasGaugeUpdate.cpp:660-663 | the announced count is the number of frames if and only if the image has fewer than 65536 blocks |
| ImageTransfer.FramesJoin | AppleSmartBatteryManager/AppleGasGaugeUpdate.cpp:447-456 | the first frames of an image join to its prefix, all of them to the padded image |

## Findings

Properties that are false of the code have their exact condition or a concrete case in the table. In short:

- A limited-power change counts inactive and suspended assertions, and a release counts a suspended one down twice (`EngineLimits`).
- While keep-alive is on, interactive push counts no flags, but removal counts them down: an assertion that is valid on battery and then
  given a new timeout, or switched off and on, is no longer counted, and once keep-alive is off the type reads as inactive on battery
  (`RelinkCounts`, `StepCounts`, `PushForgotten`).
- A change of the display or idle setting does not reach suspended assertions, so a remainder can come back below the new setting; lowering
  the setting then wraps the unsigned deadline around to almost 2^64 (`FloorStep`, `FloorLost`).
- A declaration for a suspended client is refused, but sets the level property first, so an assertion that was switched off comes back live,
  exactly when it was declared while suspended (`SuspendedStays`, `RoundTrip`, `Revived`).
- An assertion switched on whose deadline had passed when it was suspended comes back without a deadline, and one that had timed out comes
  back live (`SuspendResume`).
- While dark-wake tasks are off, each reconfiguration of background tasks takes one off the disable count, because the record of the
  daemon's own disable is never cleared (`BackgroundDisable`, `BackgroundReenabled`).
- Blockers are summed in 32 bits (`AllowedIffNoBlockers`, `BlockersWrap`); after 2^32 log entries a first read may return the ring rotated
  (`Log.Read`, `RotationShows`, `ReadRotated`).
- An event that is scheduled again and then not written takes the record of the first one with it: its timer goes off with no event to deliver
  (`FailedWrite`, `DeliverNothing`).
- At 1000 scheduled events cancels are refused too (`Request`, `CancelAll`); after a failed write in a cancel-all the count is too high.
- A malformed SMBus request redirects the completion of the one in flight, and an unknown operation type then ends in a panic
  (`AnswersRight`, `AnswerGoesAstray`, `PanicsWhen`, `DriverPanics`), and a retry submits it (`RetryCarriesOther`); zero capacities are
  re-read without bound (`ReadForever`).

## Left out

- Preconditions the engine's code needs are stated as such: one update does not combine level off with a timeout, the limited-power property of a not-valid-on-battery type is changed for live assertions only, powerd does not release or edit its proxy by id, powerd does not exit and powerd and pid 0 are not suspended. `EngineSteps.Possible` lists them; `Run` passes over other events.
- Reconfiguration.Boot: a boot during a sleep-service wake without keep-alive, which would leave interactive push without any handler to call later.
- Process structures: retain counts, creation and reuse of pids. A process id stands for the process.
- App-sleep counts, system qualifiers, lid and silent-running properties, framework and resource properties of assertions.
- The global per-type timeout and assertion drop.
- The battery-command, idle-enable and display-wake handlers: they own no kernel bit and no override here.
- A creation date before boot: the age of a new assertion is at most the current time.
- A timer-event on a type whose timer was never created, and timer leeway.
- The signal to a process that asked to be killed on timeout; its exit is an event of its own.
- ProcessStats.Stats.Release: the account is the one the assertion was raised under; that a resumed assertion is not counted again until it is next raised (`pmconfigd/PMAssertions.c:4507`, `pmconfigd/PMAssertions.c:4511`) is not part of the accounting model, nor are buffers dropped for dead processes.
- FollowedDeadlines.FloorStep: settings below 2^32 / 120 minutes and times below 2^62 seconds, where no product or sum leaves its type.
- FollowedDeadlines.FloorThroughout: settings below 2^32 / 120 minutes, clock and clients' times below 2^60 seconds, fewer than 2^29 changes of the setting.
- AssertionEngine.Engine.DoSetProperties: level off together with a timeout, a limited-power change on an assertion that is not live (both covered by lemmas of their own, `WalkOrder` and `LimitedPowerCounts`), and the key that makes an assertion asynchronous; the keys modelled are level, timeout, limited power, timeout action and on-behalf-of.
- WakeScheduler.Run: cancel-alls are written; `CancelAll` itself covers a failed write, after which the count stays too high. Repeating events that fail to be written change without any timer being decided, which is a change of the repeating events without a `RepeatsSet` step.
- ActivityLog.Follow: logs shorter than 2^32 entries, because the cursor cannot tell longer gaps.
- The callouts of the wake scheduler: what is done with an event that is put on record or delivered.
- Scheduled events without a date, boot loading of the queues from disk, leeways and `checkPendingWakeReqs` beyond its switch of purging, the repeating-event calendar (a repeating event is given, and lies ahead). Preferences are a success or failure flag.
- SmbusDriver.Driver.SmbusCompletion: a submission completes at most once and before 2^32 later ones.
- External SMBus transactions, exclusive access, inflow and charge commands, the digest, manifest and certificate variants of the image transfer with their signature and crypto steps.
- Header constants of the gas-gauge updater: `gasgauge_update.h` is not part of this model, so they are parameters.
- Message passing, entitlements, reference counting of property lists, logging text and registry publishing.
