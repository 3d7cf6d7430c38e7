# Verified model of the GPU lease protocol and its command line

This project models, in Dafny, the part of the offload harness that reserves graphics cards: the reserve and its hidden
holder, the drain, unload and warm-back of the model server's agent seat, the fence that decides whether a lease is lost, and
the command-line encoding the two processes talk through. Beside it stand two smaller state machines (the fault-summary cache
and the term check) and the config drift classifier. `dafny verify dfyconfig.toml` checks all of it.

How it is built:

- Time is an integer number of milliseconds. What a loop meets (a read of the seat, a look at the record, an answer of the
  model server, the moment each happens) is a function of the read's number, so a theorem about a loop holds of every such world.
- Code that loops or writes fields is a method or a class, proved against a specification of what it returns: for each polling
  loop a function says which reason a read gives to stop, and the method ends at the first read that gives one, with that reason.
  What such a function means is stated a second time, in the plain fields of what the program reads, as an if and only if.
- What several processes do together is a transition system (`HoldProtocol`, `Debt`, `Faults`), with theorems over all traces
  and concrete traces where a weaker promise would fail. The loops are tied to it (`HoldLoops.PollIsTwoHolderSteps` and the
  `ensures` of the record's writers, which name the protocol's own functions).

What the proofs say about the code, beyond its comments:

- The hidden holder never lets a lease go at a wait's end under a live detached reserve that re-stamps at most 60 s late.
  What can end its hold beside such a reserve is a loss seen on every look (a record unreadable through the whole window is
  one) or the expiry it was asked to release at. The order of its two reads (clock, then record) is what makes that true, and
  60 s cannot be raised by a millisecond.
- A detached lease that still asks for the host and never got a stamp is never released on a wait's end, and such a lease is
  reached.
- A wrapper whose record is unreadable stops its command before a stale heartbeat can hand its cards on. One whose record reads
  but whose heartbeat cannot be written goes on past the TTL for any number of ticks. Once its window has ended, its
  cards can be handed on under the running command after seven or more unwritten heartbeats in a row, never after six (waits
  at most 418 ms late).
- What a stuck drain can have overlooked is exactly a single idle read between equal busy ones, and it can be called stuck on
  them at the least bound a reserve has, 120 s.
- Clearing the cards spares the memory stack and the models a lease leaves alone, except the agent seat itself: a seat on other
  cards is not on the protect list, and the total unload route takes it down.
- The warm-back debt (an unload under a lease took the loaded seat down, whatever its run had read) survives every
  interleaving without one of five gaps, leases lost at any moment and operators' warms included. The gaps: the only run that
  owes the mark dies, gives its unload up or cannot write; a request lands after its run died or gave up on it; a run that
  read the seat as not resident takes it down all the same, because somebody loaded it after the reading or because the lease
  holds other cards and asked for the total route; the mark is written while somebody who saw the seat loaded earlier has yet
  to clear (a warm's clear after a good answer asks no guard, so an operator's `gpu release --warm-seat` can do it with no
  lease lost); the seat is seen loaded while a cancelled request for it is still on its way. The gaps are exact: a step is one
  if and only if a debt can be lost after it without another.
- One unload alone loses the debt exactly when it takes down a seat that is up and marks nothing. The code's comment says a
  seat on other cards "was never this lease's to unload"; the total route unloads it all the same, and nobody owes it then.
- The two tests for a settled seat (one checks "not stopping", the other does not) agree on every reading the reader can return.
- A fault refresh that never ends is never started over; only its own budget ends it.

Layout: `common`, `text`, `deadlines` and `flags` are shared vocabulary; every other file is one component.

## Model

| member | source | states |
|---|---|---|
| Fence.ConfirmFence | gpu_cmd.go:1743-1783 | the confirmation is exact for every sequence of looks: OK iff there was no error or some look passes; lost or unreadable only if the first error and at least three looks all failed; unreadable iff the third look and the whole retry window were unreadable; it ends |
| Fence.StopsOnce | gpu_cmd.go:1749-1783 | what the looks find fixes where the confirmation ends |
| Fence.AConfirmationStopsWhere | gpu_cmd.go:1743-1783 | the confirmation ends, and only then, at the first look that passes, at a verdict from the third look on, or when the window is over |
| Fence.ConfirmIsPrompt | gpu_cmd.go:1738-1783 | it ends within the three pauses, the retry window, one poll and four lateness allowances, however many polls that takes |
| WrapperHeartbeat.HandleTick | gpu_cmd.go:1007-1035 | one tick keeps the command exactly when the lease was shown to be its own |
| WrapperHeartbeat.TendCommand | gpu_cmd.go:979-1050 | the command is stopped at the first tick that cannot show the lease to be its own, at no other, and within one tick and one confirmation of the last proof |
| WrapperHeartbeat.RunningMeansProved | gpu_cmd.go:979-1050 | whenever the command runs, the lease was proved its own at most 25.4 s (plus lateness) before |
| WrapperHeartbeat.LastProofIs | gpu_cmd.go:1011-1036 | a proof is a heartbeat that was written or a look that passed, and since the last one every tick had neither |
| WrapperHeartbeat.UnreadableStopsBeforeReclaim | gpu_cmd.go:1011-1030 | a wrapper that cannot read its record has stopped its command before a stale heartbeat and an expired window can hand the cards on |
| WrapperHeartbeat.StaleUnderACommand | internal/gpulease/gpulease.go:1225-1247 | cards reclaimable under a running command name the tick whose heartbeat could not be written while the record was still its own |
| WrapperHeartbeat.SevenHeartbeatsMustGoUnwritten | gpu_cmd.go:979-1036 | over all runs whose waits end at most 418 ms late: cards can be handed on under a running command after n unwritten heartbeats in a row if and only if n is at least 7 |
| WrapperHeartbeat.TicksKeepUp | gpu_cmd.go:1005-1036 | by induction over the ticks: with u heartbeats unwritten the next tick begins within u + 1 ticks of the last good one, each at most its lateness long |
| WrapperHeartbeat.UnwrittenHeartbeatOutlivesTheTTL | gpu_cmd.go:1031-1036 | ... which goes on: for every n from 7 up, a run of n unwritten heartbeats past the TTL and still running |
| HoldProtocol.HolderNeverActsUnderALiveReserve | gpu_cmd.go:1533-1545 | over every trace, failed reads and every other exit of the holder included: while a live reserve keeps its promises (re-stamps less than 60 s late, moves the end on within the grace), the holder never decides on a stamped end to release |
| HoldProtocol.MomentStaysAhead | gpu_cmd.go:1588-1614 | under a punctual live reserve the stamped moment plus the grace is never behind the clock |
| HoldProtocol.RecordFirstReleasesUnderALiveReserve | gpu_cmd.go:1538-1543 | with the record read before the clock, a trace in which a punctual live reserve loses its lease |
| HoldProtocol.ALaterReserveLosesItsLease | gpu_cmd.go:1569-1574 | the 60 s of lateness is tight: one millisecond more loses the lease, reads in the right order |
| HoldProtocol.IdleHoldIsBounded | gpu_hostram_await.go:382-411 | however the reserve ended, at d, without admission: once a stamp is on the record the holder has decided to release by d + max(holdMax + 60 s, 15 min) + 30 s + one iteration |
| HoldProtocol.UnstampedLeaseIsNeverReleased | gpu_cmd.go:1541-1545 | with no stamp on the record the holder never acts on a wait's end |
| HoldProtocol.AnUnstampedLeaseIsHeldForEver | gpu_cmd.go:1605-1611 | a trace that reaches such a lease under a dead reserve, held for any time |
| HoldProtocol.AdmittedLeaseIsLeftAlone | gpu_cmd.go:1541-1545 | once the figure is admitted (asked = 0) the holder never acts on a stamp |
| HoldLoops.LeaseRecord.StampHold | internal/gpulease/hostram.go:536-600 | a stamp lands only on a lease that is there and still asks for the host |
| HoldLoops.LeaseRecord.Admit | internal/gpulease/hostram.go:603-768 | admission clears the asked figure and its stamp and declares the figure, in one step |
| HoldLoops.OuterBound.Stamp | gpu_cmd.go:1588-1614 | one outer stamp is the protocol's: now + bound + slack, or the wait's end never behind now + slack; a failed write keeps the last |
| HoldLoops.AwaitHostRAMBounded | gpu_hostram_await.go:211-281 | the wait ends at the first look that gives a reason, with that reason; the figure asked is declared exactly when the host admits it (or another caller had it admitted) and the write lands; a lease gone leaves no record; otherwise the figure stays asked under the wait's own end if any stamp landed; the detached form never looks at the host unstamped |
| HoldLoops.ALookComesTo | gpu_hostram_await.go:211-281 | for each of the eight ends, and for going on, exactly which look comes to it: presence, an earlier admission, the cancel, the stamp, the host's answer and the two ends of the wait |
| HoldLoops.AStampIsOnTheRecord | gpu_hostram_await.go:211-281 | the wait's end is stamped iff one of its tries (one a look, or four at the first) landed on a lease that was there |
| HoldLoops.WaitIsBounded | gpu_hostram_await.go:211-218 | every look but the last was before the earlier of the hold bound and the deadline |
| HoldLoops.StampWait | internal/gpulease/hostram.go:603-680 | the wait's stamp is on the record iff some try landed |
| HoldLoops.ReleaseAfterRAMWait | gpu_hostram_await.go:404-428 | a record that cannot be read is held; the push-out is written before the release; what is reported as released is gone |
| HoldLoops.RunHold | gpu_cmd.go:1504-1560 | the holder lets go at the first poll that gives a reason, and for no other: past its deadline only if it was asked to release at expiry, a loss seen on every look, or a wait's end more than 30 s past on a lease that still asks |
| HoldLoops.HolderLeaseGone | gpu_cmd.go:1715-1722 | gone iff the fence failed and failed on every further look |
| HoldLoops.PollIsTwoHolderSteps | gpu_cmd.go:1533-1548 | the loop's hold test decides as the protocol's two holder steps do, a record that cannot be read included |
| HoldLoops.RunHoldBesideALiveReserve | gpu_cmd.go:1504-1560 | over polls read from a trace with a punctual live reserve, the loop never ends at a wait's end; it ends iff a poll shows the expiry asked for or a confirmed loss |
| Drain.DrainUntil | gpu_drain.go:113-213 | the drain ends at the first read that gives a reason, with the strongest reason it gives: drained, stuck, out of time, cancelled; it terminates |
| Drain.WhyADrainEnds | gpu_drain.go:113-213 | drained before stuck before out of time before cancelled, and no read before the last was any of them |
| Drain.StuckInTheReads | gpu_drain.go:145-198 | in the reads themselves: stuck iff since some read at least stuckAfter ago every read was idle or had the last one's seat, requests in flight, error text and runs |
| Drain.DrainedMeansSeenIdle | gpu_drain.go:113-213 | success is exactly this: not loaded and no run registered, or two consecutive loaded-and-idle reads |
| Drain.StuckFromTheFirst | gpu_drain.go:187-198 | the loop's stuck clock is exact: stuck iff every busy read since some read at least stuckAfter ago had the same key |
| Drain.StuckOverlooksIdleReadsOnly | gpu_drain.go:187-198 | a stuck verdict passed over another state of the seat if and only if it read the seat idle, once at a time, since |
| Drain.ReadsAreBounded | gpu_drain.go:113-213 | with a positive poll interval the number of reads is bounded by the time to the deadline |
| Drain.OneIdleReadDoesNotCountAsProgress | gpu_drain.go:290-300 | a whole drain that is called stuck at the least bound a reserve has, over a seat idle at every other read |
| Warm.WatchWarm | gpu_drain.go:598-634 | the watch ends at the first read that says something, with the strongest thing it says |
| Warm.AReadSays | gpu_drain.go:598-634 | what each read of a watch comes to, in its fields, the quarter of an hour and the cancel |
| Warm.WarmSeatGated | gpu_drain.go:393-460 | at most ten requests; the warm ends with the first request that ends it, and as that request, its watch, the window and the guards decide |
| Warm.ARequestEnds | gpu_drain.go:393-460 | which answers, watches, moments and guards end the warm well, refuse it, or send it again: an iff for each |
| Warm.AResendIsExplained | gpu_drain.go:508-531 | a re-send passed the guards, and follows only a failure a reload explains: never an answer below 500, a died start or a load |
| Warm.SuccessWasSeen | gpu_drain.go:393-460 | success is a 2xx or a read its own watch ended on, of the seat loaded and not starting |
| Warm.ALoadIsASuccess | gpu_drain.go:393-460 | a request answered 2xx is never reported as a failure |
| Warm.NineBackOffsFitTheWindow | gpu_drain.go:637-643 | nine back-offs sum to 55 s of the 60 s window, a tenth would pass it |
| Warm.BackOffFits | gpu_drain.go:433-446 | a re-send whose back-off ends inside the window is at most the tenth request |
| Warm.WarmBackGuarded | gpu_drain.go:1241-1336 | nothing is sent exactly when nothing is owed or a guard refuses; before every request the lease was held, nobody queued, no other lease sat on the cards and the host allowed it; the marker is decided by how the warm ended, after a failure under a last look at all four |
| Warm.OnlyASeenLoadPays | gpu_drain.go:1295-1336 | a debt is paid only by an answered load, a watch that ended on a loaded seat, or the confirming read under guards that allow it |
| Warm.SettledTestsAgree | gpu_drain.go:1351-1359 | the warm's and the status verb's tests of a settled seat agree on every reading the reader can return, and differ exactly on one it cannot |
| Maintain.UnloadSeat | gpu_drain.go:307-334 | the per-model route first; the total route only after it failed and with nothing to protect |
| Maintain.UnloadOthers | gpu_drain.go:1044-1053 | every other model is asked for in order, and the ones that stay are counted, not fatal |
| Maintain.OneRow | gpu_drain.go:1002-1032 | a listed model goes iff it is running, is not the agent seat and is not of the stack; of the stack, it is kept |
| Maintain.AClearingAsksFor | gpu_drain.go:951-966 | the requests of a clearing: the seat first, then every leaving model once and in order, the total route only right behind a refusal with nothing to protect; granted and failed add up to what was asked |
| Maintain.ClearingSparesWhatMustStay | gpu_drain.go:907-966 | on every route and whatever is answered, no model of the stack and none the scope leaves alone goes down, if and only if the agent seat is not exposed |
| Maintain.ASeatOnAnotherCardIsExposed | gpu_drain.go:943-950 | the exposed corner is real: a seat on other cards goes down with the total route |
| Maintain.AnUnreadableListShutsTheTotalRoute | gpu_drain.go:943-950 | with no list to read and a stack configured, nothing but the seat's own unload is asked for |
| Maintain.UnloadStep | gpu_drain.go:900-985 | the debt is marked iff the lease's cards hold the seat, it was not positively read as cold or leaving, and the unload finished or was cancelled |
| Maintain.WhyAStepFails | gpu_drain.go:844-962 | a step fails in the drain, in a restamp that was due, or on a seat that does not go, in that order |
| Maintain.FreedNothingMeansNothingWasThere | gpu_drain.go:804-813 | the unload is said to have freed nothing iff the seat was not resident and no other model was leaving |
| Maintain.MaintainSeat | gpu_drain.go:844-988 | drain, restamp, unload, in that order: the failure and the moment it ends follow from the world; success did every step asked for and no other; a failed drain tries to take its stamp off; a lease already gone never clears the seat |
| Maintain.WhatAStepSays | gpu_drain.go:844-985 | its events in the options and the reading: who drains, which stamp goes on, and that every seat on these cards not positively read as cold or leaving is marked |
| Debt.DebtIsConserved | gpu_drain.go:900-985 | over every interleaving without one of the five gaps, lost leases and operators' warms included: a loaded seat that an unload under a lease took down is on the marker, or owed by a run that will mark it, until it is seen loaded |
| Debt.AGapIsWhatCanLoseTheDebt | gpu_drain.go:900-985 | the gaps are exact: a step is one if and only if a debt can be lost after it without another gap |
| Debt.ReadersCome | internal/gpulease/waiters.go:620-651 | nobody comes to be on the way to a marker but by seeing the seat loaded, and no reading passes a fresh mark: the whole-second stamp rule |
| Debt.AnOvertakenMarkIsLost | gpu_drain.go:1330-1334 | from every state: the mark of the only run that owes one goes with the old marker, if a warm that was answered or a status command has yet to clear that |
| Debt.AMarkPaidTooEarlyIsLost | gpu_drain.go:951-960 | from every state: a cancelled unload that lands after its mark was paid is owed by nobody |
| Debt.AnOperatorsWarmReachesIt | gpu_cmd.go:1895-1918 | the state is reached by an operator's warm of a free card, with no lease lost |
| Debt.ALostLeaseReachesIt | gpu_drain.go:1330-1334 | the state is reached by a lease lost under a warm that was answered |
| DebtRuns.UnloadIsARun | gpu_drain.go:900-985 | the unload step, on the seat's cards or not, is the model's events on every box: a seat that was up is a debt iff a request for it was granted, and the step calls for a mark exactly when its run then owes one |
| DebtRuns.AnUnloadAloneLosesTheDebtIff | gpu_drain.go:900-985 | on a box that owes nothing, one unload alone loses a debt iff it takes down a loaded seat and marks nothing |
| DebtRuns.ATrueReadingLosesNothing | gpu_drain.go:900-985 | a reading true of the seat is enough: an unload alone on the seat's cards loses no debt, however its requests end, and owes the mark of a loaded seat it took down |
| DebtRuns.ALeaseOnOtherCardsTakesTheSeatIff | gpu_drain.go:943-966 | a lease whose cards do not hold the seat can take it down iff some other model is to go and nothing is protected; it never marks |
| DebtRuns.ALeaseOnItsCardsTakesTheSeatIff | gpu_drain.go:307-334 | a lease whose cards hold the seat takes it down iff its own unload or an open total route is granted |
| DebtRuns.ASeatOnAnotherCardIsLost | gpu_drain.go:943-966 | and does: an unload that ends as a success and leaves the other card's seat down, owed by nobody |
| DebtRuns.WarmBackIsARun | gpu_drain.go:1241-1336 | so is the warm-back, of a cold seat or a loaded one: it pays the debt and clears the marker, or leaves both, as how it ended decides |
| Debt.AnAbandonedUnloadLosesTheDebt | gpu_drain.go:950-962 | from every state: a request that takes the loaded seat down after its run died or gave up on it is owed by nobody |
| Debt.AnUnreadSeatIsLost | gpu_drain.go:900-966 | from every state: a loaded seat taken down by a run that read it as not resident is owed by nobody |
| Debt.ALoadAfterTheReadingReachesIt | gpu_drain.go:907-950 | the state is reached by a load between the residency reading and the request |
| Debt.AnUnwrittenMarkLosesTheDebt | gpu_cmd.go:1868-1876 | from every state: the only run that owes the mark of a debt no marker holds loses it by dying, by a failed unload or by a failed write |
| Debt.AStatusCommandReachesIt | internal/gpulease/waiters.go:627-651 | the state is reached by a status command between its second look and its removal |
| Debt.AColdSeatOwesNothing | gpu_drain.go:900-908 | with nobody who owes and no unload of a seat that read resident no marker ever appears, gaps or not |
| Debt.OnlyASeenSeatPays | gpu_drain.go:1241-1336 | skipped, refused, lost and failed warms, and status reads that saw no loaded seat, never clear a marker |
| Reserve.RunRound | gpu_cmd.go:784-874 | one round of the loop: ready only if the maintain step and (if deferred) the wait for the host succeeded, with the figure asked declared on the lease's record; lost only on a verdict seen on every look |
| Reserve.WhyARoundEnds | gpu_cmd.go:784-874 | a round that failed anywhere, drain, stamp, unload or host wait, with no signal and no passed hold bound, goes again iff its lease is lost and is a seat fault iff it is not |
| Reserve.ALossIsSeenOnEveryLook | gpu_cmd.go:840-857 | lost means: the fence and every look after it failed, at least three, the last with a verdict, past the third only unreadable ones inside 10 s |
| Reserve.HostWaitIsBounded | gpu_hostram_await.go:133-135 | the wait of a round ends by the host deadline and one look |
| Reserve.Prepare | gpu_cmd.go:784-890 | the loop's end is fixed by its rounds: at most five requeues, the lease the last one took, the outcome of the last round |
| Reserve.RunReserve | gpu_cmd.go:784-978 | the command starts last and once, under the lease all its preparation ran under, its declaration admitted on that lease's record right before; every new place in line follows a confirmed loss and the release of what was lost |
| Reserve.WhyAReserveEnds | gpu_cmd.go:784-978 | every outcome in what the last round met: a lost lease ends the reserve only after five requeues, on a signal, or if it cannot be taken again |
| Reserve.EveryEventIsOfTheLeaseHeldThen | gpu_cmd.go:862-890 | every step of the log is one of the lease held at that moment, requeues counted |
| Reserve.EveryRequeueFollowsALoss | gpu_cmd.go:840-888 | no round goes again on a seat fault, a signal or an unreadable record |
| Reserve.PreparationIsBounded | gpu_cmd.go:1930-1939 | with no drain timeout of its own, all queueing, draining and host waiting ends by queuedAt + wait + 17 drain floors, plus six unloads, six fence checks and the box's lateness |
| Reserve.CourseIsBounded | gpu_cmd.go:2059-2068 | ... by induction over the requeue loop: each round costs at most three floors |
| Deadlines.ADrainGetsTheBudgetOrTheFloor | gpu_cmd.go:1930-1939 | the later of the budget's end and two minutes from now, or the explicit timeout, and nothing else |
| Deadlines.ARequeueGetsTheBudgetOrTheFloor | gpu_cmd.go:2059-2068 | the same for the queue, and none for a reserve asked not to wait |
| Reserve.LossIsSeenOnce | gpu_cmd.go:840-857 | the confirmation's stop decides whether the lease was lost |
| Release.ReleaseHolderLease | gpu_cmd.go:1668-1709 | success at the first of at most four tries that shows the lease moved on, or its record and claims gone; otherwise a failure, and a later silence never erases an earlier real one |
| Release.LastAnswerIs | gpu_cmd.go:1668-1709 | the error reported is that of the last try that answered |
| Release.SilenceIsBelievedOnlyOfAnAbsentRecord | gpu_hostram_await.go:317-363 | with no error, a release is believed exactly when the record is read and absent |
| Release.AnAnswerIsReported | gpu_hostram_await.go:317-363 | an error is reported as that error, a release as done, anything else as what the record says |
| HostLoad.DeclarationIsComparedOnce | gpu_hostram_await.go:70-126 | through split, screening and encoding the whole declaration is compared in exactly one place, figures and stated bit unchanged; the wait runs iff something is left to compare in it |
| HostLoad.WhatIsDeclared | gpu_hostram.go:33-50 | which figure is the commit and when it is stated, and the only two flags refused |
| HostLoad.OnlyAHopelessFigureEndsIt | gpu_hostram_await.go:70-126 | a deferred figure ends the reserve iff no state of the host admits it, and goes back to the grant iff the host cannot be read |
| HostLoad.AnEqualCommitIsStillStated | internal/gpulease/gpulease.go:770-780 | a stated commit equal to the working set survives as stated |
| HostLoad.CarryIsFaithful | gpu_hostram.go:53-62 | the encoding loses nothing exactly on the declarations a reserve can make |
| HostLoad.ResolvedIsWellFormed | gpu_hostram.go:33-50 | every declaration the flags resolve to is one of those |
| Splitter.SplitPositionals | cli_support.go:157-189 | exactly n slots, and the split the specification names |
| Splitter.OverflowArg | cli_support.go:219-233 | one "--" of the splitter's own in front of the first overflow after the user's |
| Splitter.SplitThenParse | cli_support.go:152-233 | splitting and then parsing means what the command line reads left to right: same flags set, same positionals, leftovers iff a positional found no slot, same refusals |
| Splitter.NothingAfterTheTerminatorIsAFlag | cli_support.go:219-233 | whatever follows the user's "--" sets no flag and is no flag's value |
| Splitter.ATerminatorEndsTheFlags | cli_support.go:157-189 | a "--" behind no flag that takes a value ends the flags, if none before it did |
| Splitter.EveryArgumentHasOnePlace | cli_support.go:157-189 | positionals and flags are an order-preserving partition of the arguments, less empty tokens and the user's "--", plus at most one fence |
| Splitter.SameWidth | cli_support.go:167-176 | wherever the flag package accepts a flag, the splitter agrees on whether it takes the next token |
| Flags.PrintedFlagParses | gpu_cmd.go:1350-1398 | a flag printed as two tokens parses back whatever its value looks like, "--" included |
| Flags.AnEqualsGivesTheValue | cli_support.go:157-189 | a flag with '=' takes what follows it, one dash or two, if it is known and accepts it |
| Flags.AFlagTakesTheNext | cli_support.go:157-189 | a flag alone takes the next token unless it is a switch |
| HoldArgs.DetachHoldArgs | gpu_terms.go:113-119 | the argv printed is the one whose reading is proved |
| HoldArgs.OwnerHoldArgs | gpu_ownership.go:131-160 | the owner and contract half of it |
| HoldArgs.CardArgs | gpu_cmd.go:1362-1396 | the figures, cards and labels half of it |
| HoldArgs.HoldLooks | gpu_cmd.go:1350-1398 | every flag of the argv says what the parent has, and no other flag is there |
| HoldArgs.HolderReadsWhatTheParentHas | gpu_cmd.go:1403-1460 | the holder rebuilds its parent's options, whatever the values look like, if and only if the options are ones the encoding keeps |
| HoldArgs.OwnerSurvives | gpu_ownership.go:70-86 | the owner survives iff it is normalised and, with no session of its own, the child's environment names none |
| HoldArgs.CardsSurvive | gpu_cmd.go:1386-1390 | the card ids survive iff they are comma-free and not all blank, an allocated request iff its count is not blank |
| HoldArgs.AcceptedContractSurvives | gpu_ownership.go:90-120 | a contract a detached reserve accepted reaches the holder whole, negative figures apart |
| HoldArgs.WhatAContractIsRefusedFor | gpu_ownership.go:90-120 | the contracts refused, in the flags as typed: an iff |
| HoldArgs.WhatAFlagTakes | gpu_cmd.go:1403-1422 | which of the holder's flags are switches, durations, figures and whole numbers, and what each accepts |
| HoldArgs.NothingSaidIsTheDefault | gpu_cmd.go:1403-1460 | a holder told nothing holds a text lease of 45 minutes on the whole node and waits for nobody |
| Terms.TermTicker.Step | gpu_terms.go:61-98 | one tick of the term check, state and words |
| Terms.ExpiryIsSaidOncePerExpiry | gpu_terms.go:77-96 | over every run of ticks, an expiry is said exactly at the tick that finds the lease expired when the last answer had not |
| Terms.AFailureIsSaidOnce | gpu_terms.go:61-98 | a failed check is told once until one is answered, over every run of ticks |
| Terms.LabelledLeaseIsLeftAlone | gpu_terms.go:61-64 | a labelled lease is asked about at most once a minute, any other at every tick |
| Drift.ClassifyConfigDrift | audit_config.go:79-123 | whatever order the maps are visited in, the list is sorted by class rank and key and holds exactly the entry of each key that has one |
| Drift.ReportIsUnique | audit_config.go:113-122 | there is only one such list |
| Drift.EachKeyOnce | audit_config.go:79-123 | no key is reported twice |
| Drift.AReportSays | audit_config.go:79-123 | for each class, exactly the keys that get it, by where they are and whether their values say the same |
| Drift.AReportIsInOrder | audit_config.go:113-122 | the order of the classes, and of keys by their first difference |
| Drift.CompareValues | audit_config.go:140-155 | the comparison as the program makes it |
| Drift.SameConfigValueIsAnEquivalence | audit_config.go:125-155 | for each key an equivalence on the values JSON can encode, and never true of others |
| Drift.OnlyPrefixesMayDiffer | audit_config.go:134-155 | two unequal values compare equal only as lists of binding objects of one key that differ in key prefixes alone |
| Drift.WithoutKeyPrefix | audit_config.go:157-179 | a prefix-free copy iff every element is an object |
| Faults.OneRefreshAtATime | gpu_faults_health.go:43-58 | over every interleaving at most one refresh runs, and two begin more than ten minutes apart |
| Faults.AnAskBeginsOneWhenDue | gpu_faults_health.go:52-58 | a refresh begins at an ask with none running and none begun within ten minutes, at every such ask and at nothing else |
| Faults.PublishedIsTheLastGoodReading | gpu_faults_health.go:43-67 | what is published is the last reading that succeeded, while at most forty minutes old; a failed refresh changes nothing |
| Faults.ALostRefreshIsNeverRetried | gpu_faults_health.go:53-58 | while a refresh has not ended no ask begins another |
| Faults.AsksAndEndsAreAlwaysPossible | gpu_faults_health.go:43-58 | a node can be asked at any moment, and a refresh that runs can end and then leaves none running |
| Faults.Reporter.Health | gpu_faults_health.go:52-67 | one ask moves the cache as specified and answers with fresh copies |
| Faults.Reporter.Finish | gpu_faults_health.go:43-51 | one refresh's end; a failed read keeps the reading |
| Faults.AnswersAreNotShared | gpu_faults_health.go:63-66 | writing into an answer's lists never changes the cache |

## Left out

- HTTP, process trees, signals, files and the GPU tools: each is a value or a function of the read's number, under a stated contract.
- Message wording, tables, JSON printing, help text and the status views: presentation of decisions modelled here.
- The lease library's claims, queue and takeover: the record is held, absent or unreadable, and its writers do what these files say of them.
- The media, delegate, fleet, data and evaluation verbs: wiring around engines not modelled.
- Reserve.PreparationIsBounded: the queue's own wait is the lease library's and ends by its deadline; the unload takes at most a given time, planning included; the moment of the first lease is given.
- HoldProtocol.IdleHoldIsBounded: the holder's own iteration length is a parameter, failed reads within it; a lease that never got a stamp is the other lemma's.
- Debt.DebtIsConserved: one seat and one marker; a config that renames its seat is not modelled, nor a seat taken down by anything but a lease's unload (its own ttl, another client); two requests of one run that nobody waits for any more count as one.
- Warm.WarmSeatGated: the heartbeat beside the warm is the guards and the cancel it leads to; the context carries no deadline of its own.
- Maintain.ClearingSparesWhatMustStay: what is running is the list as it was read; a model that starts in between is not covered.
- HoldArgs.HolderReadsWhatTheParentHas: durations, figures and whole numbers are opaque tokens whose parsing undoes their printing; figures are real numbers, so NaN and infinity do not arise; resolving a path is a function.
- Splitter.SplitThenParse: the flag package's own help request counts as a refusal like an unknown flag.
- Text.EqualFold: folds ASCII letters only; the model ids compared are ASCII.
- Drift.ClassifyConfigDrift: values are taken after their trip through JSON, so two numbers one float64 stands for are one number; merging the accelerator seeds is not modelled.
- Faults.OneRefreshAtATime: the reads a refresh makes and its 90 s budget are its result and its end.
- The heartbeat of a drain (gpu_cmd.go:1996-2045) is the wrapper's tick loop with the same window and ending; it is not written out a second time.
- The seat's turn hint, the yield ticker, kept instances and the card allocator: they add only small decisions to the protocol.
