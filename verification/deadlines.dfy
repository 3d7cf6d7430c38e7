/** The deadlines a reserve works to (gpu_cmd.go, gpu_hostram_await.go). */
module Deadlines {
  import opened Common

  /** An explicit --drain-timeout counts from now; otherwise the drain runs inside the queue budget,
      never under the floor. */
  function DrainDeadline(explicit: nat, queuedAt: int, wait: nat, now: int): int {
    if 0 < explicit then now + explicit else Max(queuedAt + wait, now + DRAIN_FLOOR)
  }

  function HostRAMDeadline(queuedAt: int, wait: nat, now: int): int {
    DrainDeadline(0, queuedAt, wait, now)
  }

  /** What is left of --wait for a reserve that queues again; --wait 0 stays fail-fast. */
  function RequeueWait(queuedAt: int, wait: nat, now: int): int {
    if wait == 0 then 0 else Max(queuedAt + wait - now, DRAIN_FLOOR)
  }

  /** The moment the outer bound of a detached reserve is stamped at. */
  function OuterMoment(now: int, holdMax: nat, waitEnd: int): int {
    if 0 < holdMax then now + holdMax + OUTER_SLACK else Max(waitEnd, now + OUTER_SLACK)
  }

  /** The end of the host-RAM wait: the earlier of the hold bound and the --wait deadline. */
  function WaitEnd(start: int, holdMax: nat, deadline: int): int {
    if 0 < holdMax then Min(start + holdMax, deadline) else deadline
  }

  /** The hidden holder acts on a lease that still asks for the host past its stamped end plus the grace. */
  predicate HolderActs(clock: int, asked: nat, until: Option<int>) {
    0 < asked && until.Some? && until.value + HOLD_BOUND_GRACE < clock
  }

  /** What a reserve is given: an explicit timeout counts from now; without one every drain and every host wait gets
      the rest of the queue budget or two minutes, whichever ends later, and nothing beyond. */
  lemma ADrainGetsTheBudgetOrTheFloor(explicit: nat, queuedAt: int, wait: nat, now: int)
    ensures 0 < explicit ==> DrainDeadline(explicit, queuedAt, wait, now) == now + explicit
    ensures explicit == 0 ==>
              var d := DrainDeadline(explicit, queuedAt, wait, now);
              queuedAt + wait <= d && now + 120_000 <= d && d in {queuedAt + wait, now + 120_000}
    ensures HostRAMDeadline(queuedAt, wait, now) in {queuedAt + wait, now + 120_000}
    ensures queuedAt + wait <= HostRAMDeadline(queuedAt, wait, now)
    ensures now + 120_000 <= HostRAMDeadline(queuedAt, wait, now)
  {}

  /** A reserve that queues again ends its wait as late as a drain would, unless it was asked not to wait at all. */
  lemma ARequeueGetsTheBudgetOrTheFloor(queuedAt: int, wait: nat, now: int)
    ensures wait == 0 ==> RequeueWait(queuedAt, wait, now) == 0
    ensures 0 < wait ==>
              var d := now + RequeueWait(queuedAt, wait, now);
              queuedAt + wait <= d && now + 120_000 <= d && d in {queuedAt + wait, now + 120_000}
  {}

  /** The two ends a host wait can have: it is over at the first of them. */
  lemma AWaitEndsAtItsFirstEnd(start: int, holdMax: nat, deadline: int, t: int)
    ensures WaitEnd(start, holdMax, deadline) <= t <==> deadline <= t || (0 < holdMax && start + holdMax <= t)
  {}

  /** The outer stamp always leaves the reserve a minute, and as long as its bound or its wait lasts besides. */
  lemma AnOuterStampIsAMinuteAhead(now: int, holdMax: nat, waitEnd: int)
    ensures 0 < holdMax ==> OuterMoment(now, holdMax, waitEnd) == now + holdMax + 60_000
    ensures holdMax == 0 && now + 60_000 <= waitEnd ==> OuterMoment(now, holdMax, waitEnd) == waitEnd
    ensures holdMax == 0 && waitEnd < now + 60_000 ==> OuterMoment(now, holdMax, waitEnd) == now + 60_000
  {}
}
