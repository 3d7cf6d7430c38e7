/** One wrapper reserve, from its first lease to the start of its command: drain, unload, ask the host,
    and on a lease lost in between take the cards again and start over. */
module Reserve {
  import opened Common
  import opened Deadlines
  import opened Fence
  import M = Maintain
  import D = Drain
  import H = HoldLoops

  /** What was asked for. An unload implies a drain and an exclusive lease, and only an unload defers the
      host's comparison: asked is the figure left to it, 0 for none. */
  datatype Request = Request(drain: bool, unload: bool, exclusive: bool, asked: nat, holdMax: nat,
                             drainTimeout: nat, queuedAt: int, wait: nat)

  predicate Valid(r: Request) {
    (r.unload ==> r.drain && r.exclusive) && (0 < r.asked ==> r.unload)
  }

  function Steps(r: Request): M.Options { M.Options(r.drain, r.unload, r.exclusive) }

  datatype Acquisition = Taken(epoch: nat) | NotTaken | CutShort // by a signal

  /** What one round of the loop meets: the maintain step, the wait for the host, a signal, the looks at the fence,
      the next place in line and the moment its turn comes. The clocks of the drain, the wait and the fence count
      from the moment they begin; late is how much longer than asked the queue keeps it. */
  datatype Round = Round(plan: M.Plan, world: M.World, stuckAfter: nat, host: H.WaitWorld,
                         signal: bool, check: Option<FenceError>, look: Looks, clock: Clock,
                         next: Acquisition, turn: int, late: nat)

  datatype Outcome =
    | CommandStarted
    | SeatFault            // a drain, unload or host wait failed with the lease still ours, or not known to be lost
    | HoldBoundPassed
    | SignalEnded
    | LostTooOften
    | NotTakenAgain

  datatype Event =
    | Cleared(epoch: nat, did: seq<M.Event>)
    | HostAdmitted(epoch: nat, declared: nat)
    | LossConfirmed(epoch: nat)
    | Released(epoch: nat)
    | Acquired(epoch: nat)
    | Started(epoch: nat)

  // ---- What the events must look like ----

  /** The loss of a lease is a verdict on every look, ended by one that shows it gone. */
  ghost predicate LostIn(w: Round) {
    w.check.Some? && exists n: nat :: StopsAfter(w.look, w.clock, WRAPPER_FENCE_WINDOW, n) && SeenLost(w.look, n)
  }

  predicate SeenLost(look: Looks, n: nat) {
    0 < n && look(n - 1).Some? && !IsRecordUnreadable(look(n - 1))
  }

  /** A maintain step that did all it was asked for, in order. */
  predicate DidAll(r: Request, w: Round, did: seq<M.Event>) {
    did == M.DrainEvents(Steps(r)) + M.StampEvents(Steps(r))
           + (if r.unload then M.Asks(M.ClearLog(w.world.answer, w.plan)) + M.DebtEvents(w.plan, w.world) else [])
  }

  /** The events right before the start: everything asked for was done, then (if it was deferred) the figure
      asked was admitted and declared on the record, all under one lease. */
  predicate PreparedUnder(r: Request, w: Round, lease: nat, log: seq<Event>) {
    var n := if 0 < r.asked then 2 else 1;
    && n <= |log|
    && log[|log| - n].Cleared? && log[|log| - n].epoch == lease && DidAll(r, w, log[|log| - n].did)
    && (0 < r.asked ==> log[|log| - 1] == HostAdmitted(lease, r.asked))
  }

  /** A place in line is taken again only after a confirmed loss and the release of the lease that was lost. */
  predicate RequeuesInOrder(log: seq<Event>) {
    forall i :: 0 <= i < |log| && log[i].Acquired? ==>
      2 <= i && log[i - 2].LossConfirmed? && log[i - 1] == Released(log[i - 2].epoch)
  }

  predicate NoneStarted(log: seq<Event>) { forall i :: 0 <= i < |log| ==> !log[i].Started? }

  /** How often the lease was taken again. */
  function Count(log: seq<Event>): nat {
    if log == [] then 0 else Count(log[..|log| - 1]) + if log[|log| - 1].Acquired? then 1 else 0
  }

  lemma {:induction false} CountIsOfAcquired(log: seq<Event>)
    ensures Count(log) == |set i | 0 <= i < |log| && log[i].Acquired?|
  {
    var all := set i | 0 <= i < |log| && log[i].Acquired?;
    if log == [] {
      assert all == {};
    } else {
      var n := |log| - 1;
      var before := set i | 0 <= i < n && log[..n][i].Acquired?;
      CountIsOfAcquired(log[..n]);
      assert all == before + (if log[n].Acquired? then {n} else {});
    }
  }

  /** leases(k) is the lease held after k requeues: every event is one of the lease held then. */
  predicate UnderLeases(log: seq<Event>, leases: nat -> nat) {
    log == [] || (UnderLeases(log[..|log| - 1], leases) && log[|log| - 1].epoch == leases(Count(log)))
  }

  lemma {:induction false} EveryEventIsOfTheLeaseHeldThen(log: seq<Event>, leases: nat -> nat, i: nat)
    requires UnderLeases(log, leases) && i < |log|
    ensures log[i].epoch == leases(|set j | 0 <= j <= i && log[j].Acquired?|)
  {
    if i < |log| - 1 {
      EveryEventIsOfTheLeaseHeldThen(log[..|log| - 1], leases, i);
      var front := log[..|log| - 1];
      assert (set j | 0 <= j <= i && front[j].Acquired?) == (set j | 0 <= j <= i && log[j].Acquired?);
    } else {
      CountIsOfAcquired(log);
      assert (set j | 0 <= j < |log| && log[j].Acquired?) == (set j | 0 <= j <= i && log[j].Acquired?);
    }
  }

  predicate Preparing(log: seq<Event>, k: nat, leases: nat -> nat) {
    RequeuesInOrder(log) && NoneStarted(log) && Count(log) == k && UnderLeases(log, leases)
  }

  predicate NoTurn(e: Event) { !e.Acquired? && !e.Started? }

  lemma StaysUnder(log: seq<Event>, leases: nat -> nat, e: Event)
    requires UnderLeases(log, leases) && e.epoch == leases(Count(log + [e]))
    ensures UnderLeases(log + [e], leases)
  {
    assert (log + [e])[..|log|] == log;
  }

  lemma Keeps(log: seq<Event>, k: nat, leases: nat -> nat, e: Event)
    requires Preparing(log, k, leases) && NoTurn(e) && e.epoch == leases(k)
    ensures Preparing(log + [e], k, leases)
  {
    assert (log + [e])[..|log|] == log;
    StaysUnder(log, leases, e);
  }

  /** The lease lost last is released ... */
  lemma LetsGo(log: seq<Event>, k: nat, leases: nat -> nat)
    requires Preparing(log, k, leases) && EndsInLoss(log, leases(k))
    ensures Preparing(log + [Released(leases(k))], k, leases)
  {
    Keeps(log, k, leases, Released(leases(k)));
  }

  /** ... and the next one taken. */
  lemma Again(log: seq<Event>, k: nat, leases: nat -> nat, next: nat)
    requires EndsInLoss(log, leases(k)) && Preparing(log + [Released(leases(k))], k, leases) && leases(k + 1) == next
    ensures Preparing(log + [Released(leases(k))] + [Acquired(next)], k + 1, leases)
  {
    var released := log + [Released(leases(k))];
    assert (released + [Acquired(next)])[..|released|] == released;
    StaysUnder(released, leases, Acquired(next));
  }

  predicate EndsInLoss(log: seq<Event>, lost: nat) { log != [] && log[|log| - 1] == LossConfirmed(lost) }

  // ---- Time ----

  /** The waits a round makes start from the moment it is given; each ends when what it waits for comes, or
      at its own deadline, late by at most a little. */
  ghost predicate IsRound(w: Round) {
    && D.Paced(w.world.drain, 2_000) && 0 <= w.world.drain.clock(0)
    && Paced(w.clock, WRAPPER_FENCE_POLL)
    && 0 <= w.host.clock(0) && forall k: nat :: H.Ticks(w.host, k)
  }

  ghost predicate World(rounds: nat -> Round) { forall k: nat :: IsRound(rounds(k)) }

  function DrainFrom(w: D.World, now: int): D.World { w.(clock := (k: nat) => now + w.clock(k)) }

  function WaitFrom(w: H.WaitWorld, now: int): H.WaitWorld { w.(clock := (k: nat) => now + w.clock(k)) }

  /** The wait that began now ended like this at look n, at this moment. */
  ghost predicate HostWaitsAt(r: Request, w: Round, now: int, host: H.Awaited, over: int, n: nat) {
    var (h, deadline) := (WaitFrom(w.host, now), HostRAMDeadline(r.queuedAt, r.wait, now));
    && (forall k: nat :: k < n ==> H.EndsAt(h, now, deadline, r.holdMax, false, k) == None)
    && H.EndsAt(h, now, deadline, r.holdMax, false, n) == Some(host)
    && over == now + w.host.clock(n)
  }

  ghost predicate HostWaits(r: Request, w: Round, now: int, host: H.Awaited, over: int) {
    exists n: nat :: HostWaitsAt(r, w, now, host, over, n)
  }

  function QueueOver(r: Request, w: Round, now: int): int {
    Max(now, Min(w.turn, now + RequeueWait(r.queuedAt, r.wait, now))) + w.late
  }

  /** A box that keeps up: polls and every wait end at most over late, and the unload takes at most as long as
      unload. */
  ghost predicate OnTime(w: Round, over: nat, unload: nat) {
    && w.late <= over && w.world.takes <= unload && w.world.drain.clock(0) <= over
    && (forall k: nat :: Soon(w.world.drain.clock, over, k))
    && w.host.clock(0) <= over && (forall k: nat :: Soon(w.host.clock, over, k))
    && Punctual(w.clock, WRAPPER_FENCE_POLL, over)
  }

  predicate Soon(clock: Clock, over: nat, k: nat) { clock(k + 1) <= clock(k) + over }

  ghost predicate AllOnTime(rounds: nat -> Round, over: nat, unload: nat) {
    forall k: nat :: OnTime(rounds(k), over, unload)
  }

  /** The reserve of a box that keeps up, with no drain timeout of its own, whose first lease came in time. */
  ghost predicate Timely(r: Request, taken: int, rounds: nat -> Round, late: nat, unload: nat) {
    AllOnTime(rounds, late, unload) && Within(r, taken, late)
  }

  /** The budget of --wait, and a little more. */
  predicate Within(r: Request, now: int, slack: nat) { r.drainTimeout == 0 && now <= r.queuedAt + r.wait + slack }

  /** How far past the queue budget the first k rounds can run: one floor for each drain, host wait and
      requeue, their unloads and their lateness. */
  function Slack(k: nat, over: nat, unload: nat): nat {
    if k == 0 then over else Slack(k - 1, over, unload) + RoundSlack(over, unload) + DRAIN_FLOOR + over
  }

  function RoundSlack(over: nat, unload: nat): nat {
    2 * DRAIN_FLOOR + unload + 6 * over + ConfirmBound(WRAPPER_FENCE_WINDOW, WRAPPER_FENCE_POLL, 0)
  }

  function Most(over: nat, unload: nat): nat { 17 * DRAIN_FLOOR + 6 * 10_400 + 6 * unload + 42 * over }

  /** The whole preparation: six drains, six unloads, six host waits and five requeues past the budget, no more. */
  lemma SlackIsBounded(k: nat, over: nat, unload: nat)
    requires k <= MAX_LEASE_REQUEUES
    ensures Slack(k, over, unload) + RoundSlack(over, unload) <= Most(over, unload)
    ensures k < MAX_LEASE_REQUEUES ==>
              Slack(k, over, unload) + RoundSlack(over, unload) + DRAIN_FLOOR + over <= Most(over, unload)
  {
    SlackIs(k, over, unload);
  }

  lemma {:induction false} SlackIs(k: nat, over: nat, unload: nat)
    ensures Slack(k, over, unload) == over + k * (RoundSlack(over, unload) + DRAIN_FLOOR + over)
  {
    if 0 < k {
      SlackIs(k - 1, over, unload);
    }
  }

  /** The maintain step of a round that began now ended with this failure, or none, at this moment. */
  ghost predicate Maintains(r: Request, w: Round, now: int, failed: Option<M.Failure>, over: int) {
    var deadline := DrainDeadline(r.drainTimeout, r.queuedAt, r.wait, now);
    M.EndsWith(Steps(r), w.plan, Shifted(w.world, now), w.stuckAfter, deadline, failed, over)
  }

  /** The last moment of a maintain step that began now. */
  lemma MaintainIsBounded(r: Request, w: Round, now: int, failed: Option<M.Failure>, over: int, slack: nat, late: nat,
                          unload: nat)
    requires IsRound(w) && OnTime(w, late, unload) && Within(r, now, slack) && Maintains(r, w, now, failed, over)
    ensures Within(r, over, slack + DRAIN_FLOOR + late + unload)
  {
    var n: nat, verdict :| M.EndsAtRead(Steps(r), w.plan, Shifted(w.world, now), w.stuckAfter,
                                        DrainDeadline(0, r.queuedAt, r.wait, now), failed, over, n, verdict);
    if 0 < n {
      assert Soon(w.world.drain.clock, late, n - 1);
    }
  }

  function Shifted(w: M.World, now: int): M.World { w.(drain := DrainFrom(w.drain, now)) }

  lemma ShiftedIsPaced(w: Round, now: int)
    requires IsRound(w)
    ensures D.Paced(Shifted(w.world, now).drain, 2_000)
  {
    forall k: nat ensures D.Waits(Shifted(w.world, now).drain, 2_000, k) {
      assert D.Waits(w.world.drain, 2_000, k);
    }
  }

  // ---- One round ----

  datatype RoundEnd = Ready | Ended(outcome: Outcome) | Lost

  /** How a round ends whose maintain step ended with this failure, or none, and whose wait like this. */
  ghost function EndAfter(r: Request, w: Round, failed: Option<M.Failure>, host: H.Awaited): RoundEnd {
    if failed.None? && (r.asked == 0 || host == H.HostAdmitted) then Ready
    else if failed.None? && host == H.BoundPassed && !w.signal then Ended(HoldBoundPassed)
    else if w.signal then Ended(SignalEnded)
    else if LostIn(w) then Lost
    else Ended(SeatFault)
  }

  /** A lease is lost when the fence failed and every look of the confirmation after it did: at least three, and past
      the third only for as long as the record could not be read and the window of 10 s was open; and the last look was
      a verdict. */
  lemma ALossIsSeenOnEveryLook(w: Round)
    ensures LostIn(w) <==> w.check.Some? && exists m: nat ::
              && 2 <= m && w.look(m).Some? && !w.look(m).value.RecordUnreadable?
              && (forall k: nat :: k < m ==> w.look(k).Some? && (2 <= k ==> w.look(k).value.RecordUnreadable?))
              && (forall k: nat :: 3 <= k <= m ==> w.clock(k) < w.clock(3) + 10_000)
  {
    forall m: nat
      ensures StopsAfter(w.look, w.clock, WRAPPER_FENCE_WINDOW, m + 1) && SeenLost(w.look, m + 1) <==>
              && 2 <= m && w.look(m).Some? && !w.look(m).value.RecordUnreadable?
              && (forall k: nat :: k < m ==> w.look(k).Some? && (2 <= k ==> w.look(k).value.RecordUnreadable?))
              && (forall k: nat :: 3 <= k <= m ==> w.clock(k) < w.clock(3) + 10_000)
    {
      AConfirmationStopsWhere(w.look, w.clock, WRAPPER_FENCE_WINDOW, m + 1);
    }
    if LostIn(w) {
      var n: nat :| StopsAfter(w.look, w.clock, WRAPPER_FENCE_WINDOW, n) && SeenLost(w.look, n);
      assert n == (n - 1) + 1;
    }
  }

  /** Why a round ends as it does. It is ready when the maintain step did all it was asked and the host, if it was
      asked, admitted the figure. A hold bound ends it for good; a signal ends whatever else failed. Everything else
      that failed, in the drain, the stamp, the unload or the host wait, ends in a requeue if the lease is lost, and as
      a seat fault if and only if it is not. */
  lemma WhyARoundEnds(r: Request, w: Round, now: int, end: RoundEnd, ended: int,
                      failed: Option<M.Failure>, over: int, host: H.Awaited, waited: int, d: int)
    requires RoundEndsAs(r, w, now, end, ended, failed, over, host, waited, d)
    ensures var ready := failed.None? && (r.asked == 0 || host == H.HostAdmitted);
            var bound := failed.None? && 0 < r.asked && host == H.BoundPassed && !w.signal;
            && (end == Ready <==> ready)
            && (end == Ended(HoldBoundPassed) <==> bound)
            && (end == Ended(SignalEnded) <==> !ready && w.signal)
            && (end == Lost <==> !ready && !bound && !w.signal && LostIn(w))
            && (end == Ended(SeatFault) <==> !ready && !bound && !w.signal && !LostIn(w))
  {}

  /** How long the confirmation takes; a fence that passes at once takes none. */
  ghost predicate FenceTakes(w: Round, d: int) {
    if w.check.None? then d == 0
    else exists n: nat :: StopsAfter(w.look, w.clock, WRAPPER_FENCE_WINDOW, n) && d == w.clock(n) - w.clock(0)
  }

  /** A round that began now ends like this, at this moment. */
  ghost predicate RoundEnds(r: Request, w: Round, now: int, end: RoundEnd, ended: int) {
    exists failed, over: int, host, waited: int, d: int ::
      RoundEndsAs(r, w, now, end, ended, failed, over, host, waited, d)
  }

  ghost predicate RoundEndsAs(r: Request, w: Round, now: int, end: RoundEnd, ended: int,
                              failed: Option<M.Failure>, over: int, host: H.Awaited, waited: int, d: int) {
    && Maintains(r, w, now, failed, over)
    && (if failed.None? && 0 < r.asked then HostWaits(r, w, over, host, waited) else waited == over)
    && end == EndAfter(r, w, failed, host)
    && (if end == Lost || end == Ended(SeatFault) then FenceTakes(w, d) else d == 0)
    && ended == waited + d
  }

  /** Ask the host for what the lease's record still asks; declared is what the record declares afterwards. */
  method AskHost(r: Request, w: Round, now: int) returns (host: H.Awaited, declared: nat, over: int)
    requires 0 < r.asked && IsRound(w)
    ensures HostWaits(r, w, now, host, over)
    ensures declared == if host == H.HostAdmitted then r.asked else 0
  {
    var record := new H.LeaseRecord(r.asked);
    var h := WaitFrom(w.host, now);
    forall k: nat ensures H.Ticks(h, k) { assert H.Ticks(w.host, k); }
    var n, stamped;
    var deadline := HostRAMDeadline(r.queuedAt, r.wait, now);
    host, n, stamped := H.AwaitHostRAMBounded(record, h, now, deadline, r.holdMax, false);
    declared, over := record.declared, now + w.host.clock(n);
    assert HostWaitsAt(r, w, now, host, over, n);
  }

  /** Clear the cards and ask the host, under one lease; on a failure find out whether the lease is lost. */
  method RunRound(r: Request, lease: nat, w: Round, now: int)
    returns (end: RoundEnd, did: seq<M.Event>, declared: nat, ended: int)
    requires Valid(r) && r.drain && IsRound(w)
    ensures RoundEnds(r, w, now, end, ended)
    ensures end == Ready ==> DidAll(r, w, did) && declared == r.asked
    // a failure with no signal is a seat fault or a loss, as the looks at the fence decide, wherever it failed
    ensures end == Ended(SeatFault) ==> !w.signal && !LostIn(w)
    ensures end == Lost ==> !w.signal && LostIn(w)
    ensures end in {Ready, Lost, Ended(SeatFault), Ended(HoldBoundPassed), Ended(SignalEnded)}
  {
    var failed, out, over;
    ShiftedIsPaced(w, now);
    var deadline := DrainDeadline(r.drainTimeout, r.queuedAt, r.wait, now);
    failed, did, out, over := M.MaintainSeat(Steps(r), w.plan, Shifted(w.world, now), w.stuckAfter, deadline);
    assert Maintains(r, w, now, failed, over);
    var host, waited := H.HostAdmitted, over;
    declared := 0;
    if failed.None? {
      if 0 < r.asked {
        host, declared, waited := AskHost(r, w, over);
      }
      if host == H.HostAdmitted {
        assert RoundEndsAs(r, w, now, Ready, waited, failed, over, host, waited, 0);
        return Ready, did, declared, waited;
      }
      if host == H.BoundPassed && !w.signal {
        assert RoundEndsAs(r, w, now, Ended(HoldBoundPassed), waited, failed, over, host, waited, 0);
        return Ended(HoldBoundPassed), did, declared, waited;
      }
    }
    if w.signal {
      assert RoundEndsAs(r, w, now, Ended(SignalEnded), waited, failed, over, host, waited, 0);
      return Ended(SignalEnded), did, declared, waited;
    }
    var d;
    end, d := LookAtFence(w);
    ended := waited + d;
    assert RoundEndsAs(r, w, now, end, ended, failed, over, host, waited, d);
  }

  /** Whether a round that failed lost its lease, and how long it takes to know. */
  method LookAtFence(w: Round) returns (end: RoundEnd, d: int)
    requires IsRound(w)
    ensures end == (if LostIn(w) then Lost else Ended(SeatFault)) && FenceTakes(w, d)
  {
    var state, last, n := ConfirmFence(w.check, w.look, w.clock, WRAPPER_FENCE_WINDOW, WRAPPER_FENCE_POLL);
    if w.check.Some? {
      LossIsSeenOnce(w, n);
    }
    end := if state == FenceLost then Lost else Ended(SeatFault);
    d := w.clock(n) - w.clock(0);
  }

  lemma HostWaitIsBounded(r: Request, w: Round, now: int, host: H.Awaited, over: int, slack: nat, late: nat,
                          unload: nat)
    requires IsRound(w) && OnTime(w, late, unload) && Within(r, now, slack) && HostWaits(r, w, now, host, over)
    ensures Within(r, over, slack + DRAIN_FLOOR + late)
  {
    var n: nat :| HostWaitsAt(r, w, now, host, over, n);
    H.WaitIsBounded(WaitFrom(w.host, now), now, HostRAMDeadline(r.queuedAt, r.wait, now), r.holdMax, false, n);
    if 0 < n {
      assert Soon(w.host.clock, late, n - 1);
    }
  }

  /** However it ends, a round on a box that keeps up stays within two floors of where it began. */
  lemma RoundIsBounded(r: Request, w: Round, now: int, end: RoundEnd, ended: int, slack: nat, late: nat,
                       unload: nat)
    requires IsRound(w) && OnTime(w, late, unload) && Within(r, now, slack) && RoundEnds(r, w, now, end, ended)
    ensures Within(r, ended, slack + RoundSlack(late, unload))
  {
    var failed, over: int, host, waited: int, d: int
      :| RoundEndsAs(r, w, now, end, ended, failed, over, host, waited, d);
    MaintainIsBounded(r, w, now, failed, over, slack, late, unload);
    if failed.None? && 0 < r.asked {
      HostWaitIsBounded(r, w, over, host, waited, slack + DRAIN_FLOOR + late + unload, late, unload);
    }
    if end == Lost || end == Ended(SeatFault) {
      FenceDelays(w, d, late, unload);
    }
  }

  lemma FenceDelays(w: Round, d: int, late: nat, unload: nat)
    requires IsRound(w) && OnTime(w, late, unload) && FenceTakes(w, d)
    ensures d <= 4 * late + ConfirmBound(WRAPPER_FENCE_WINDOW, WRAPPER_FENCE_POLL, 0)
  {
    if w.check.Some? {
      var n: nat :| StopsAfter(w.look, w.clock, WRAPPER_FENCE_WINDOW, n) && d == w.clock(n) - w.clock(0);
      ConfirmIsPrompt(w.look, w.clock, WRAPPER_FENCE_WINDOW, WRAPPER_FENCE_POLL, n, late);
    }
  }

  /** Where the confirmation stopped decides whether the lease was lost. */
  lemma LossIsSeenOnce(w: Round, n: nat)
    requires w.check.Some? && StopsAfter(w.look, w.clock, WRAPPER_FENCE_WINDOW, n)
    ensures LostIn(w) <==> SeenLost(w.look, n)
  {
    if LostIn(w) {
      var m: nat :| StopsAfter(w.look, w.clock, WRAPPER_FENCE_WINDOW, m) && SeenLost(w.look, m);
      StopsOnce(w.look, w.clock, WRAPPER_FENCE_WINDOW, m, n);
    }
  }

  /** What a round adds to the log. */
  function RoundLog(r: Request, lease: nat, end: RoundEnd, did: seq<M.Event>, declared: nat, log: seq<Event>)
    : seq<Event>
  {
    var cleared := log + [Cleared(lease, did)];
    if end == Lost then cleared + [LossConfirmed(lease)]
    else if end == Ready && 0 < r.asked then cleared + [HostAdmitted(lease, declared)]
    else cleared
  }

  /** A round, and the log after it. */
  method LoggedRound(r: Request, lease: nat, w: Round, now: int, log: seq<Event>, k: nat, ghost leases: nat -> nat)
    returns (end: RoundEnd, log': seq<Event>, ended: int)
    requires Valid(r) && r.drain && IsRound(w) && Preparing(log, k, leases) && lease == leases(k)
    ensures RoundEnds(r, w, now, end, ended) && Preparing(log', k, leases)
    ensures end == Ready ==> PreparedUnder(r, w, lease, log')
    ensures end == Lost ==> EndsInLoss(log', lease)
  {
    var did, declared;
    end, did, declared, ended := RunRound(r, lease, w, now);
    log' := RoundLog(r, lease, end, did, declared, log);
    RoundIsLogged(r, w, leases, log, k, end, did, declared);
  }

  lemma RoundIsLogged(r: Request, w: Round, leases: nat -> nat, log: seq<Event>, k: nat, end: RoundEnd,
                      did: seq<M.Event>, declared: nat)
    requires Preparing(log, k, leases) && (end == Ready ==> DidAll(r, w, did) && declared == r.asked)
    ensures var log' := RoundLog(r, leases(k), end, did, declared, log);
            && Preparing(log', k, leases)
            && (end == Ready ==> PreparedUnder(r, w, leases(k), log'))
            && (end == Lost ==> EndsInLoss(log', leases(k)))
  {
    RoundKeeps(r, leases, log, k, end, did, declared);
    if end == Ready {
      ReadyIsPrepared(r, w, leases(k), log, did);
    }
  }

  lemma RoundKeeps(r: Request, leases: nat -> nat, log: seq<Event>, k: nat, end: RoundEnd, did: seq<M.Event>,
                   declared: nat)
    requires Preparing(log, k, leases)
    ensures Preparing(RoundLog(r, leases(k), end, did, declared, log), k, leases)
  {
    var lease := leases(k);
    var cleared := log + [Cleared(lease, did)];
    Keeps(log, k, leases, Cleared(lease, did));
    if end == Lost {
      Keeps(cleared, k, leases, LossConfirmed(lease));
    } else if end == Ready && 0 < r.asked {
      Keeps(cleared, k, leases, HostAdmitted(lease, declared));
    }
  }

  lemma ReadyIsPrepared(r: Request, w: Round, lease: nat, log: seq<Event>, did: seq<M.Event>)
    requires DidAll(r, w, did)
    ensures PreparedUnder(r, w, lease, RoundLog(r, lease, Ready, did, r.asked, log))
  {
    var log' := RoundLog(r, lease, Ready, did, r.asked, log);
    assert log'[|log|] == Cleared(lease, did);
  }

  // ---- The loop ----

  /** The lease was taken k times again, the last time at now: after k rounds that each lost it for certain,
      each begun the moment the lease it ran under was taken. */
  ghost predicate Course(r: Request, taken: int, rounds: nat -> Round, k: nat, now: int)
    decreases k, 1
  {
    if k == 0 then now == taken
    else exists began, ended: int :: TookAgain(r, taken, rounds, k, began, ended, now)
  }

  ghost predicate TookAgain(r: Request, taken: int, rounds: nat -> Round, k: nat, began: int, ended: int, now: int)
    decreases k, 0
  {
    && 0 < k && Course(r, taken, rounds, k - 1, began) && RoundEnds(r, rounds(k - 1), began, Lost, ended)
    && rounds(k - 1).next.Taken? && now == QueueOver(r, rounds(k - 1), ended)
  }

  /** What a round that ends the loop makes of it; None: the command may start. A lost lease ends it only
      after five requeues, or when the cards cannot be taken again. */
  function StopOf(end: RoundEnd, k: nat, next: Acquisition): Option<Outcome> {
    match end
    case Ready => None
    case Ended(why) => Some(why)
    case Lost =>
      Some(if MAX_LEASE_REQUEUES <= k then LostTooOften else if next.CutShort? then SignalEnded else NotTakenAgain)
  }

  /** The loop stops after k requeues, with this outcome, at this moment. */
  ghost predicate StopsWith(r: Request, taken: int, rounds: nat -> Round, k: nat, stop: Option<Outcome>, at: int) {
    exists now, ended: int, end :: StopsAt(r, taken, rounds, k, stop, at, now, end, ended)
  }

  ghost predicate StopsAt(r: Request, taken: int, rounds: nat -> Round, k: nat, stop: Option<Outcome>, at: int,
                          now: int, end: RoundEnd, ended: int) {
    && Course(r, taken, rounds, k, now) && RoundEnds(r, rounds(k), now, end, ended)
    && stop == StopOf(end, k, rounds(k).next)
    && (end == Lost && k < MAX_LEASE_REQUEUES ==> !rounds(k).next.Taken?)
    && at == if end == Lost && k < MAX_LEASE_REQUEUES then QueueOver(r, rounds(k), ended) else ended
  }

  /** One trip of the loop: None goes round again, Some(stop) ends it. */
  method TakeTurn(r: Request, taken: int, rounds: nat -> Round, lease: nat, now: int, log: seq<Event>, k: nat,
                  ghost leases: nat -> nat)
    returns (over: Option<Option<Outcome>>, log': seq<Event>, ended: int)
    requires Valid(r) && r.drain && World(rounds)
    requires Course(r, taken, rounds, k, now) && Preparing(log, k, leases) && k <= MAX_LEASE_REQUEUES
    requires lease == leases(k) && (rounds(k).next.Taken? ==> leases(k + 1) == rounds(k).next.epoch)
    ensures over.Some? ==> StopsWith(r, taken, rounds, k, over.value, ended) && Preparing(log', k, leases)
    ensures over == Some(None) ==> PreparedUnder(r, rounds(k), lease, log')
    ensures over.None? ==>
              && k < MAX_LEASE_REQUEUES && rounds(k).next.Taken?
              && Course(r, taken, rounds, k + 1, ended) && Preparing(log', k + 1, leases)
  {
    var w, end, done := rounds(k), Lost, now;
    assert IsRound(w);
    end, log', done := LoggedRound(r, lease, w, now, log, k, leases);
    if end != Lost || MAX_LEASE_REQUEUES <= k {
      assert StopsAt(r, taken, rounds, k, StopOf(end, k, w.next), done, now, end, done);
      return Some(StopOf(end, k, w.next)), log', done;
    }
    log', ended := QueueAgain(r, lease, w, done, log', k, leases);
    if !w.next.Taken? {
      assert StopsAt(r, taken, rounds, k, StopOf(end, k, w.next), ended, now, end, done);
      return Some(StopOf(end, k, w.next)), log', ended;
    }
    assert TookAgain(r, taken, rounds, k + 1, now, done, ended);
    over := None;
  }

  /** Release the lease that was lost and take the place in line again, within what is left of the budget. */
  method QueueAgain(r: Request, lease: nat, w: Round, now: int, log: seq<Event>, k: nat, ghost leases: nat -> nat)
    returns (log': seq<Event>, ended: int)
    requires Preparing(log, k, leases) && lease == leases(k) && EndsInLoss(log, lease)
    requires w.next.Taken? ==> leases(k + 1) == w.next.epoch
    ensures Preparing(log', if w.next.Taken? then k + 1 else k, leases) && ended == QueueOver(r, w, now)
  {
    LetsGo(log, k, leases);
    log' := log + [Released(lease)];
    ended := QueueOver(r, w, now);
    if w.next.Taken? {
      Again(log, k, leases, w.next.epoch);
      log' := log' + [Acquired(w.next.epoch)];
    }
  }

  /** Prepare the cards, round after round. k is how many times the lease was taken again, lease the one held
      at the end, ended the moment of it; None says the command may start. */
  method Prepare(r: Request, first: nat, taken: int, rounds: nat -> Round)
    returns (stop: Option<Outcome>, log: seq<Event>, k: nat, lease: nat, ended: int)
    requires Valid(r) && r.drain && World(rounds)
    ensures k <= MAX_LEASE_REQUEUES && StopsWith(r, taken, rounds, k, stop, ended)
    ensures Preparing(log, k, Leases(first, rounds))
    ensures stop.None? ==> PreparedUnder(r, rounds(k), lease, log)
    ensures lease == LeaseAfter(first, rounds, k)
  {
    log, k, lease, ended := [], 0, first, taken;
    ghost var leases := Leases(first, rounds);
    NothingYet(leases);
    while true
      invariant k <= MAX_LEASE_REQUEUES && Course(r, taken, rounds, k, ended) && Preparing(log, k, leases)
      invariant lease == leases(k)
      decreases MAX_LEASE_REQUEUES - k
    {
      var over;
      over, log, ended := TakeTurn(r, taken, rounds, lease, ended, log, k, leases);
      if over.Some? {
        stop := over.value;
        return;
      }
      lease, k := rounds(k).next.epoch, k + 1;
    }
  }

  lemma NothingYet(leases: nat -> nat)
    ensures Preparing([], 0, leases)
  {}

  /** The lease held after k requeues: the first one, or the one the last of them took. */
  function LeaseAfter(first: nat, rounds: nat -> Round, k: nat): nat {
    if 0 < k && rounds(k - 1).next.Taken? then rounds(k - 1).next.epoch else first
  }

  function Leases(first: nat, rounds: nat -> Round): nat -> nat { (k: nat) => LeaseAfter(first, rounds, k) }

  lemma {:induction false} CourseIsBounded(r: Request, taken: int, rounds: nat -> Round, k: nat, now: int,
                                           late: nat, unload: nat)
    requires World(rounds) && Timely(r, taken, rounds, late, unload) && Course(r, taken, rounds, k, now)
    ensures Within(r, now, Slack(k, late, unload))
  {
    if 0 < k {
      var began, ended: int :| TookAgain(r, taken, rounds, k, began, ended, now);
      CourseIsBounded(r, taken, rounds, k - 1, began, late, unload);
      assert IsRound(rounds(k - 1)) && OnTime(rounds(k - 1), late, unload);
      RoundIsBounded(r, rounds(k - 1), began, Lost, ended, Slack(k - 1, late, unload), late, unload);
    }
  }

  /** With no drain timeout of its own, all queueing, draining and waiting for the host of one reserve ends by
      the queue budget and 17 drain floors (6 drains, 6 host waits, 5 requeues), plus six unloads, six fence checks
      and the box's own lateness, however often the lease is lost. */
  lemma PreparationIsBounded(r: Request, taken: int, rounds: nat -> Round, k: nat, stop: Option<Outcome>, at: int,
                             late: nat, unload: nat)
    requires World(rounds) && Timely(r, taken, rounds, late, unload)
    requires k <= MAX_LEASE_REQUEUES && StopsWith(r, taken, rounds, k, stop, at)
    ensures at <= r.queuedAt + r.wait + 17 * DRAIN_FLOOR + 6 * 10_400 + 6 * unload + 42 * late
  {
    var now, ended: int, end :| StopsAt(r, taken, rounds, k, stop, at, now, end, ended);
    TurnIsBounded(r, taken, rounds, k, now, end, ended, late, unload);
    SlackIsBounded(k, late, unload);
    QueueIsBounded(r, rounds(k), ended, Slack(k, late, unload) + RoundSlack(late, unload), late);
  }

  lemma QueueIsBounded(r: Request, w: Round, now: int, slack: nat, late: nat)
    requires w.late <= late && Within(r, now, slack)
    ensures Within(r, QueueOver(r, w, now), slack + DRAIN_FLOOR + late)
  {}

  lemma TurnIsBounded(r: Request, taken: int, rounds: nat -> Round, k: nat, now: int, end: RoundEnd, ended: int,
                      late: nat, unload: nat)
    requires World(rounds) && Timely(r, taken, rounds, late, unload)
    requires Course(r, taken, rounds, k, now) && RoundEnds(r, rounds(k), now, end, ended)
    ensures Within(r, ended, Slack(k, late, unload) + RoundSlack(late, unload)) && rounds(k).late <= late
  {
    CourseIsBounded(r, taken, rounds, k, now, late, unload);
    assert IsRound(rounds(k)) && OnTime(rounds(k), late, unload);
    RoundIsBounded(r, rounds(k), now, end, ended, Slack(k, late, unload), late, unload);
  }

  /** The loop goes round only over a loss that was confirmed, never over a seat fault or a record that
      cannot be read. */
  lemma {:induction false} EveryRequeueFollowsALoss(r: Request, taken: int, rounds: nat -> Round, k: nat, now: int,
                                                    i: nat)
    requires Course(r, taken, rounds, k, now) && i < k
    ensures LostIn(rounds(i)) && rounds(i).next.Taken? && !rounds(i).signal
  {
    var began, ended: int :| TookAgain(r, taken, rounds, k, began, ended, now);
    if i < k - 1 {
      EveryRequeueFollowsALoss(r, taken, rounds, k - 1, began, i);
    } else {
      var failed, over: int, host, waited: int, d: int
        :| RoundEndsAs(r, rounds(i), began, Lost, ended, failed, over, host, waited, d);
    }
  }

  /** What the preparation (none was asked for without a drain) and a signal after it make of the reserve. */
  ghost predicate EndsLike(r: Request, taken: int, rounds: nat -> Round, k: nat, signal: bool, outcome: Outcome,
                           ended: int) {
    exists stop :: Stopped(r, taken, rounds, k, stop, ended) && outcome == OutcomeOf(stop, signal)
  }

  ghost predicate Stopped(r: Request, taken: int, rounds: nat -> Round, k: nat, stop: Option<Outcome>, ended: int) {
    if r.drain then StopsWith(r, taken, rounds, k, stop, ended) else stop == None && k == 0 && ended == taken
  }

  function OutcomeOf(stop: Option<Outcome>, signal: bool): Outcome {
    if stop.Some? then stop.value else if signal then SignalEnded else CommandStarted
  }

  /** The command starts last and once, under this lease. */
  predicate StartsLast(log: seq<Event>, lease: nat) {
    0 < |log| && log[|log| - 1] == Started(lease) && NoneStarted(log[..|log| - 1])
  }

  /** Run the reserve up to the start of its command. */
  method RunReserve(r: Request, first: nat, taken: int, rounds: nat -> Round, signalBeforeStart: bool)
    returns (outcome: Outcome, log: seq<Event>, k: nat, lease: nat, ended: int)
    requires Valid(r) && World(rounds)
    // at most five requeues, each over a lease seen lost on every look, and every event is one of the lease held then
    ensures k <= MAX_LEASE_REQUEUES == 5 && RequeuesInOrder(log) && Count(log) == k
    ensures UnderLeases(log, Leases(first, rounds))
    ensures EndsLike(r, taken, rounds, k, signalBeforeStart, outcome, ended)
    // the command starts last and once, under the lease all of its preparation ran under, its deferred figure (which
    // only an unload leaves) admitted and declared on that lease's record right before
    ensures outcome != CommandStarted ==> NoneStarted(log)
    ensures outcome == CommandStarted ==>
              && StartsLast(log, lease)
              && (r.drain ==> PreparedUnder(r, rounds(k), lease, log[..|log| - 1]))
  {
    log, k, lease, ended := [], 0, first, taken;
    var stop: Option<Outcome> := None;
    if r.drain {
      stop, log, k, lease, ended := Prepare(r, first, taken, rounds);
    }
    ghost var leases := Leases(first, rounds);
    assert Preparing(log, k, leases);
    assert Stopped(r, taken, rounds, k, stop, ended);
    outcome := OutcomeOf(stop, signalBeforeStart);
    if stop.Some? {
      NeverStarts(r, taken, rounds, k, stop, ended);
    } else if !signalBeforeStart {
      Starts(log, k, leases);
      log := log + [Started(lease)];
    }
  }

  /** The last round, the k-th requeue's, met what the outcome says. */
  ghost predicate Explains(r: Request, w: Round, k: nat, signal: bool, outcome: Outcome) {
    match outcome
    case CommandStarted => !signal
    case SeatFault => !w.signal && !LostIn(w)
    case HoldBoundPassed => 0 < r.asked && !w.signal
    case SignalEnded => signal || w.signal || (LostIn(w) && k < 5 && w.next == CutShort)
    case LostTooOften => !w.signal && LostIn(w) && k == 5
    case NotTakenAgain => !w.signal && LostIn(w) && k < 5 && w.next == NotTaken
  }

  /** Every way a reserve can end, in what its last round met: a lost lease is never a seat fault, and it is given up
      only after five requeues, on a signal, or if the cards cannot be taken again. */
  lemma WhyAReserveEnds(r: Request, taken: int, rounds: nat -> Round, k: nat, signal: bool, outcome: Outcome,
                        ended: int)
    requires EndsLike(r, taken, rounds, k, signal, outcome, ended) && k <= 5
    ensures r.drain ==> Explains(r, rounds(k), k, signal, outcome)
    ensures !r.drain ==> outcome == if signal then SignalEnded else CommandStarted
  {
    var stop :| Stopped(r, taken, rounds, k, stop, ended) && outcome == OutcomeOf(stop, signal);
    if r.drain {
      WhyTheLoopStops(r, taken, rounds, k, stop, ended, signal);
    }
  }

  lemma NeverStarts(r: Request, taken: int, rounds: nat -> Round, k: nat, stop: Option<Outcome>, at: int)
    requires StopsWith(r, taken, rounds, k, stop, at) && k <= 5
    ensures stop != Some(CommandStarted)
  {
    WhyTheLoopStops(r, taken, rounds, k, stop, at, false);
  }

  /** The loop stops on a ready round, on what its last round ended with, or on a lease lost for the sixth time or not
      taken again. */
  lemma WhyTheLoopStops(r: Request, taken: int, rounds: nat -> Round, k: nat, stop: Option<Outcome>, at: int,
                        signal: bool)
    requires StopsWith(r, taken, rounds, k, stop, at) && k <= 5
    ensures stop != Some(CommandStarted)
    ensures stop.Some? ==> Explains(r, rounds(k), k, signal, stop.value)
  {
    var now, ended: int, end :| StopsAt(r, taken, rounds, k, stop, at, now, end, ended);
    RoundEndsSo(r, rounds(k), now, end, ended);
  }

  lemma RoundEndsSo(r: Request, w: Round, now: int, end: RoundEnd, ended: int)
    requires RoundEnds(r, w, now, end, ended)
    ensures end in {Ready, Lost, Ended(SeatFault), Ended(HoldBoundPassed), Ended(SignalEnded)}
    ensures end == Lost ==> !w.signal && LostIn(w)
    ensures end == Ended(SeatFault) ==> !w.signal && !LostIn(w)
    ensures end == Ended(HoldBoundPassed) ==> 0 < r.asked && !w.signal
    ensures end == Ended(SignalEnded) ==> w.signal
  {
    var failed, over: int, host, waited: int, d: int
      :| RoundEndsAs(r, w, now, end, ended, failed, over, host, waited, d);
    WhyARoundEnds(r, w, now, end, ended, failed, over, host, waited, d);
  }

  lemma Starts(log: seq<Event>, k: nat, leases: nat -> nat)
    requires Preparing(log, k, leases)
    ensures var log' := log + [Started(leases(k))];
            && RequeuesInOrder(log') && Count(log') == k && UnderLeases(log', leases)
            && StartsLast(log', leases(k)) && log'[..|log'| - 1] == log
  {
    assert (log + [Started(leases(k))])[..|log|] == log;
    StaysUnder(log, leases, Started(leases(k)));
  }

  /** In the log of a reserve every place in line after the first was taken right after a confirmed loss and the release
      of the lease lost. */
  lemma ATakenPlaceFollowsARelease(log: seq<Event>, i: nat)
    requires RequeuesInOrder(log) && i < |log| && log[i].Acquired?
    ensures 2 <= i && log[i - 2].LossConfirmed? && log[i - 1] == Released(log[i - 2].epoch)
  {}

  lemma TheStartIsLast(log: seq<Event>, lease: nat, i: nat)
    requires StartsLast(log, lease) && i < |log|
    ensures log[i].Started? <==> i == |log| - 1
    ensures log[|log| - 1] == Started(lease)
  {
    if i < |log| - 1 { assert log[i] == log[..|log| - 1][i]; }
  }

  /** Right before the start comes the figure left to the host, declared on the same lease's record, if one was; and
      before that the maintain step. */
  lemma WhatPrecedesTheStart(r: Request, w: Round, lease: nat, log: seq<Event>)
    requires PreparedUnder(r, w, lease, log)
    ensures 0 < r.asked ==> 2 <= |log| && log[|log| - 1] == HostAdmitted(lease, r.asked)
    ensures var cleared := |log| - if 0 < r.asked then 2 else 1;
            0 <= cleared && log[cleared].Cleared? && log[cleared].epoch == lease && DidAll(r, w, log[cleared].did)
  {}

  /** A maintain step that did all it was asked drained, stamped and asked for every unload, where that was asked
      for. */
  lemma WhatDoingAllIs(r: Request, w: Round, did: seq<M.Event>)
    requires DidAll(r, w, did)
    ensures r.drain <==> did != [] && did[0] == M.SeatDrained
    ensures r.drain || r.exclusive ==> M.Stamped(r.exclusive) in did
    ensures r.unload ==> M.Asks(M.ClearLog(w.world.answer, w.plan)) + M.DebtEvents(w.plan, w.world) <= Rest(r, did)
    ensures !r.unload ==> Rest(r, did) == []
  {
    assert r.drain || r.exclusive ==> did[|M.DrainEvents(Steps(r))|] == M.Stamped(r.exclusive);
  }

  /** What follows the drain and the stamp. */
  function Rest(r: Request, did: seq<M.Event>): seq<M.Event> {
    var n := (if r.drain then 1 else 0) + (if r.drain || r.exclusive then 1 else 0);
    if n <= |did| then did[n..] else []
  }

  /** Where the next place in line is waited for until: its turn, if that comes within the budget or the floor; at once,
      if it has come; never past it. */
  lemma AQueueEnds(r: Request, w: Round, now: int)
    ensures var over := QueueOver(r, w, now) - w.late;
            var end := if r.wait == 0 then now else Max(r.queuedAt + r.wait, now + 120_000);
            && now <= over <= end
            && (w.turn <= now ==> over == now)
            && (now <= w.turn <= end ==> over == w.turn)
            && (end <= w.turn ==> over == end)
  {}
}
