/** The detached reserve and its hidden holder, as processes over one lease record.

    The reserve clears the seat under an outer bound it keeps moving, waits for the host under the
    wait's own end, and on a wait that fails pushes that end out before it releases the lease. The
    holder polls: it reads its clock, then the record, and releases a lease whose stamped end is
    past. Every write of the record and both reads of the holder are separate steps, so any other
    process may run, and any time may pass, between them. */
module HoldProtocol {
  import opened Common
  import opened Deadlines

  /** The lease record: what is still asked of the host, and the stamped moment. */
  datatype Record = Absent | Held(asked: nat, until: Option<int>)

  /** A stamp lands only on a lease that is there and still asks for the host. */
  function Stamped(r: Record, at: int): Record {
    if r.Held? && 0 < r.asked then r.(until := Some(at)) else r
  }

  function Admitted(r: Record): Record {
    if r.Held? then Held(0, None) else r
  }

  datatype Reserve =
    | Clearing(base: Option<int>, pending: Option<int>) // base: when the stamp on the record was computed
    | Cleared(base: Option<int>)                        // the refresher is stopped
    | Stamping(base: Option<int>, end: int)             // the wait's own stamp is being written
    | Waiting(end: int)
    | WaitFailed(mark: Option<int>)                     // mark: the last moment this reserve put on the record
    | Pushing(mark: Option<int>, moment: int)
    | Releasing(mark: Option<int>)
    | Running                                           // the host admitted the figure
    | Ended(at: int)                                    // died, failed, or done

  datatype Holder =
    | Polling(seen: int)                  // seen: the last clock it tested the record with
    | HasClock(clock: int, seen: int)
    | HasRecord(record: Record, seen: int)
    | Acting                              // it has decided to release the lease, on its stamped end
    | Quitting                            // it lets the lease go for another reason, and releases it too
    | Exited

  datatype State = State(now: int, record: Record, reserve: Reserve, holder: Holder)

  /** clockFirst is the order of the holder's two reads. */
  datatype Config = Config(holdMax: nat, waitEnd: int, clockFirst: bool)

  datatype Step =
    | Advance(d: nat)
    | OuterComputes | OuterLands | OuterFails | OuterStops
    | WaitBegins | WaitStampLands | WaitStampGivesUp
    | HostAdmits | WaitEndsUnadmitted
    | PushComputes | PushLands | PushFails | ReserveReleases
    | ReserveEnds          // killed, or the drain or the unload failed
    | LeaseRemoved         // an operator's release, a reclaim
    | HolderReadsClock | HolderReadsRecord | HolderLetsGo | HolderReleases
    | HolderReadFails      // the record cannot be read at this poll: no test
    | HolderQuits          // unreadable through the whole window, or the expiry it was asked to release at

  predicate Live(r: Reserve) { !r.Ended? }

  function OuterMark(c: Config, base: Option<int>): Option<int> {
    if base.Some? then Some(OuterMoment(base.value, c.holdMax, c.waitEnd)) else None
  }

  function Tested(s: State, clock: int): State {
    if s.record.Held? && HolderActs(clock, s.record.asked, s.record.until)
    then s.(holder := Acting)
    else s.(holder := Polling(clock))
  }

  function ReserveStep(c: Config, s: State, step: Step): Option<State> {
    match (s.reserve, step)
    case (Clearing(b, None), OuterComputes) => Some(s.(reserve := Clearing(b, Some(s.now))))
    case (Clearing(b, Some(at)), OuterLands) =>
      if !s.record.Held? then None
      else
        var stamped := Stamped(s.record, OuterMoment(at, c.holdMax, c.waitEnd));
        Some(s.(record := stamped, reserve := Clearing(Some(at), None)))
    case (Clearing(b, Some(at)), OuterFails) => Some(s.(reserve := Clearing(b, None)))
    case (Clearing(b, None), OuterStops) => Some(s.(reserve := Cleared(b)))
    case (Cleared(b), WaitBegins) =>
      Some(s.(reserve := Stamping(b, WaitEnd(s.now, c.holdMax, Max(c.waitEnd, s.now + DRAIN_FLOOR)))))
    case (Stamping(b, end), WaitStampLands) =>
      if s.record.Held? then Some(s.(record := Stamped(s.record, end), reserve := Waiting(end))) else None
    case (Stamping(b, end), WaitStampGivesUp) => Some(s.(reserve := WaitFailed(OuterMark(c, b))))
    case (Waiting(end), HostAdmits) =>
      if s.record.Held? then Some(s.(record := Admitted(s.record), reserve := Running)) else None
    case (Waiting(end), WaitEndsUnadmitted) => Some(s.(reserve := WaitFailed(Some(end))))
    case (WaitFailed(m), PushComputes) => Some(s.(reserve := Pushing(m, s.now + DETACHED_RELEASE_GRACE)))
    case (Pushing(m, at), PushLands) =>
      if s.record.Held? then Some(s.(record := Stamped(s.record, at), reserve := Releasing(Some(at)))) else None
    case (Pushing(m, at), PushFails) => Some(s.(reserve := Releasing(m)))
    case (Releasing(m), ReserveReleases) => Some(s.(record := Absent, reserve := Ended(s.now)))
    case (r, ReserveEnds) => if Live(r) then Some(s.(reserve := Ended(s.now))) else None
    case _ => None
  }

  function HolderStep(c: Config, s: State, step: Step): Option<State> {
    match (s.holder, step)
    case (Polling(seen), HolderReadsClock) =>
      if c.clockFirst then Some(s.(holder := HasClock(s.now, seen))) else None
    case (HasClock(clock, seen), HolderReadsRecord) => Some(Tested(s, clock))
    case (Polling(seen), HolderReadsRecord) =>
      if c.clockFirst then None else Some(s.(holder := HasRecord(s.record, seen)))
    case (HasRecord(r, seen), HolderReadsClock) =>
      Some(s.(holder := Tested(s.(record := r), s.now).holder))
    case (Polling(seen), HolderLetsGo) => if s.record.Absent? then Some(s.(holder := Exited)) else None
    case (HasClock(clock, seen), HolderReadFails) => Some(s.(holder := Polling(seen)))
    case (Polling(seen), HolderQuits) => Some(s.(holder := Quitting))
    case (Acting, HolderReleases) => Some(s.(record := Absent, holder := Exited))
    case (Quitting, HolderReleases) => Some(s.(record := Absent, holder := Exited))
    case _ => None
  }

  function Apply(c: Config, s: State, step: Step): Option<State> {
    match step
    case Advance(d) => Some(s.(now := s.now + d))
    case LeaseRemoved => Some(s.(record := Absent))
    case HolderReadsClock => HolderStep(c, s, step)
    case HolderReadsRecord => HolderStep(c, s, step)
    case HolderLetsGo => HolderStep(c, s, step)
    case HolderReleases => HolderStep(c, s, step)
    case HolderReadFails => HolderStep(c, s, step)
    case HolderQuits => HolderStep(c, s, step)
    case _ => ReserveStep(c, s, step)
  }

  /** The hidden holder has just taken the lease, which asks for the host; no stamp is on it yet. */
  predicate Init(s: State) {
    && s.record.Held? && 0 < s.record.asked && s.record.until == None
    && s.reserve == Clearing(None, None)
    && s.holder == Polling(s.now)
  }

  ghost predicate IsTrace(c: Config, t: seq<State>) {
    && 0 < |t| && Init(t[0])
    && forall i :: 0 <= i < |t| - 1 ==> Steps(c, t[i], t[i + 1])
  }

  ghost predicate Steps(c: Config, s: State, s': State) {
    exists step: Step :: Apply(c, s, step) == Some(s')
  }

  /** A trace is a shorter trace and one step. */
  lemma LastStep(c: Config, t: seq<State>) returns (front: seq<State>, s: State, step: Step)
    requires IsTrace(c, t) && 1 < |t|
    ensures front == t[..|t| - 1] && IsTrace(c, front) && s == front[|front| - 1]
    ensures Apply(c, s, step) == Some(t[|t| - 1])
  {
    front := t[..|t| - 1];
    s := front[|front| - 1];
    assert forall i :: 0 <= i < |front| - 1 ==> Steps(c, t[i], t[i + 1]);
    assert Steps(c, t[|t| - 2], t[|t| - 2 + 1]);
    step :| Apply(c, s, step) == Some(t[|t| - 1]);
  }

  lemma Extend(c: Config, t: seq<State>, step: Step, s': State)
    requires IsTrace(c, t) && Apply(c, t[|t| - 1], step) == Some(s')
    ensures IsTrace(c, t + [s'])
  {
    assert Steps(c, t[|t| - 1], s');
    forall i | 0 <= i < |t|
      ensures Steps(c, (t + [s'])[i], (t + [s'])[i + 1])
    {
      if i < |t| - 1 { assert Steps(c, t[i], t[i + 1]); }
    }
  }

  // ---- The holder never releases under a live reserve ----

  /** A live reserve's own promises: it re-stamps at most late behind its cadence, and it puts the next
      moment on the record within the grace of the last one it promised. It says nothing of the record. */
  predicate Punctual(s: State, late: nat) {
    match s.reserve
    case Clearing(b, _) => b.Some? ==> s.now <= b.value + OUTER_REFRESH_EVERY + late
    case Cleared(b) => b.Some? ==> s.now <= b.value + OUTER_REFRESH_EVERY + late
    case Stamping(b, end) =>
      && (b.Some? ==> s.now <= b.value + OUTER_REFRESH_EVERY + late)
      && s.now <= end + HOLD_BOUND_GRACE
    case Waiting(end) => s.now <= end + HOLD_BOUND_GRACE
    case WaitFailed(m) => m.Some? ==> s.now <= m.value + HOLD_BOUND_GRACE
    case Pushing(m, _) => m.Some? ==> s.now <= m.value + HOLD_BOUND_GRACE
    case Releasing(m) => m.Some? ==> s.now <= m.value + HOLD_BOUND_GRACE
    case Running => true
    case Ended(_) => true
  }

  /** What a live reserve believes is on the record is what is on the record. */
  predicate Agrees(c: Config, s: State) {
    s.record.Held? && 0 < s.record.asked ==>
      match s.reserve
      case Clearing(b, _) => s.record.until == OuterMark(c, b)
      case Cleared(b) => s.record.until == OuterMark(c, b)
      case Stamping(b, _) => s.record.until == OuterMark(c, b)
      case Waiting(end) => s.record.until == Some(end)
      case WaitFailed(m) => s.record.until == m
      case Pushing(m, _) => s.record.until == m
      case Releasing(m) => s.record.until == m
      case Running => false
      case Ended(_) => true
  }

  predicate ClockIsPast(s: State) {
    && (s.holder.Polling? ==> s.holder.seen <= s.now)
    && (s.holder.HasClock? ==> s.holder.seen <= s.holder.clock <= s.now)
  }

  predicate Safe(c: Config, s: State) {
    && Agrees(c, s)
    && ClockIsPast(s)
    && !s.holder.HasRecord?
    && (s.holder.Acting? ==> !Live(s.reserve))
  }

  /** A punctual live reserve keeps the record's moment, plus the grace, ahead of the clock. */
  lemma MomentStaysAhead(c: Config, s: State, late: nat)
    requires Agrees(c, s) && Live(s.reserve) && Punctual(s, late)
    requires late <= OUTER_SLACK + HOLD_BOUND_GRACE - OUTER_REFRESH_EVERY
    requires s.record.Held? && 0 < s.record.asked && s.record.until.Some?
    ensures s.now <= s.record.until.value + HOLD_BOUND_GRACE
  {}

  lemma SafeHolderStep(c: Config, s: State, step: Step, s': State, late: nat)
    requires c.clockFirst && Safe(c, s) && Punctual(s, late)
    requires late <= OUTER_SLACK + HOLD_BOUND_GRACE - OUTER_REFRESH_EVERY
    requires HolderStep(c, s, step) == Some(s')
    ensures Safe(c, s')
  {
    if Live(s.reserve) && s.record.Held? && 0 < s.record.asked && s.record.until.Some? {
      MomentStaysAhead(c, s, late);
    }
  }

  lemma SafeReserveStep(c: Config, s: State, step: Step, s': State)
    requires Safe(c, s) && ReserveStep(c, s, step) == Some(s')
    ensures Safe(c, s')
  {}

  lemma SafeStep(c: Config, s: State, step: Step, s': State, late: nat)
    requires c.clockFirst && Safe(c, s) && Punctual(s, late)
    requires late <= OUTER_SLACK + HOLD_BOUND_GRACE - OUTER_REFRESH_EVERY
    requires Apply(c, s, step) == Some(s')
    ensures Safe(c, s')
  {
    if HolderStep(c, s, step) == Some(s') {
      SafeHolderStep(c, s, step, s', late);
    } else if ReserveStep(c, s, step) == Some(s') {
      SafeReserveStep(c, s, step, s');
    }
  }

  /** In every run in which a live reserve keeps its promises, with every interleaving of the two
      processes and of the record's other writers, the holder never decides on a stamped end to release under it. */
  lemma {:induction false} HolderNeverActsUnderALiveReserve(c: Config, t: seq<State>, late: nat)
    requires c.clockFirst && IsTrace(c, t)
    requires late <= 60_000
    requires forall i :: 0 <= i < |t| ==> Punctual(t[i], late)
    ensures forall i :: 0 <= i < |t| ==> Safe(c, t[i])
    ensures forall i :: 0 <= i < |t| && t[i].holder.Acting? ==> t[i].reserve.Ended?
  {
    if 1 < |t| {
      var front, s, step := LastStep(c, t);
      HolderNeverActsUnderALiveReserve(c, front, late);
      SafeStep(c, s, step, t[|t| - 1], late);
    }
  }

  // ---- The order of the two reads is what makes that true ----

  /** With the record read first, a punctual reserve loses its lease: the holder is starved between
      its two reads while the reserve re-stamps twice, on time. */
  lemma RecordFirstReleasesUnderALiveReserve()
    ensures var c := Config(0, 0, false);
            var s := State(0, Held(7, None), Clearing(None, None), Polling(0));
            && Init(s)
            && exists t: seq<State>, s': State ::
                 && PunctualTrace(c, t, s', 1_000)
                 && s'.holder.Acting? && !s'.reserve.Ended?
                 && s'.now == 91_000 && s'.record == Held(7, Some(120_000))
  {
    var t, s := StarvedHolder();
    var c := Config(0, 0, false);
    t, s := Onward(c, 1_000, t, s, OuterComputes, s.(reserve := Clearing(Some(30_000), Some(60_000))));
    t, s := Onward(c, 1_000, t, s, OuterLands,
                   s.(record := Held(7, Some(120_000)), reserve := Clearing(Some(60_000), None)));
    t, s := Onward(c, 1_000, t, s, Advance(31_000), s.(now := 91_000));
    t, s := Onward(c, 1_000, t, s, HolderReadsClock, s.(holder := Acting));
    assert PunctualTrace(c, t, s, 1_000);
  }

  /** The holder has read the record at 0 s, with its moment at 60 s, and no clock yet; at 60 s the
      reserve has re-stamped once. */
  lemma StarvedHolder() returns (t: seq<State>, s: State)
    ensures PunctualTrace(Config(0, 0, false), t, s, 1_000)
    ensures s == State(60_000, Held(7, Some(90_000)), Clearing(Some(30_000), None), HasRecord(Held(7, Some(60_000)), 0))
  {
    var c := Config(0, 0, false);
    s := State(0, Held(7, None), Clearing(None, None), Polling(0));
    t := [s];
    t, s := Onward(c, 1_000, t, s, OuterComputes, s.(reserve := Clearing(None, Some(0))));
    t, s := Onward(c, 1_000, t, s, OuterLands, s.(record := Held(7, Some(60_000)), reserve := Clearing(Some(0), None)));
    t, s := Onward(c, 1_000, t, s, HolderReadsRecord, s.(holder := HasRecord(s.record, 0)));
    t, s := Onward(c, 1_000, t, s, Advance(30_000), s.(now := 30_000));
    t, s := Onward(c, 1_000, t, s, OuterComputes, s.(reserve := Clearing(Some(0), Some(30_000))));
    t, s := Onward(c, 1_000, t, s, OuterLands,
                   s.(record := Held(7, Some(90_000)), reserve := Clearing(Some(30_000), None)));
    t, s := Onward(c, 1_000, t, s, Advance(30_000), s.(now := 60_000));
  }

  ghost predicate PunctualTrace(c: Config, t: seq<State>, s: State, late: nat) {
    && IsTrace(c, t) && t[|t| - 1] == s
    && forall i :: 0 <= i < |t| ==> Punctual(t[i], late)
  }

  lemma Onward(c: Config, late: nat, t: seq<State>, s: State, step: Step, next: State)
    returns (t': seq<State>, s': State)
    requires PunctualTrace(c, t, s, late)
    requires Apply(c, s, step) == Some(next) && Punctual(next, late)
    ensures s' == next && PunctualTrace(c, t', s', late)
  {
    s' := next;
    t' := t + [s'];
    Extend(c, t, step, s');
  }

  /** The lateness allowed above cannot be raised: with no hold bound, a re-stamp one millisecond later
      than that loses the lease of a live reserve, reads in the right order. */
  lemma ALaterReserveLosesItsLease()
    ensures exists t: seq<State>, s': State ::
              PunctualTrace(Config(0, 0, true), t, s', 60_001) && s'.holder.Acting? && !s'.reserve.Ended?
  {
    var c := Config(0, 0, true);
    var t, s := AStampThenSilence();
    t, s := Onward(c, TOO_LATE, t, s, HolderReadsClock, s.(holder := HasClock(90_001, 0)));
    t, s := Onward(c, TOO_LATE, t, s, HolderReadsRecord, s.(holder := Acting));
    assert PunctualTrace(c, t, s, 60_001);
  }

  const TOO_LATE: nat := OUTER_SLACK + HOLD_BOUND_GRACE - OUTER_REFRESH_EVERY + 1

  lemma AStampThenSilence() returns (t: seq<State>, s: State)
    ensures PunctualTrace(Config(0, 0, true), t, s, TOO_LATE)
    ensures s == State(90_001, Held(7, Some(60_000)), Clearing(Some(0), None), Polling(0))
  {
    var c := Config(0, 0, true);
    s := State(0, Held(7, None), Clearing(None, None), Polling(0));
    t := [s];
    t, s := Onward(c, TOO_LATE, t, s, OuterComputes, s.(reserve := Clearing(None, Some(0))));
    t, s := Onward(c, TOO_LATE, t, s, OuterLands,
                   s.(record := Held(7, Some(60_000)), reserve := Clearing(Some(0), None)));
    t, s := Onward(c, TOO_LATE, t, s, Advance(90_001), s.(now := 90_001));
  }

  // ---- A reserve that ends leaves the cards held for a bounded time ----

  /** When the reserve ended, or now while it lives. */
  function LastAlive(s: State): int { if s.reserve.Ended? then s.reserve.at else s.now }

  /** No moment the reserve can have left on the record lies beyond this. */
  function Reach(c: Config, at: int): int {
    if 0 < c.holdMax then at + Max(c.holdMax + OUTER_SLACK, DETACHED_RELEASE_GRACE)
    else Max(c.waitEnd, at + DETACHED_RELEASE_GRACE)
  }

  /** One holder iteration: from one clock reading to the end of the record test of the next. */
  predicate HolderKeepsUp(s: State, iteration: nat) {
    && (s.holder.Polling? ==> s.now <= s.holder.seen + iteration)
    && (s.holder.HasClock? ==> s.now <= s.holder.seen + iteration)
  }

  predicate Seen(s: State, seen: int) {
    s.record.Held? && 0 < s.record.asked && s.record.until.Some? ==>
      seen <= Max(LastAlive(s), s.record.until.value + HOLD_BOUND_GRACE)
  }

  predicate Bounded(c: Config, s: State) {
    && ClockIsPast(s)
    && !s.holder.HasRecord?
    && LastAlive(s) <= s.now
    && (s.record.Held? && s.record.until.Some? ==> s.record.until.value <= Reach(c, LastAlive(s)))
    && (s.reserve.Clearing? && s.reserve.pending.Some? ==> s.reserve.pending.value <= s.now)
    && (s.reserve.Stamping? ==> s.reserve.end <= Reach(c, s.now))
    && (s.reserve.Pushing? ==> s.reserve.moment <= Reach(c, s.now))
    && (s.holder.Polling? || s.holder.HasClock? ==> Seen(s, s.holder.seen))
  }

  lemma BoundedHolderStep(c: Config, s: State, step: Step, s': State)
    requires c.clockFirst && Bounded(c, s) && HolderStep(c, s, step) == Some(s')
    ensures Bounded(c, s')
  {}

  lemma BoundedReserveStep(c: Config, s: State, step: Step, s': State)
    requires Bounded(c, s) && ReserveStep(c, s, step) == Some(s')
    ensures Bounded(c, s')
  {}

  lemma BoundedStep(c: Config, s: State, step: Step, s': State)
    requires c.clockFirst && Bounded(c, s) && Apply(c, s, step) == Some(s')
    ensures Bounded(c, s')
  {
    if HolderStep(c, s, step) == Some(s') {
      BoundedHolderStep(c, s, step, s');
    } else if ReserveStep(c, s, step) == Some(s') {
      BoundedReserveStep(c, s, step, s');
    }
  }

  lemma {:induction false} TraceIsBounded(c: Config, t: seq<State>)
    requires c.clockFirst && IsTrace(c, t)
    ensures Bounded(c, t[|t| - 1])
  {
    if 1 < |t| {
      var front, s, step := LastStep(c, t);
      TraceIsBounded(c, front);
      BoundedStep(c, s, step, t[|t| - 1]);
    }
  }

  /** However the reserve ended, at time d, without the host's admission: once a stamp is on the
      record, the holder has decided to release (or has let go) by Reach(d) plus the grace plus
      one iteration. With a hold bound that is d + max(holdMax + 60 s, 15 min) + 30 s + one iteration. */
  lemma IdleHoldIsBounded(c: Config, t: seq<State>, iteration: nat)
    requires c.clockFirst && IsTrace(c, t)
    requires var s := t[|t| - 1];
             && HolderKeepsUp(s, iteration)
             && s.reserve.Ended?
             && s.record.Held? && 0 < s.record.asked && s.record.until.Some?
             && (if 0 < c.holdMax then s.now > s.reserve.at + Max(c.holdMax + 60_000, 900_000) + 30_000 + iteration
                 else s.now > Max(c.waitEnd, s.reserve.at + 900_000) + 30_000 + iteration)
    ensures var s := t[|t| - 1]; s.holder.Acting? || s.holder.Quitting? || s.holder.Exited?
  {
    TraceIsBounded(c, t);
  }

  /** Where the record still asks and carries no stamp, that bound does not exist: the holder never acts on it,
      however long the dead reserve's lease stays held. */
  lemma {:induction false} UnstampedLeaseIsNeverReleased(c: Config, t: seq<State>, k: nat)
    requires c.clockFirst && IsTrace(c, t) && k < |t|
    requires t[k].reserve.Ended? && !t[k].holder.Acting? && !t[k].holder.HasRecord?
    requires t[k].record.Absent? || t[k].record.until == None
    ensures !t[|t| - 1].holder.Acting?
    ensures t[|t| - 1].reserve.Ended? && !t[|t| - 1].holder.HasRecord?
    ensures t[|t| - 1].record.Absent? || t[|t| - 1].record.until == None
    decreases |t|
  {
    if k < |t| - 1 {
      var front, s, step := LastStep(c, t);
      UnstampedLeaseIsNeverReleased(c, front, k);
    }
  }

  /** ... and such a lease is reached, and held for any time: the one outer stamp fails, and the reserve dies. */
  lemma AnUnstampedLeaseIsHeldForEver(c: Config, d: nat) returns (t: seq<State>, s: State)
    requires c.clockFirst
    ensures IsTrace(c, t) && t[|t| - 1] == s
    ensures s == State(d, Held(7, None), Ended(0), Polling(0))
  {
    s := State(0, Held(7, None), Clearing(None, None), Polling(0));
    t := [s];
    t, s := Onward(c, 0, t, s, OuterComputes, s.(reserve := Clearing(None, Some(0))));
    t, s := Onward(c, 0, t, s, OuterFails, s.(reserve := Clearing(None, None)));
    t, s := Onward(c, 0, t, s, ReserveEnds, s.(reserve := Ended(0)));
    t, s := Onward(c, 0, t, s, Advance(d), s.(now := d));
  }

  /** The clock of a trace never runs backwards. */
  lemma {:induction false} NowGoesOn(c: Config, t: seq<State>, a: nat, b: nat)
    requires IsTrace(c, t) && a <= b < |t|
    ensures t[a].now <= t[b].now
    decreases b
  {
    if a < b {
      NowGoesOn(c, t, a, b - 1);
      assert Steps(c, t[b - 1], t[b - 1 + 1]);
    }
  }

  /** Once the host has admitted the figure the lease asks for nothing again, and the holder that has
      not decided yet never acts on a stamp. */
  lemma {:induction false} AdmittedLeaseIsLeftAlone(c: Config, t: seq<State>, k: nat)
    requires c.clockFirst && IsTrace(c, t) && k < |t|
    requires t[k].record.Held? ==> t[k].record.asked == 0
    requires !t[k].holder.Acting? && !t[k].holder.HasRecord?
    ensures t[|t| - 1].record.Held? ==> t[|t| - 1].record.asked == 0
    ensures !t[|t| - 1].holder.Acting? && !t[|t| - 1].holder.HasRecord?
    decreases |t|
  {
    if k < |t| - 1 {
      var front, s, step := LastStep(c, t);
      AdmittedLeaseIsLeftAlone(c, front, k);
    }
  }
}
