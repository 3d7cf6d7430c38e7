/** The loops and writers behind the protocol: the outer bound's stamp, the bounded wait, the release
    of a wait that failed, the hidden holder's poll loop and its own release. */
module HoldLoops {
  import opened Common
  import opened Deadlines
  import opened Fence
  import P = HoldProtocol
  import R = Release

  // ---- The reserve's writers ----

  /** The one record both processes write. Whether a write of the file lands is not the writer's choice. */
  class LeaseRecord {
    var there: bool
    var asked: nat      // the figure the lease still asks the host for
    var declared: nat   // the figure it has declared, which every other grant counts
    var until: Option<int>

    function View(): P.Record
      reads this
    {
      if there then P.Held(asked, until) else P.Absent
    }

    constructor (asked: nat)
      ensures View() == P.Held(asked, None) && declared == 0
    {
      there, this.asked, declared, until := true, asked, 0, None;
    }

    /** A restamp refuses a lease that is gone; on an admitted lease it writes nothing and succeeds. */
    method StampHold(at: int, lands: bool) returns (ok: bool)
      modifies this
      ensures ok <==> lands && old(View()).Held?
      ensures View() == (if ok then P.Stamped(old(View()), at) else old(View())) && declared == old(declared)
      ensures there == old(there) && asked == old(asked)
      ensures until == if lands && there && 0 < asked then Some(at) else old(until)
    {
      ok := lands && there;
      if ok && 0 < asked {
        until := Some(at);
      }
    }

    /** The check that admits the figure and the write that clears the wait are one critical section: what was
        asked is declared. A figure admitted already is left as it is. */
    method Admit() returns (ok: bool)
      modifies this
      ensures ok <==> old(View()).Held?
      ensures View() == P.Admitted(old(View()))
      ensures declared == if ok && 0 < old(asked) then old(asked) else old(declared)
      ensures there == old(there) && (there ==> asked == 0 && until == None)
    {
      ok := there;
      if ok {
        if 0 < asked {
          declared := asked;
        }
        asked, until := 0, None;
      }
    }

    /** Another process removed the record. */
    method Vanish()
      modifies this
      ensures View() == P.Absent && declared == old(declared)
    {
      there := false;
    }

    /** A release that reports success and leaves the record is possible: lands says what happened. */
    method Release(lands: bool)
      modifies this
      ensures View() == (if lands then P.Absent else old(View())) && declared == old(declared)
    {
      if lands {
        there := false;
      }
    }
  }

  /** The outer bound a live detached reserve keeps moving. */
  class OuterBound {
    var last: Option<int>

    constructor ()
      ensures last == None
    {
      last := None;
    }

    /** One stamp: now is read before the write. A stamp that does not land leaves the last one standing. */
    method Stamp(record: LeaseRecord, now: int, holdMax: nat, waitEnd: int, lands: bool) returns (ok: bool)
      modifies this, record
      ensures ok <==> lands && old(record.View()).Held?
      ensures record.View() == if ok
                then P.Stamped(old(record.View()), OuterMoment(now, holdMax, waitEnd)) else old(record.View())
      ensures last == if ok then Some(OuterMoment(now, holdMax, waitEnd)) else old(last)
      ensures ok ==> record.declared == old(record.declared) && now + 60_000 <= last.value
      ensures ok && 0 < holdMax ==> last == Some(now + holdMax + 60_000)
      ensures ok && holdMax == 0 ==> last.value in {waitEnd, now + 60_000} && waitEnd <= last.value
      ensures ok && 0 < record.asked ==> record.until == last
    {
      var at := now + holdMax + OUTER_SLACK;
      if holdMax == 0 {
        at := waitEnd;
        var floor := now + OUTER_SLACK;
        if at < floor {
          at := floor;
        }
      }
      ok := record.StampHold(at, lands);
      if ok {
        last := Some(at);
      }
    }
  }

  /** What the host answers to one look, after the unload. */
  datatype HostLook = Admits | Short | Impossible

  datatype Awaited =
    | HostAdmitted
    | BoundPassed            // the hold bound ended the wait
    | WaitRefused            // --wait ended it, or no state of the box admits the figure
    | StampFailed            // the detached form's end could not be put on the record
    | AdmitFailed            // the host admits the figure, but the record could not be written
    | Cancelled
    | LeaseGone
    | RecordUnread           // the record cannot be read: not known to be gone

  /** Whether the lease is among the live ones; one that is not is looked for again before it is believed. */
  datatype Presence = Present | Missing | Unread

  /** The world of one wait: what look k finds of the lease and the host, whether another caller of the lease has
      had the figure admitted by then, whether the wait is cancelled, and whether the stamps and the admission
      written at it land. clock(k) is read after look k. */
  datatype WaitWorld = WaitWorld(clock: Clock, presence: nat -> Presence, already: nat -> bool, cancelled: nat -> bool,
                                 look: nat -> HostLook, stampLands: nat -> nat -> bool, admitLands: nat -> bool)

  /** Some try of look k's stamp lands. */
  ghost predicate LandsAt(w: WaitWorld, failClosed: bool, k: nat) {
    exists i: nat :: i < Tries(failClosed) && w.stampLands(k)(i)
  }

  /** The wrapper form tries its stamp once at each look until it lands, the detached form four times at the first. */
  function Tries(failClosed: bool): nat { if failClosed then STAMP_TRIES else 1 }

  /** What look k finds before it comes to the stamp and the host. A pause that is cancelled ends the wait first. */
  function Before(w: WaitWorld, k: nat): Option<Awaited> {
    if 0 < k && w.cancelled(k) then Some(Cancelled)
    else if w.presence(k) == Missing then Some(LeaseGone)
    else if w.presence(k) == Unread then Some(RecordUnread)
    else if w.already(k) then Some(HostAdmitted)
    else if w.cancelled(k) then Some(Cancelled)
    else None
  }

  /** How look k ends the wait, if it does. */
  ghost function EndsAt(w: WaitWorld, start: int, deadline: int, holdMax: nat, failClosed: bool, k: nat)
    : Option<Awaited>
  {
    if Before(w, k).Some? then Before(w, k)
    else if failClosed && !LandsAt(w, failClosed, 0) then Some(StampFailed)
    else match w.look(k)
      case Admits => Some(if w.admitLands(k) then HostAdmitted else AdmitFailed)
      case Impossible => Some(WaitRefused)
      case Short =>
        if w.clock(k) < WaitEnd(start, holdMax, deadline) then None
        else Some(if WaitEnd(start, holdMax, deadline) < deadline then BoundPassed else WaitRefused)
  }

  /** What each look of a wait comes to, in what it finds: a cancelled pause ends the wait before anything is read; a
      lease gone, or not to be read, before anything is done; what another caller had admitted, before a cancel; then
      the host is asked, and no wait outlives the earlier of its hold bound and its deadline. */
  lemma ALookComesTo(w: WaitWorld, start: int, deadline: int, holdMax: nat, failClosed: bool, k: nat)
    ensures var e := EndsAt(w, start, deadline, holdMax, failClosed, k);
            var paused := 0 < k && w.cancelled(k);
            var bounded := 0 < holdMax && start + holdMax < deadline;
            var over := w.clock(k) >= deadline || (0 < holdMax && w.clock(k) >= start + holdMax);
            var unseen := failClosed && forall i: nat :: i < 4 ==> !w.stampLands(0)(i);
            var here := w.presence(k) == Present;
            var asks := here && !w.already(k) && !w.cancelled(k) && !unseen;
            && (e == Some(Cancelled) <==> w.cancelled(k) && (0 < k || (here && !w.already(k))))
            && (e == Some(LeaseGone) <==> !paused && w.presence(k) == Missing)
            && (e == Some(RecordUnread) <==> !paused && w.presence(k) == Unread)
            && (e == Some(StampFailed) <==> here && !w.already(k) && !w.cancelled(k) && unseen)
            && (e == Some(HostAdmitted) <==>
                  || (here && !paused && w.already(k)) || (asks && w.look(k) == Admits && w.admitLands(k)))
            && (e == Some(AdmitFailed) <==> asks && w.look(k) == Admits && !w.admitLands(k))
            && (e == Some(BoundPassed) <==> asks && w.look(k) == Short && over && bounded)
            && (e == Some(WaitRefused) <==>
                  asks && (w.look(k) == Impossible || (w.look(k) == Short && over && !bounded)))
            && (e == None <==> asks && w.look(k) == Short && !over)
  {
    if failClosed {
      assert LandsAt(w, failClosed, 0) <==> exists i: nat :: i < 4 && w.stampLands(0)(i);
    }
  }

  /** The stamp was put on the record at some look up to k. */
  ghost predicate StampedBy(w: WaitWorld, failClosed: bool, k: nat) {
    exists j: nat :: j <= k && Before(w, j).None? && LandsAt(w, failClosed, j)
  }

  /** The wrapper form stamps at any look it gets to, in one try; the detached form in four. */
  lemma AStampIsOnTheRecord(w: WaitWorld, failClosed: bool, k: nat)
    ensures StampedBy(w, failClosed, k) <==>
            exists j: nat ::
              && j <= k && w.presence(j) == Present && !w.already(j) && !w.cancelled(j)
              && exists i: nat :: i < (if failClosed then 4 else 1) && w.stampLands(j)(i)
  {
    forall j: nat | j <= k
      ensures Before(w, j).None? && LandsAt(w, failClosed, j) <==>
              && w.presence(j) == Present && !w.already(j) && !w.cancelled(j)
              && exists i: nat :: i < (if failClosed then 4 else 1) && w.stampLands(j)(i)
    {}
  }

  ghost predicate Ticks(w: WaitWorld, k: nat) { w.clock(k) < w.clock(k + 1) }

  const STAMP_TRIES := 4

  /** The wait's stamp at one look: one try for the wrapper form, four for the detached form. */
  method StampWait(record: LeaseRecord, end: int, tries: nat, lands: nat -> bool) returns (ok: bool)
    modifies record
    ensures ok <==> old(record.View()).Held? && exists k: nat :: k < tries && lands(k)
    ensures record.View() == (if ok then P.Stamped(old(record.View()), end) else old(record.View()))
    ensures record.declared == old(record.declared)
  {
    ok := false;
    for k := 0 to tries
      invariant ok <==> old(record.View()).Held? && exists j: nat :: j < k && lands(j)
      invariant record.View() == (if ok then P.Stamped(old(record.View()), end) else old(record.View()))
      invariant record.declared == old(record.declared)
    {
      if !ok {
        ok := record.StampHold(end, lands(k));
      }
    }
  }

  /** Put the host-RAM check of a lease that cleared the seat, still holding the cards. n is the look
      that ended the wait. */
  method AwaitHostRAMBounded(record: LeaseRecord, w: WaitWorld, start: int, deadline: int, holdMax: nat,
                             failClosed: bool)
    returns (result: Awaited, n: nat, stamped: bool)
    requires record.View().Held? && 0 < record.View().asked
    requires forall k: nat :: Ticks(w, k)
    modifies record
    // the wait ends at the first look that gives a reason, and with the reason that look gives
    ensures forall k: nat :: k < n ==> EndsAt(w, start, deadline, holdMax, failClosed, k) == None
    ensures EndsAt(w, start, deadline, holdMax, failClosed, n) == Some(result)
    ensures stamped <==> StampedBy(w, failClosed, n)
    // the command may run exactly when the figure asked was admitted, and then it is what the record declares
    ensures result == HostAdmitted ==> record.View() == P.Held(0, None) && record.declared == old(record.asked)
    ensures result == LeaseGone ==> record.View() == P.Absent
    // any other end leaves the figure asked, with the wait's own end on the record if that ever landed
    ensures result != HostAdmitted && result != LeaseGone ==>
              record.View() == if stamped then P.Stamped(old(record.View()), WaitEnd(start, holdMax, deadline))
                               else old(record.View())
    ensures result != HostAdmitted ==> record.declared == old(record.declared)
    // the detached form never looks at the host under an end its holder cannot see
    ensures failClosed && !stamped ==> result == StampFailed || Before(w, n) == Some(result)
  {
    var effective, bounded := deadline, false;
    if 0 < holdMax && start + holdMax < deadline {
      effective, bounded := start + holdMax, true;
    }
    n, stamped := 0, false;
    while true
      invariant effective == WaitEnd(start, holdMax, deadline)
      invariant bounded <==> 0 < holdMax && start + holdMax < deadline
      invariant forall k: nat :: k < n ==> EndsAt(w, start, deadline, holdMax, failClosed, k) == None
      invariant stamped <==> 0 < n && StampedBy(w, failClosed, n - 1)
      invariant failClosed ==> (stamped <==> 0 < n) && (stamped ==> LandsAt(w, failClosed, 0))
      invariant record.View() == if stamped then P.Stamped(old(record.View()), effective) else old(record.View())
      invariant record.asked == old(record.asked) && record.declared == old(record.declared)
      decreases effective - w.clock(n)
    {
      var early := LookFirst(record, w, n);
      if early.Some? {
        return early.value, n, stamped;
      }
      if !stamped {
        stamped := StampWait(record, effective, Tries(failClosed), w.stampLands(n));
        if failClosed && !stamped {
          return StampFailed, n, stamped;
        }
      }
      match w.look(n) {
        case Admits =>
          if !w.admitLands(n) {
            return AdmitFailed, n, stamped;
          }
          var ok := record.Admit();
          return HostAdmitted, n, stamped;
        case Impossible =>
          return WaitRefused, n, stamped;
        case Short =>
          if effective <= w.clock(n) {
            return if bounded then BoundPassed else WaitRefused, n, stamped;
          }
      }
      assert Ticks(w, n);
      n := n + 1;
    }
  }

  /** The start of one look. What other processes did to the record since the last one shows here. */
  method LookFirst(record: LeaseRecord, w: WaitWorld, n: nat) returns (early: Option<Awaited>)
    requires record.View().Held? && 0 < record.View().asked
    modifies record
    ensures early == Before(w, n)
    ensures early == Some(HostAdmitted) ==> record.View() == P.Held(0, None) && record.declared == old(record.asked)
    ensures early == Some(LeaseGone) ==> record.View() == P.Absent && record.declared == old(record.declared)
    ensures early != Some(HostAdmitted) && early != Some(LeaseGone) ==>
              && record.View() == old(record.View())
              && record.declared == old(record.declared) && record.asked == old(record.asked)
  {
    if 0 < n && w.cancelled(n) {
      return Some(Cancelled);
    }
    if w.presence(n) == Missing {
      record.Vanish();
      return Some(LeaseGone);
    }
    if w.presence(n) == Unread {
      return Some(RecordUnread);
    }
    if w.already(n) {
      var ok := record.Admit();
      return Some(HostAdmitted);
    }
    return if w.cancelled(n) then Some(Cancelled) else None;
  }

  /** A wait is over at its first look past its own end, and that end never lies past --wait's. */
  lemma WaitIsBounded(w: WaitWorld, start: int, deadline: int, holdMax: nat, failClosed: bool, n: nat)
    requires forall k: nat :: k < n ==> EndsAt(w, start, deadline, holdMax, failClosed, k) == None
    ensures 0 < n ==> w.clock(n - 1) < WaitEnd(start, holdMax, deadline) <= deadline
  {
    if 0 < n {
      assert EndsAt(w, start, deadline, holdMax, failClosed, n - 1) == None;
    }
  }

  /** What the record says of the lease to a reader that may not be able to read it. */
  function Shows(r: P.Record, readable: bool): R.RecordState {
    if !readable then R.Unreadable else if r.Held? then R.Held else R.Absent
  }

  /** What the release by epoch answers; one that says it released something has. */
  datatype Answer = Answer(released: bool, error: Option<R.ReleaseError>)

  /** End a detached hold whose wait ended without admission. A record that cannot be read is held. The push-out is
      on the record before the slow part (the warm-back) begins; writes is what the record said after each of the
      two writes, and failure what is reported of the release (None: it was confirmed). */
  method ReleaseAfterRAMWait(record: LeaseRecord, now: int, readable: bool, pushLands: bool,
                             answer: Answer, releaseLands: bool, readableAfter: bool)
    returns (goneBefore: bool, failure: Option<R.Failure>, ghost writes: seq<P.Record>)
    requires answer.released ==> releaseLands
    modifies record
    ensures goneBefore <==> Shows(old(record.View()), readable) == R.Absent
    ensures goneBefore <==> readable && !old(record.there)
    ensures goneBefore ==> writes == [] && record.View() == old(record.View())
    ensures !goneBefore ==>
              && |writes| == 2
              && writes[0] == (if pushLands then P.Stamped(old(record.View()), now + DETACHED_RELEASE_GRACE)
                               else old(record.View()))
              && writes[1] == record.View() == (if releaseLands then P.Absent else writes[0])
              && failure == R.ConfirmReleased(answer.released, answer.error, Shows(record.View(), readableAfter))
    // what is reported as released is gone
    ensures !goneBefore && failure.None? ==> record.View() == P.Absent
    // ... and what is read as gone afterwards, or was said to be released with no error, is reported so
    ensures !goneBefore ==>
              (failure.None? <==> answer.error.None? && (answer.released || (readableAfter && !record.there)))
    // the push-out leaves the reserve a quarter of an hour for the release
    ensures !goneBefore && pushLands && old(record.there) && 0 < old(record.asked) ==>
              writes[0] == P.Held(old(record.asked), Some(now + 900_000))
  {
    writes, failure := [], None;
    goneBefore := readable && !record.there;
    if goneBefore {
      return;
    }
    var pushedTo := now + DETACHED_RELEASE_GRACE;
    var pushed := record.StampHold(pushedTo, pushLands);
    writes := writes + [record.View()];
    record.Release(releaseLands);
    writes := writes + [record.View()];
    failure := R.ConfirmReleased(answer.released, answer.error, Shows(record.View(), readableAfter));
  }

  // ---- The hidden holder ----

  /** One poll of the holder: the clock of the expiry test, the fence, the clock of the hold test and then
      the record. hold is None when the record cannot be read. */
  datatype Poll = Poll(expiryClock: int, check: Option<FenceError>, look: Looks, clock: Clock, looks: nat,
                       holdClock: int, hold: Option<(nat, Option<int>)>)

  datatype HoldExit =
    | StillHolding
    | AtExpiry
    | LetGo(unreadable: bool)
    | AtWaitEnd(asked: nat, until: int)

  ghost predicate IsPoll(p: Poll) {
    && Paced(p.clock, HOLD_POLL_EVERY)
    && (p.check.Some? ==> StopsAfter(p.look, p.clock, HOLD_IO_RETRY_FOR, p.looks))
  }

  /** The fence failed, and failed on every further look. */
  predicate ConfirmedGone(p: Poll) {
    p.check.Some? && 1 <= p.looks && p.look(p.looks - 1).Some?
  }

  predicate ActsOnHold(p: Poll) {
    p.hold.Some? && HolderActs(p.holdClock, p.hold.value.0, p.hold.value.1)
  }

  predicate Expired(p: Poll, releaseAtExpiry: bool, deadline: int) {
    releaseAtExpiry && deadline <= p.expiryClock
  }

  /** A poll that gives no reason to let the lease go. */
  predicate KeepsHolding(p: Poll, releaseAtExpiry: bool, deadline: int) {
    !Expired(p, releaseAtExpiry, deadline) && !ConfirmedGone(p) && !ActsOnHold(p)
  }

  /** The holder's loop over any number of polls. It lets its lease go for one of three reasons, at the
      first poll that gives one, and keeps it otherwise; a deadline alone is none unless asked for. */
  method RunHold(polls: seq<Poll>, releaseAtExpiry: bool, deadline: int) returns (exit: HoldExit, n: nat)
    requires forall i :: 0 <= i < |polls| ==> IsPoll(polls[i])
    ensures n <= |polls|
    ensures forall i :: 0 <= i < n ==> KeepsHolding(polls[i], releaseAtExpiry, deadline)
    ensures exit == StillHolding <==> n == |polls|
    ensures n < |polls| ==>
              var p := polls[n];
              && (exit == AtExpiry <==> Expired(p, releaseAtExpiry, deadline))
              && (exit.LetGo? <==> exit != AtExpiry && ConfirmedGone(p))
              && (exit.AtWaitEnd? ==> ActsOnHold(p) && p.hold == Some((exit.asked, Some(exit.until))))
              && (exit.LetGo? ==> exit.unreadable == IsRecordUnreadable(p.look(p.looks - 1)))
    // in the fields of the polls: an end nobody asked for ends nothing
    ensures !releaseAtExpiry ==> exit != AtExpiry
    ensures exit == AtExpiry <==> n < |polls| && releaseAtExpiry && deadline <= polls[n].expiryClock
    ensures exit.LetGo? <==>
            && n < |polls| && !(releaseAtExpiry && deadline <= polls[n].expiryClock)
            && polls[n].check.Some? && forall k: nat :: k < polls[n].looks ==> polls[n].look(k).Some?
    ensures exit.AtWaitEnd? <==>
            && n < |polls| && exit != AtExpiry && !exit.LetGo?
            && var p := polls[n];
               && p.hold.Some? && 0 < p.hold.value.0 && p.hold.value.1.Some?
               && p.hold.value.1.value + 30_000 < p.holdClock
    ensures forall i :: 0 <= i < n ==>
              var p := polls[i];
              && !(releaseAtExpiry && deadline <= p.expiryClock)
              && (p.check.Some? ==> exists k: nat :: k < p.looks && p.look(k).None?)
              && (p.hold.Some? && 0 < p.hold.value.0 && p.hold.value.1.Some? ==>
                    p.holdClock <= p.hold.value.1.value + 30_000)
  {
    n := 0;
    while n < |polls|
      invariant n <= |polls|
      invariant forall i :: 0 <= i < n ==> KeepsHolding(polls[i], releaseAtExpiry, deadline)
    {
      var p := polls[n];
      if releaseAtExpiry && deadline <= p.expiryClock {
        return AtExpiry, n;
      }
      if p.check.Some? {
        var gone, last := HolderLeaseGone(p);
        if gone {
          return LetGo(IsRecordUnreadable(last)), n;
        }
      }
      if p.hold.Some? {
        var (asked, until) := p.hold.value;
        if 0 < asked && until.Some? && until.value + HOLD_BOUND_GRACE < p.holdClock {
          return AtWaitEnd(asked, until.value), n;
        }
      }
      n := n + 1;
    }
    exit := StillHolding;
  }

  method HolderLeaseGone(p: Poll) returns (gone: bool, last: Option<FenceError>)
    requires IsPoll(p) && p.check.Some?
    ensures gone <==> ConfirmedGone(p)
    ensures gone ==> last == p.look(p.looks - 1)
    ensures gone <==> forall k: nat :: k < p.looks ==> p.look(k).Some?
    // a record that cannot be read is waited for half a minute
    ensures gone && last.Some? && last.value.RecordUnreadable? ==> p.clock(3) + 30_000 <= p.clock(p.looks)
    ensures 3 < p.looks ==> p.clock(p.looks - 1) < p.clock(3) + 30_000
    // ... at one look a second
    ensures p.looks <= 33
  {
    var state, looks;
    state, last, looks := ConfirmFence(p.check, p.look, p.clock, HOLD_IO_RETRY_FOR, HOLD_POLL_EVERY);
    StopsOnce(p.look, p.clock, HOLD_IO_RETRY_FOR, looks, p.looks);
    if 3 < looks { ThreeLooksAreClose(p.clock, HOLD_POLL_EVERY, looks - 1); }
    gone := state != FenceOK;
  }

  /** The loop's hold test is the protocol's: a poll whose clock and record are what the two holder steps
      read decides as the protocol does, and one whose record cannot be read tests nothing. */
  lemma PollIsTwoHolderSteps(c: P.Config, s: P.State, s': P.State, p: Poll)
    requires c.clockFirst && s.holder.HasClock? && p.holdClock == s.holder.clock
    requires p.hold == None || (s.record.Held? && p.hold == Some((s.record.asked, s.record.until)))
    requires var unread := s.record.Held? && p.hold == None;
             P.Apply(c, s, if unread then P.HolderReadFails else P.HolderReadsRecord) == Some(s')
    ensures s'.holder.Acting? <==> ActsOnHold(p)
    ensures s'.holder.Acting? <==>
            && p.hold.Some? && 0 < p.hold.value.0 && p.hold.value.1.Some?
            && p.hold.value.1.value + 30_000 < p.holdClock
    ensures var unread := s.record.Held? && p.hold == None;
            !ActsOnHold(p) ==> s'.holder == P.Polling(if unread then s.holder.seen else p.holdClock)
  {}

  // ---- The holder beside a live reserve ----

  /** The poll read its clock at step a of the trace and the record at step b, or failed to, under a live reserve. */
  predicate ReadAt(t: seq<P.State>, p: Poll, a: nat, b: nat) {
    && a <= b < |t| && P.Live(t[b].reserve) && p.holdClock == t[a].now
    && (p.hold == None || (t[b].record.Held? && p.hold == Some((t[b].record.asked, t[b].record.until))))
  }

  ghost predicate ReadBesideIt(t: seq<P.State>, p: Poll) { exists a: nat, b: nat :: ReadAt(t, p, a, b) }

  ghost predicate PunctualRun(c: P.Config, t: seq<P.State>, late: nat) {
    && c.clockFirst && P.IsTrace(c, t) && late <= 60_000
    && forall i :: 0 <= i < |t| ==> P.Punctual(t[i], late)
  }

  lemma NoPollActsBesideALiveReserve(c: P.Config, t: seq<P.State>, late: nat, p: Poll)
    requires PunctualRun(c, t, late) && ReadBesideIt(t, p)
    ensures !ActsOnHold(p)
  {
    var a: nat, b: nat :| ReadAt(t, p, a, b);
    P.HolderNeverActsUnderALiveReserve(c, t, late);
    assert P.Safe(c, t[b]);
    P.NowGoesOn(c, t, a, b);
    if ActsOnHold(p) {
      P.MomentStaysAhead(c, t[b], late);
    }
  }

  /** The holder's loop beside a punctual live reserve, whatever else happens to the record: it never lets the
      lease go at a wait's end. What can end it is a loss seen on every look (a record unreadable through the
      whole window is one), or the expiry it was asked to release at; and at the first poll that gives one. */
  method RunHoldBesideALiveReserve(polls: seq<Poll>, releaseAtExpiry: bool, deadline: int,
                                   ghost c: P.Config, ghost t: seq<P.State>, ghost late: nat)
    returns (exit: HoldExit, n: nat)
    requires forall i :: 0 <= i < |polls| ==> IsPoll(polls[i])
    requires PunctualRun(c, t, late) && forall i :: 0 <= i < |polls| ==> ReadBesideIt(t, polls[i])
    ensures n <= |polls| && !exit.AtWaitEnd?
    ensures forall i :: 0 <= i < n ==> !Expired(polls[i], releaseAtExpiry, deadline) && !ConfirmedGone(polls[i])
    ensures exit == StillHolding <==> n == |polls|
    ensures exit == AtExpiry <==> n < |polls| && Expired(polls[n], releaseAtExpiry, deadline)
    ensures exit.LetGo? <==> n < |polls| && !Expired(polls[n], releaseAtExpiry, deadline) && ConfirmedGone(polls[n])
    // in the fields of the polls: an end nobody asked for ends nothing
    ensures !releaseAtExpiry ==> exit != AtExpiry
    ensures exit == AtExpiry <==> n < |polls| && releaseAtExpiry && deadline <= polls[n].expiryClock
    ensures exit.LetGo? <==>
            && n < |polls| && !(releaseAtExpiry && deadline <= polls[n].expiryClock)
            && polls[n].check.Some? && forall k: nat :: k < polls[n].looks ==> polls[n].look(k).Some?
    ensures forall i :: 0 <= i < n ==>
              var p := polls[i];
              && !(releaseAtExpiry && deadline <= p.expiryClock)
              && (p.check.Some? ==> exists k: nat :: k < p.looks && p.look(k).None?)
  {
    exit, n := RunHold(polls, releaseAtExpiry, deadline);
    if n < |polls| {
      NoPollActsBesideALiveReserve(c, t, late, polls[n]);
    }
  }
}
