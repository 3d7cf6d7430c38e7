/** The drain: poll the seat until it is idle on two consecutive reads, stuck, or out of time. */
module Drain {
  import opened Common

  /** One read of the seat, with the runs registered on it: how many, and the token that says which, at
      what step and phase. The zero reading of a drain that skips the seat is NotListed. */
  datatype Seat =
    | ReadFailed(why: string)
    | Ambiguous                  // not listed by name, roster unreadable, other models running
    | Stopping
    | Starting
    | Serving(inflight: nat)     // loaded and answering
    | NotListed

  datatype Reading = Reading(seat: Seat, runs: nat, runsKey: string)

  /** What the drain's progress rule compares: equal keys are "the same busy state". */
  datatype Key =
    | Unread(why: string)
    | CannotTell
    | Leaving(runsKey: string)
    | Loading(runsKey: string)
    | Busy(inflight: nat, runsKey: string)

  datatype Verdict = Drained | Stuck | TimedOut | Cancelled

  /** The world of one drain: read k happens at clock(k); the wait after it is cancelled or not. */
  datatype World = World(read: nat -> Reading, clock: Clock, cancelled: nat -> bool)

  /** A loaded seat with nothing in flight and no run: idle, if it is so twice in a row. */
  predicate Idle(r: Reading) { r.seat.Serving? && r.seat.inflight == 0 && r.runs == 0 }

  /** Nothing to drain: positively not loaded, and no run registered. */
  predicate NothingThere(r: Reading) { r.seat.NotListed? && r.runs == 0 }

  /** Every other read is busy, and says how. */
  predicate IsBusy(r: Reading) { !Idle(r) && !NothingThere(r) }

  function KeyOf(r: Reading): Key
    requires IsBusy(r)
  {
    match r.seat
    case ReadFailed(why) => Unread(why)
    case Ambiguous => CannotTell
    case Stopping => Leaving(r.runsKey)
    case Starting => Loading(r.runsKey)
    case Serving(n) => Busy(n, r.runsKey)
    case NotListed => Busy(0, r.runsKey)
  }

  predicate SameState(r: Reading, key: Key) { IsBusy(r) && KeyOf(r) == key }

  predicate DrainedAt(w: World, k: nat) {
    || NothingThere(w.read(k))
    || (0 < k && Idle(w.read(k - 1)) && Idle(w.read(k)))
  }

  /** From read j to read k the seat never showed another busy state, single idle reads apart. */
  ghost predicate UnchangedSince(w: World, j: nat, k: nat) {
    && IsBusy(w.read(k)) && SameState(w.read(j), KeyOf(w.read(k)))
    && forall i: nat :: j <= i <= k && IsBusy(w.read(i)) ==> KeyOf(w.read(i)) == KeyOf(w.read(k))
  }

  ghost predicate StuckAt(w: World, stuckAfter: nat, k: nat) {
    && 0 < stuckAfter && IsBusy(w.read(k))
    && exists j: nat :: j < k && UnchangedSince(w, j, k) && stuckAfter <= w.clock(k) - w.clock(j)
  }

  /** Why read k ends the drain, the strongest reason first; None: it goes on. */
  ghost function ReasonAt(w: World, stuckAfter: nat, deadline: int, k: nat): Option<Verdict> {
    if DrainedAt(w, k) then Some(Drained)
    else if StuckAt(w, stuckAfter, k) then Some(Stuck)
    else if deadline <= w.clock(k) then Some(TimedOut)
    else if w.cancelled(k) then Some(Cancelled)
    else None
  }

  /** The drain ends at read n with this verdict: the first read that gives a reason. */
  ghost predicate Ends(w: World, stuckAfter: nat, deadline: int, n: nat, verdict: Verdict) {
    && (forall k: nat :: k < n ==> ReasonAt(w, stuckAfter, deadline, k) == None)
    && ReasonAt(w, stuckAfter, deadline, n) == Some(verdict)
  }

  /** A read shows the busy state of another: the same seat with the same requests in flight (a seat not listed has
      none), the same runs where the seat could be read, the same error where it could not. */
  lemma SameStateIsSameReading(r: Reading, s: Reading)
    requires IsBusy(r) && IsBusy(s)
    ensures KeyOf(r) == KeyOf(s) <==>
            && (r.seat == s.seat || {r.seat, s.seat} == {Serving(0), NotListed})
            && (r.seat.ReadFailed? || r.seat.Ambiguous? || r.runsKey == s.runsKey)
  {
    assert r.seat in {r.seat, s.seat} && s.seat in {r.seat, s.seat};
    assert NotListed in {Serving(0), NotListed} && Serving(0) in {Serving(0), NotListed};
  }

  lemma BusyReadsAre(r: Reading)
    ensures IsBusy(r) <==> 0 < r.runs || (r.seat != Serving(0) && r.seat != NotListed)
    ensures Idle(r) <==> r.runs == 0 && r.seat == Serving(0)
  {}

  /** What a drain is stuck on, in its reads: since some read at least stuckAfter ago, every read but single idle ones
      has the seat and the runs of the last, and that one is busy. */
  lemma StuckInTheReads(w: World, stuckAfter: nat, n: nat)
    requires forall k: nat :: k < n ==> !DrainedAt(w, k)
    ensures StuckAt(w, stuckAfter, n) <==>
            && 0 < stuckAfter && (0 < w.read(n).runs || (w.read(n).seat != Serving(0) && w.read(n).seat != NotListed))
            && exists j: nat ::
                 && j < n && stuckAfter <= w.clock(n) - w.clock(j)
                 && !(w.read(j).runs == 0 && w.read(j).seat == Serving(0))
                 && forall i: nat :: j <= i < n ==>
                      || (w.read(i).runs == 0 && w.read(i).seat == Serving(0))
                      || (&& (|| w.read(i).seat == w.read(n).seat
                              || {w.read(i).seat, w.read(n).seat} == {Serving(0), NotListed})
                          && (w.read(n).seat.ReadFailed? || w.read(n).seat.Ambiguous?
                              || w.read(i).runsKey == w.read(n).runsKey))
  {
    if IsBusy(w.read(n)) {
      forall i: nat | i < n && !Idle(w.read(i))
        ensures IsBusy(w.read(i))
        ensures SameState(w.read(i), KeyOf(w.read(n))) <==>
                && (w.read(i).seat == w.read(n).seat || {w.read(i).seat, w.read(n).seat} == {Serving(0), NotListed})
                && (w.read(n).seat.ReadFailed? || w.read(n).seat.Ambiguous? || w.read(i).runsKey == w.read(n).runsKey)
      {
        assert !DrainedAt(w, i);
        SameStateIsSameReading(w.read(i), w.read(n));
      }
      forall j: nat | j < n && !Idle(w.read(j))
        ensures UnchangedSince(w, j, n) <==>
                forall i: nat :: j <= i < n ==> Idle(w.read(i)) || SameState(w.read(i), KeyOf(w.read(n)))
      {
      }
    }
  }

  /** The drain ends at the first read that gives a reason, with the strongest reason that read gives,
      and at the latest at the first read past the deadline. */
  method DrainUntil(w: World, every: nat, stuckAfter: nat, deadline: int) returns (verdict: Verdict, n: nat)
    requires 0 < every && Paced(w, every)
    ensures Ends(w, stuckAfter, deadline, n, verdict)
    ensures 0 < n ==> w.clock(n - 1) < deadline
  {
    var zeros := 0;
    var stuckKey: Option<Key>, stuckSince := None, w.clock(0);
    ghost var t := Track(-1, 0, -1);
    n := 0;
    while true
      invariant forall k: nat :: k < n ==> ReasonAt(w, stuckAfter, deadline, k) == None
      invariant zeros == if 0 < n && Idle(w.read(n - 1)) then 1 else 0
      invariant Tracking(w, stuckAfter, stuckKey, stuckSince, t, n)
      invariant 0 < n ==> w.clock(n - 1) < deadline
      decreases deadline - w.clock(n)
    {
      var now, r := w.clock(n), w.read(n);
      var key := None;
      if NothingThere(r) {
        return Drained, n;
      } else if Idle(r) {
        zeros := zeros + 1;
        if 2 <= zeros {
          return Drained, n;
        }
      } else {
        key := Some(KeyOf(r));
        zeros := 0;
      }
      t := TrackRead(w, every, stuckAfter, stuckKey, stuckSince, t, n);
      if 0 < stuckAfter && key.Some? {
        if key != stuckKey {
          stuckKey, stuckSince := key, now;
        } else if stuckAfter <= now - stuckSince {
          return Stuck, n;
        }
      }
      if deadline <= now {
        return TimedOut, n;
      }
      if w.cancelled(n) {
        return Cancelled, n;
      }
      assert Waits(w, every, n);
      n := n + 1;
    }
  }

  ghost predicate Paced(w: World, every: nat) {
    forall k: nat :: Waits(w, every, k)
  }

  ghost predicate Waits(w: World, every: nat, k: nat) { w.clock(k) + every <= w.clock(k + 1) }

  /** Where the busy key was shown first and last, and the busy read before that (-1: there was none). */
  datatype Track = Track(breach: int, since: nat, last: int)

  /** Before read n the progress rule's variables say what the reads showed. */
  ghost predicate Tracking(w: World, stuckAfter: nat, stuckKey: Option<Key>, stuckSince: int, t: Track, n: nat) {
    match stuckKey
    case None => t.last == -1 && (0 < stuckAfter ==> forall i: nat :: i < n ==> !IsBusy(w.read(i)))
    case Some(key) => 0 < stuckAfter && Kept(w, key, t.breach, t.since, t.last, n) && stuckSince == w.clock(t.since)
  }

  lemma TrackRead(w: World, every: nat, stuckAfter: nat, stuckKey: Option<Key>, stuckSince: int, t: Track, n: nat)
      returns (t': Track)
    requires Paced(w, every) && Tracking(w, stuckAfter, stuckKey, stuckSince, t, n)
    ensures !IsBusy(w.read(n)) || stuckAfter == 0 ==>
              !StuckAt(w, stuckAfter, n) && Tracking(w, stuckAfter, stuckKey, stuckSince, t', n + 1)
    ensures 0 < stuckAfter && IsBusy(w.read(n)) && stuckKey != Some(KeyOf(w.read(n))) ==>
              !StuckAt(w, stuckAfter, n) && Tracking(w, stuckAfter, Some(KeyOf(w.read(n))), w.clock(n), t', n + 1)
    ensures 0 < stuckAfter && IsBusy(w.read(n)) && stuckKey == Some(KeyOf(w.read(n))) ==>
              && (StuckAt(w, stuckAfter, n) <==> stuckAfter <= w.clock(n) - stuckSince)
              && Tracking(w, stuckAfter, stuckKey, stuckSince, t', n + 1)
  {
    t' := t;
    if 0 < stuckAfter && IsBusy(w.read(n)) {
      if stuckKey == Some(KeyOf(w.read(n))) {
        KeptOn(w, stuckKey.value, t.breach, t.since, t.last, n);
        StuckFromTheFirst(w, every, stuckAfter, stuckKey.value, t.breach, t.since, t.last, n);
        t' := t.(last := n);
      } else {
        AChangeIsNotStuck(w, stuckAfter, stuckKey, t.breach, t.since, t.last, n);
        t' := Track(t.last, n, n);
      }
    } else if stuckKey.Some? {
      KeptOn(w, stuckKey.value, t.breach, t.since, t.last, n);
    }
  }

  /** Before read n: the last busy key is key, shown at every busy read from since to last; the busy read
      before since, at breach, showed another (-1: there was none). */
  ghost predicate Kept(w: World, key: Key, breach: int, since: int, last: int, n: nat) {
    && -1 <= breach < since <= last < n
    && SameState(w.read(since), key) && SameState(w.read(last), key)
    && (forall i: nat :: since <= i < n && IsBusy(w.read(i)) ==> KeyOf(w.read(i)) == key)
    && (forall i: nat :: last < i < n ==> !IsBusy(w.read(i)))
    && (forall i: nat :: breach < i < since ==> !IsBusy(w.read(i)))
    && (0 <= breach ==> IsBusy(w.read(breach)) && KeyOf(w.read(breach)) != key)
  }

  lemma AChangeIsNotStuck(w: World, stuckAfter: nat, stuckKey: Option<Key>, breach: int, since: int, last: int, n: nat)
    requires IsBusy(w.read(n)) && stuckKey != Some(KeyOf(w.read(n)))
    requires stuckKey.None? ==> forall i: nat :: i < n ==> !IsBusy(w.read(i))
    requires stuckKey.Some? ==> Kept(w, stuckKey.value, breach, since, last, n)
    requires stuckKey.None? ==> last == -1
    ensures !StuckAt(w, stuckAfter, n)
    ensures Kept(w, KeyOf(w.read(n)), last, n, n, n + 1)
  {}

  lemma KeptOn(w: World, key: Key, breach: int, since: int, last: int, n: nat)
    requires Kept(w, key, breach, since, last, n)
    ensures !IsBusy(w.read(n)) ==> Kept(w, key, breach, since, last, n + 1)
    ensures SameState(w.read(n), key) ==> Kept(w, key, breach, since, n, n + 1)
  {}

  lemma StuckFromTheFirst(w: World, every: nat, stuckAfter: nat, key: Key, breach: int, since: int, last: int, n: nat)
    requires Paced(w, every) && 0 < stuckAfter
    requires IsBusy(w.read(n)) && KeyOf(w.read(n)) == key && Kept(w, key, breach, since, last, n)
    ensures StuckAt(w, stuckAfter, n) <==> stuckAfter <= w.clock(n) - w.clock(since)
  {
    assert UnchangedSince(w, since, n);
    forall j: nat | j < n && UnchangedSince(w, j, n)
      ensures w.clock(since) <= w.clock(j)
    {
      assert since <= j;
      ClockRises(w, every, since, j);
    }
  }

  lemma {:induction false} ClockRises(w: World, every: nat, i: nat, j: nat)
    requires Paced(w, every) && i <= j
    ensures w.clock(i) <= w.clock(j)
    decreases j
  {
    if i < j {
      ClockRises(w, every, i, j - 1);
      assert Waits(w, every, j - 1);
    }
  }

  /** Time runs out, whatever the seat does: a drain makes at most this many reads before its last. */
  lemma {:induction false} ReadsAreBounded(w: World, every: nat, n: nat)
    requires Paced(w, every)
    ensures w.clock(0) + n * every <= w.clock(n)
  {
    if 0 < n {
      ReadsAreBounded(w, every, n - 1);
      assert Waits(w, every, n - 1);
      assert n * every == (n - 1) * every + every;
    }
  }

  /** A drain that succeeded saw the seat idle with its own eyes, last: not loaded and no run registered,
      or loaded, idle and unregistered twice in a row. No failed, ambiguous, starting or stopping read ever
      counts towards it. */
  lemma DrainedMeansSeenIdle(w: World, n: nat)
    ensures DrainedAt(w, n) <==>
            && w.read(n).runs == 0
            && (|| w.read(n).seat == NotListed
                || (0 < n && w.read(n).seat == w.read(n - 1).seat == Serving(0) && w.read(n - 1).runs == 0))
  {}

  /** Why a drain ended where it did, and why not before: success comes first, then a stuck seat, then the deadline,
      then the cancel; every read before the last was none of them. */
  lemma WhyADrainEnds(w: World, stuckAfter: nat, deadline: int, n: nat, verdict: Verdict)
    requires Ends(w, stuckAfter, deadline, n, verdict)
    ensures forall k: nat :: k < n ==>
              w.clock(k) < deadline && !w.cancelled(k) && !DrainedAt(w, k) && !StuckAt(w, stuckAfter, k)
    ensures verdict == Drained <==> DrainedAt(w, n)
    ensures verdict == Stuck <==> StuckAt(w, stuckAfter, n) && !DrainedAt(w, n)
    ensures verdict == TimedOut <==> deadline <= w.clock(n) && !StuckAt(w, stuckAfter, n) && !DrainedAt(w, n)
    ensures verdict == Cancelled ==> w.cancelled(n) && w.clock(n) < deadline
  {
    forall k: nat | k < n
      ensures w.clock(k) < deadline && !w.cancelled(k) && !DrainedAt(w, k) && !StuckAt(w, stuckAfter, k)
    {
      assert ReasonAt(w, stuckAfter, deadline, k) == None;
    }
  }

  /** Some read from j to k showed the seat in another state than read k does. */
  ghost predicate Overlooks(w: World, j: nat, k: nat)
    requires IsBusy(w.read(k))
  {
    exists i: nat :: j <= i <= k && !SameState(w.read(i), KeyOf(w.read(k)))
  }

  /** What a stuck verdict can overlook is exactly an idle read: a drain that is stuck at its last read passed over
      another state of the seat if and only if it read the seat idle, once at a time, in the meantime. */
  lemma StuckOverlooksIdleReadsOnly(w: World, stuckAfter: nat, deadline: int, j: nat, k: nat)
    requires Ends(w, stuckAfter, deadline, k, Stuck) && j <= k && UnchangedSince(w, j, k)
    ensures Overlooks(w, j, k) <==> exists i: nat :: j <= i <= k && Idle(w.read(i))
    ensures forall i: nat :: j < i <= k && Idle(w.read(i)) ==> !Idle(w.read(i - 1))
  {
    forall i: nat | j <= i <= k ensures !SameState(w.read(i), KeyOf(w.read(k))) <==> Idle(w.read(i)) {
      assert i < k ==> ReasonAt(w, stuckAfter, deadline, i) == None;
    }
    forall i: nat | j < i <= k && Idle(w.read(i)) ensures !Idle(w.read(i - 1)) {
      assert i < k ==> ReasonAt(w, stuckAfter, deadline, i) == None;
    }
  }

  /** The no-progress bound a seat's own turns give: none without a rate sample, else never under the drain floor. */
  function SeatStuckAfter(turns: Option<nat>): nat { if turns.None? then 0 else Max(turns.value, DRAIN_FLOOR) }

  lemma TheBoundIsTwoMinutesOrNone(turns: Option<nat>)
    ensures SeatStuckAfter(turns) == 0 <==> turns.None?
    ensures turns.Some? ==> SeatStuckAfter(turns) in {turns.value, 120_000} && turns.value <= SeatStuckAfter(turns)
    ensures turns.Some? ==> 120_000 <= SeatStuckAfter(turns)
  {}

  /** ... and that does happen: a seat that finishes a request between any two reads of one busy state is called
      stuck all the same, at the least bound a reserve can have. */
  lemma OneIdleReadDoesNotCountAsProgress()
    ensures var w := World(OnAndOff, (k: nat) => 2_000 * k, (k: nat) => false);
            && Ends(w, SeatStuckAfter(Some(0)), 28_800_000, 60, Stuck)
            && forall i: nat :: i < 60 && i % 2 == 1 ==> Idle(w.read(i))
  {
    var w := World(OnAndOff, (k: nat) => 2_000 * k, (k: nat) => false);
    assert UnchangedSince(w, 0, 60);
  }

  function OnAndOff(k: nat): Reading { Reading(if k % 2 == 0 then Serving(1) else Serving(0), 0, "") }
}
