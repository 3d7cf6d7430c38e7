/** The warm-back: the request that loads the seat, watched and re-sent through a reload of the model
    server, under guards that prove the cards are still the caller's. */
module Warm {
  import opened Common

  // How a warm watches and retries (gpu_drain.go:637-643).
  const WARM_WATCH := 900_000
  const WARM_RELOAD_GRACE := 60_000
  const WARM_RETRY_FIRST := 1_000
  const WARM_RETRY_MAX := 8_000
  const MAX_SENDS := 10

  /** What the model server's list of running models says of the seat. */
  datatype Reading =
    | ReadFailed
    | Read(loaded: bool, starting: bool, stopping: bool, ambiguous: bool)

  /** The reader's promise: a seat that is leaving reads as starting too, a seat that is starting is
      listed, and a reading is ambiguous only of a seat that is not (internal/seatload/seatload.go:381-405). */
  predicate WellFormed(r: Reading) {
    r.Read? ==>
      && (r.stopping ==> r.starting)
      && (r.starting ==> r.loaded)
      && (r.ambiguous ==> !r.loaded)
  }

  predicate Settled(r: Reading) { r.Read? && r.loaded && !r.starting }

  predicate Cold(r: Reading) { r.Read? && !r.loaded && !r.starting && !r.ambiguous }

  predicate Unclear(r: Reading) { r.ReadFailed? || r.ambiguous }

  /** The status verb's stricter test of the same reading: neither starting nor stopping. */
  predicate SettledForStatus(r: Reading) { r.Read? && r.loaded && !r.starting && !r.stopping }

  /** The two tests name different fields and cannot disagree on what the reader returns. */
  lemma SettledTestsAgree(r: Reading)
    ensures WellFormed(r) ==> (Settled(r) <==> SettledForStatus(r))
    ensures (Settled(r) <==> SettledForStatus(r)) <==> !(r.Read? && r.loaded && !r.starting && r.stopping)
  {}

  // ---- Watching a load ----

  datatype Seen = Ready | SeenCold | Unknown | GaveUp | WatchCancelled

  datatype WatchWorld = WatchWorld(read: nat -> Reading, clock: Clock, cancelled: nat -> bool)

  ghost predicate Runs(w: WatchWorld) {
    forall k: nat :: Ticks(w, k)
  }

  ghost predicate Ticks(w: WatchWorld, k: nat) { w.clock(k) < w.clock(k + 1) }

  /** Before read k, the last reading that could be read found the seat starting. */
  predicate WasStarting(w: WatchWorld, k: nat) {
    0 < k && if Unclear(w.read(k - 1)) then WasStarting(w, k - 1) else w.read(k - 1).starting
  }

  /** What read k says of the load, the strongest reading first; None: the watch goes on. */
  function ReadSays(w: WatchWorld, patient: bool, k: nat): Option<Seen> {
    if Settled(w.read(k)) then Some(Ready)
    else if Cold(w.read(k)) then Some(SeenCold)
    else if Unclear(w.read(k)) && !patient && !WasStarting(w, k) then
      Some(if w.cancelled(k) then WatchCancelled else Unknown)
    else if w.clock(0) + WARM_WATCH <= w.clock(k) then Some(GaveUp)
    else if w.cancelled(k) then Some(WatchCancelled)
    else None
  }

  /** What one read of a watch says, in its fields: a loaded seat that is not starting settles it, a cold one ends it; a
      list that is not clear is waited out only by a patient watch or after the seat was seen starting; and nothing is
      waited for past a quarter of an hour, or once cancelled. */
  lemma AReadSays(w: WatchWorld, patient: bool, k: nat)
    ensures var (r, says) := (w.read(k), ReadSays(w, patient, k));
            var unclear := r.ReadFailed? || r.ambiguous;
            var goesOn := !unclear || patient || WasStarting(w, k);
            var late := w.clock(0) + 900_000 <= w.clock(k);
            var loaded := r.Read? && r.loaded && !r.starting;
            var cold := r.Read? && !r.loaded && !r.starting && !r.ambiguous;
            && (says == Some(Ready) <==> loaded)
            && (says == Some(SeenCold) <==> cold)
            && (says == Some(Unknown) <==> !loaded && !goesOn && !w.cancelled(k))
            && (says == Some(GaveUp) <==> !loaded && !cold && goesOn && late)
            && (says == Some(WatchCancelled) <==> !loaded && !cold && (goesOn ==> !late) && w.cancelled(k))
            && (says == None <==> !loaded && !cold && goesOn && !late && !w.cancelled(k))
  {}

  /** The seat was starting in the last reading that was clear. */
  lemma {:induction false} WasStartingIsTheLastClearRead(w: WatchWorld, k: nat)
    ensures WasStarting(w, k) <==>
            exists j: nat ::
              && j < k && w.read(j).Read? && !w.read(j).ambiguous && w.read(j).starting
              && forall i: nat :: j < i < k ==> w.read(i).ReadFailed? || w.read(i).ambiguous
  {
    if 0 < k {
      WasStartingIsTheLastClearRead(w, k - 1);
    }
  }

  /** The watch ends at read n, the first that says something. */
  ghost predicate EndsAt(w: WatchWorld, patient: bool, n: nat, seen: Seen) {
    (forall k: nat :: k < n ==> ReadSays(w, patient, k) == None) && ReadSays(w, patient, n) == Some(seen)
  }

  ghost predicate Sees(w: WatchWorld, patient: bool, seen: Seen) { exists n: nat :: EndsAt(w, patient, n, seen) }

  /** Read the seat until it settles. n is the read that ended the watch. */
  method WatchWarm(w: WatchWorld, patient: bool) returns (seen: Seen, n: nat)
    requires Runs(w)
    ensures EndsAt(w, patient, n, seen)
    ensures forall k: nat :: k < n ==> ReadSays(w, patient, k) == None
    ensures ReadSays(w, patient, n) == Some(seen)
  {
    var deadline := w.clock(0) + WARM_WATCH;
    var starting := false;
    n := 0;
    while true
      invariant forall k: nat :: k < n ==> ReadSays(w, patient, k) == None
      invariant starting == WasStarting(w, n)
      decreases deadline - w.clock(n)
    {
      var r := w.read(n);
      if !Unclear(r) {
        starting := r.starting;
      }
      if r.Read? && r.loaded && !r.starting {
        return Ready, n;
      } else if r.Read? && !r.loaded && !r.starting && !r.ambiguous {
        return SeenCold, n;
      } else if Unclear(r) && !patient && !starting {
        return if w.cancelled(n) then WatchCancelled else Unknown, n;
      }
      if deadline <= w.clock(n) {
        return GaveUp, n;
      }
      if w.cancelled(n) {
        return WatchCancelled, n;
      }
      assert Ticks(w, n);
      n := n + 1;
    }
  }

  // ---- Sending and re-sending the load ----

  /** What came back from one request: a transport error (not retryable: cancelled or timed out), or a
      status and what its body says. */
  datatype Attempt =
    | Transport(retryable: bool)
    | Answer(status: nat, startDied: bool, serverLeaving: bool)

  predicate Loaded(a: Attempt) { a.Answer? && 200 <= a.status < 300 }

  /** The server was going away or not there: the first such failure opens the recovery window. */
  predicate Retryable(a: Attempt) {
    match a
    case Transport(retryable) => retryable
    case Answer(status, startDied, serverLeaving) =>
      !startDied && (status in {502, 503, 504} || (status == 500 && serverLeaving))
  }

  /** What a recovery window covers once it is open. */
  predicate Transient(a: Attempt) {
    a.Transport? || (500 <= a.status && !a.startDied)
  }

  function Delay(k: nat): (d: nat)
    ensures WARM_RETRY_FIRST <= d <= WARM_RETRY_MAX
  {
    if k == 0 then WARM_RETRY_FIRST else Min(2 * Delay(k - 1), WARM_RETRY_MAX)
  }

  function TotalDelay(k: nat): nat {
    if k == 0 then 0 else TotalDelay(k - 1) + Delay(k - 1)
  }

  /** Nine back-offs sum to 55 s; a tenth would pass the minute. */
  lemma NineBackOffsFitTheWindow()
    ensures TotalDelay(9) == 55_000 && Delay(9) == 8_000
  {
    assert Delay(1) == 2_000;
    assert Delay(3) == 8_000;
    assert Delay(5) == 8_000;
    assert Delay(7) == 8_000;
    assert TotalDelay(2) == 3_000;
    assert TotalDelay(4) == 15_000;
    assert TotalDelay(6) == 31_000;
    assert TotalDelay(8) == 47_000;
  }

  /** One warm: request k ends at sent(k) with attempt(k), is watched in watch(k) until watched(k), and
      re-send k + 1 goes out if allowed(k + 1). */
  datatype WarmWorld = WarmWorld(attempt: nat -> Attempt, watch: nat -> WatchWorld,
                                 sent: Clock, watched: Clock, allowed: nat -> bool, cancelled: nat -> bool)

  ghost predicate Timed(w: WarmWorld) {
    forall k: nat :: TimedAt(w, k)
  }

  ghost predicate TimedAt(w: WarmWorld, k: nat) {
    && w.sent(k) <= w.watched(k)
    && w.watched(k) + Delay(k) <= w.sent(k + 1)
    && Runs(w.watch(k))
  }

  datatype Warmed = WarmOK | WarmFailed | GuardStopped

  /** A watch is patient with an unreadable list while a 5xx outside a recovery may hide a load. */
  predicate Patient(w: WarmWorld, k: nat) {
    var a := w.attempt(k);
    a.Answer? && 500 <= a.status && k == 0 && !Retryable(a)
  }

  /** The watch of request k ended on a read of the seat loaded and settled. */
  ghost predicate SeenReady(w: WarmWorld, k: nat) { Sees(w.watch(k), Patient(w, k), Ready) }

  /** How request k and its watch end the warm, if they do. The window is open from the first request that
      a reload explains, which can only be request 0. */
  function Outcome(w: WarmWorld, k: nat, seen: Seen): Option<Warmed> {
    var a := w.attempt(k);
    if a.Transport? && !a.retryable then Some(WarmFailed)
    else if Loaded(a) then Some(WarmOK)
    else if seen == GaveUp || seen == WatchCancelled then Some(WarmFailed)
    else if seen == Ready then Some(WarmOK)
    else if (k == 0 && !Retryable(a)) || !Transient(a) then Some(WarmFailed)
    else if w.sent(0) + WARM_RELOAD_GRACE <= w.watched(k) + Delay(k) then Some(WarmFailed)
    else if w.cancelled(k) then Some(WarmFailed)
    else if !w.allowed(k + 1) then Some(GuardStopped)
    else None
  }

  /** How request k ends the warm, in the fields of its answer: seen is how its watch ended. */
  lemma ARequestEnds(w: WarmWorld, k: nat, seen: Seen)
    ensures var (a, o) := (w.attempt(k), Outcome(w, k, seen));
            var hopeless := a.Transport? && !a.retryable;
            var answered := a.Answer? && 200 <= a.status < 300;
            var serverGone := (a.Transport? && a.retryable)
                              || (a.Answer? && !a.startDied
                                  && (a.status in {502, 503, 504} || (a.status == 500 && a.serverLeaving)));
            var excused := if k == 0 then serverGone else a.Transport? || (500 <= a.status && !a.startDied);
            var late := w.sent(0) + 60_000 <= w.watched(k) + Delay(k);
            && (o == Some(WarmOK) <==> answered || (!hopeless && seen == Ready))
            && (o.None? <==>
                  && !hopeless && !answered && seen in {SeenCold, Unknown}
                  && excused && !late && !w.cancelled(k) && w.allowed(k + 1))
            && (o == Some(GuardStopped) <==>
                  && !hopeless && !answered && seen in {SeenCold, Unknown}
                  && excused && !late && !w.cancelled(k) && !w.allowed(k + 1))
  {}

  /** A watch is patient exactly with the first answer of 500 and more that no reload of the server explains. */
  lemma PatienceIsForTheFirstAnswer(w: WarmWorld, k: nat)
    ensures Patient(w, k) <==>
            var a := w.attempt(k);
            && k == 0 && a.Answer? && 500 <= a.status
            && (a.startDied || !(a.status in {502, 503, 504} || (a.status == 500 && a.serverLeaving)))
  {}

  ghost predicate Comes(w: WarmWorld, k: nat, result: Option<Warmed>) {
    exists seen: Seen :: ComesTo(w, k, seen, result)
  }

  ghost predicate ComesTo(w: WarmWorld, k: nat, seen: Seen, result: Option<Warmed>) {
    Sees(w.watch(k), Patient(w, k), seen) && Outcome(w, k, seen) == result
  }

  /** Send the load, and send it again while a reload of the server is what interrupted it. sends is the
      number of requests made. */
  method WarmSeatGated(w: WarmWorld) returns (result: Warmed, sends: nat)
    requires Timed(w)
    ensures 1 <= sends <= MAX_SENDS == 10
    // the warm ends with the first request that ends it, and as that request does
    ensures forall k: nat :: k < sends - 1 ==> Comes(w, k, None)
    ensures Comes(w, sends - 1, Some(result))
  {
    var reloaded, graceEnd, delay := false, 0, WARM_RETRY_FIRST;
    sends := 0;
    while true
      invariant sends < MAX_SENDS
      invariant reloaded <==> 0 < sends
      invariant reloaded ==> graceEnd == w.sent(0) + WARM_RELOAD_GRACE
      invariant forall k: nat :: k < sends ==> Comes(w, k, None)
      invariant delay == Delay(sends)
      invariant w.sent(0) + TotalDelay(sends) <= w.sent(sends)
      decreases MAX_SENDS - sends
    {
      var k, a := sends, w.attempt(sends);
      sends := sends + 1;
      assert TimedAt(w, k);
      EveryWatchEnds(w, k);
      if a.Transport? && !Retryable(a) {
        return WarmFailed, sends;
      }
      if a.Answer? && 200 <= a.status < 300 {
        return WarmOK, sends;
      }
      var transient := a.Transport? || (500 <= a.status && !a.startDied);
      if !reloaded && Retryable(a) {
        reloaded, graceEnd := true, w.sent(k) + WARM_RELOAD_GRACE;
      }
      var patient := a.Answer? && 500 <= a.status && !reloaded;
      var seen, n := WatchWarm(w.watch(k), patient);
      assert Sees(w.watch(k), Patient(w, k), seen);
      assert ComesTo(w, k, seen, Outcome(w, k, seen));
      if seen == GaveUp || seen == WatchCancelled {
        return WarmFailed, sends;
      }
      if seen == Ready {
        return WarmOK, sends;
      }
      if !reloaded || !transient {
        return WarmFailed, sends;
      }
      if graceEnd <= w.watched(k) + delay {
        return WarmFailed, sends;
      }
      BackOffFits(w, k);
      if w.cancelled(k) {
        return WarmFailed, sends;
      }
      delay := delay * 2;
      if WARM_RETRY_MAX < delay {
        delay := WARM_RETRY_MAX;
      }
      if !w.allowed(sends) {
        return GuardStopped, sends;
      }
    }
  }

  /** Where the watch does not matter there still is one way it would end. */
  lemma EveryWatchEnds(w: WarmWorld, k: nat)
    requires TimedAt(w, k)
    ensures w.attempt(k).Transport? && !w.attempt(k).retryable ==> Comes(w, k, Some(WarmFailed))
    ensures Loaded(w.attempt(k)) ==> Comes(w, k, Some(WarmOK))
  {
    var seen := WatchEnds(w.watch(k), Patient(w, k), 0);
    assert ComesTo(w, k, seen, Outcome(w, k, seen));
  }

  lemma {:induction false} WatchEnds(w: WatchWorld, patient: bool, n: nat) returns (seen: Seen)
    requires Runs(w) && forall k: nat :: k < n ==> ReadSays(w, patient, k) == None
    ensures Sees(w, patient, seen)
    decreases w.clock(0) + WARM_WATCH - w.clock(n)
  {
    if ReadSays(w, patient, n).Some? {
      seen := ReadSays(w, patient, n).value;
      assert EndsAt(w, patient, n, seen);
    } else {
      assert Ticks(w, n);
      seen := WatchEnds(w, patient, n + 1);
    }
  }

  /** A request is sent again only after a failure a reload or a restart explains, never after an answer that
      says the start died, an answer below 500, or a load; and only if the guards allow it. */
  lemma AResendIsExplained(w: WarmWorld, k: nat)
    requires Comes(w, k, None)
    ensures w.allowed(k + 1) && !Loaded(w.attempt(k)) && Transient(w.attempt(k))
    ensures k == 0 ==> Retryable(w.attempt(0))
    ensures w.attempt(k).Answer? ==> 500 <= w.attempt(k).status && !w.attempt(k).startDied
    ensures k == 0 && w.attempt(0).Answer? ==> w.attempt(0).status in {500, 502, 503, 504}
    ensures k == 0 && w.attempt(0).Answer? && w.attempt(0).status == 500 ==> w.attempt(0).serverLeaving
    ensures k == 0 && w.attempt(0).Transport? ==> w.attempt(0).retryable
  {
    var seen :| ComesTo(w, k, seen, None);
  }

  /** A warm succeeds only on a good answer, or on a read its watch made of the seat loaded and settled. */
  lemma SuccessWasSeen(w: WarmWorld, k: nat)
    requires Comes(w, k, Some(WarmOK))
    ensures Loaded(w.attempt(k)) || SeenReady(w, k)
    ensures !(w.attempt(k).Answer? && 200 <= w.attempt(k).status < 300) ==>
              exists n: nat ::
                && EndsAt(w.watch(k), Patient(w, k), n, Ready)
                && w.watch(k).read(n).Read? && w.watch(k).read(n).loaded && !w.watch(k).read(n).starting
  {
    var seen :| ComesTo(w, k, seen, Some(WarmOK));
    if !Loaded(w.attempt(k)) {
      var n: nat :| EndsAt(w.watch(k), Patient(w, k), n, seen);
      assert Settled(w.watch(k).read(n));
    }
  }

  /** A load that was answered well is never reported as anything else. */
  lemma ALoadIsASuccess(w: WarmWorld, k: nat, result: Option<Warmed>)
    requires Comes(w, k, result) && w.attempt(k).Answer? && 200 <= w.attempt(k).status < 300
    ensures result == Some(WarmOK)
  {
    var seen :| ComesTo(w, k, seen, result);
  }

  lemma BackOffFits(w: WarmWorld, k: nat)
    requires Timed(w) && k < MAX_SENDS
    requires w.sent(0) + TotalDelay(k) <= w.sent(k)
    requires w.watched(k) + Delay(k) < w.sent(0) + WARM_RELOAD_GRACE
    ensures k + 1 < MAX_SENDS
    ensures w.sent(0) + TotalDelay(k + 1) <= w.sent(k + 1)
  {
    assert TimedAt(w, k);
    if k == 9 {
      NineBackOffsFitTheWindow();
    }
  }

  // ---- The guards ----

  /** What one look at the guards finds: the lease still ours, leases queued behind us, a live lease on the
      seat's cards, and whether the host can take the seat. */
  datatype Guard = Guard(held: bool, queued: nat, otherLease: bool, hostRefuses: bool)

  predicate Refuses(g: Guard) { !g.held || 0 < g.queued || g.otherLease || g.hostRefuses }

  /** What one warm-back did to the debt marker. */
  datatype Debt = LeftAlone | Cleared | ClearedIfItNamesTheSeat

  /** guard(0) is looked at before the first request, guard(k) before re-send k, and last before a marker
      is cleared on a reading taken after the request failed. */
  datatype BackWorld = BackWorld(owed: bool, guard: nat -> Guard, warm: WarmWorld, leaseLost: bool,
                                 confirm: Reading, last: Guard)

  /** A good warm pays; a failed one pays only if the seat reads loaded all the same, under guards that still
      allow touching the marker; a refused one never does. */
  function Pays(w: BackWorld, result: Warmed): Debt {
    match result
    case WarmOK => Cleared
    case GuardStopped => LeftAlone
    case WarmFailed =>
      if !w.leaseLost && Settled(w.confirm) && !Refuses(w.last) then ClearedIfItNamesTheSeat else LeftAlone
  }

  /** Reload the seat when the guards allow it. It never fails: what it decides is the marker. */
  method WarmBackGuarded(w: BackWorld, onlyIfOwed: bool) returns (debt: Debt, sends: nat)
    requires Timed(w.warm)
    requires forall k: nat :: w.warm.allowed(k) == !Refuses(w.guard(k))
    // the seat is left alone exactly when nothing is owed or a guard refuses, and the marker with it
    ensures sends == 0 <==>
            || (onlyIfOwed && !w.owed)
            || !w.guard(0).held || 0 < w.guard(0).queued || w.guard(0).otherLease || w.guard(0).hostRefuses
    ensures sends == 0 ==> debt == LeftAlone
    // every request is preceded by a look at the guards that passes
    ensures sends <= 10 && forall k: nat :: k < sends ==>
              w.guard(k).held && w.guard(k).queued == 0 && !w.guard(k).otherLease && !w.guard(k).hostRefuses
    // the debt is decided by how the warm ended: a good one pays, and one that failed pays if the lease is kept and
    // the seat reads loaded all the same, under a last look at the guards that passes
    ensures 0 < sends ==> exists result: Warmed ::
              && Comes(w.warm, sends - 1, Some(result)) && debt == Pays(w, result)
              && (debt == Cleared <==> result == WarmOK)
              && (debt == ClearedIfItNamesTheSeat <==>
                    && result == WarmFailed
                    && !w.leaseLost && w.confirm.Read? && w.confirm.loaded && !w.confirm.starting
                    && w.last.held && w.last.queued == 0 && !w.last.otherLease && !w.last.hostRefuses)
  {
    if onlyIfOwed && !w.owed {
      return LeftAlone, 0;
    }
    if Refuses(w.guard(0)) {
      return LeftAlone, 0;
    }
    var result;
    result, sends := WarmSeatGated(w.warm);
    forall k: nat | 1 <= k < sends ensures !Refuses(w.guard(k)) {
      AResendIsExplained(w.warm, k - 1);
    }
    if result == GuardStopped {
      return LeftAlone, sends;
    }
    if result == WarmFailed {
      var loaded := !w.leaseLost && Settled(w.confirm);
      return if loaded && !Refuses(w.last) then ClearedIfItNamesTheSeat else LeftAlone, sends;
    }
    debt := Cleared;
  }

  /** The debt is paid only by a load that was answered, by a read its watch made of the seat loaded, or by the
      read made after it failed. */
  lemma OnlyASeenLoadPays(w: BackWorld, k: nat, result: Warmed)
    requires Comes(w.warm, k, Some(result)) && Pays(w, result) != LeftAlone
    ensures Paid(w, k)
    ensures result == WarmOK || (result == WarmFailed && !w.leaseLost)
    ensures result == WarmFailed ==>
              && w.confirm.Read? && w.confirm.loaded && !w.confirm.starting
              && w.last.held && w.last.queued == 0 && !w.last.otherLease && !w.last.hostRefuses
    ensures result == WarmOK ==>
              || (w.warm.attempt(k).Answer? && 200 <= w.warm.attempt(k).status < 300)
              || exists n: nat ::
                   && w.warm.watch(k).read(n).Read? && w.warm.watch(k).read(n).loaded
                   && !w.warm.watch(k).read(n).starting
  {
    if result == WarmOK {
      SuccessWasSeen(w.warm, k);
    }
  }

  ghost predicate Paid(w: BackWorld, k: nat) {
    || Loaded(w.warm.attempt(k)) || SeenReady(w.warm, k)
    || (!w.leaseLost && Settled(w.confirm) && !Refuses(w.last))
  }
}
