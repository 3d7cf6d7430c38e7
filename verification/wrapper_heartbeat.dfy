/** The wrapper form's tick: it renews its heartbeat, confirms a renewal that failed, and stops its
    command on anything but a lease that is shown to be its own. */
module WrapperHeartbeat {
  import opened Common
  import opened Fence

  /** One tick: when the renewal ran, how it ended, and the looks a failed one leads to. */
  datatype Tick = Tick(at: int, renew: Option<FenceError>, look: Looks, clock: Clock, looks: nat)

  /** The tick's look at the fence: one confirmation, timed from the tick itself. */
  ghost predicate IsTick(t: Tick, jitter: nat) {
    && t.clock(0) == t.at
    && Paced(t.clock, WRAPPER_FENCE_POLL)
    && Punctual(t.clock, WRAPPER_FENCE_POLL, jitter)
    && (t.renew.Some? ==> StopsAfter(t.look, t.clock, WRAPPER_FENCE_WINDOW, t.looks))
    && (t.renew.None? ==> t.looks == 0)
  }

  function TickEnd(t: Tick): int { t.clock(t.looks) }

  /** The lease was shown to be ours at the end of this tick. */
  predicate Proves(t: Tick) {
    t.renew.None? || (1 <= t.looks && t.look(t.looks - 1).None?)
  }

  /** The latest moment the next tick can begin: a Go ticker holds one missed tick back. */
  function NextTickBy(ticks: seq<Tick>, started: int, jitter: nat): int {
    if ticks == [] then started + WRAPPER_TICK_EVERY + jitter
    else Max(TickEnd(ticks[|ticks| - 1]), ticks[|ticks| - 1].at + WRAPPER_TICK_EVERY) + jitter
  }

  /** The ticks of one command, in order, from the moment it started under a good heartbeat. */
  ghost predicate IsRun(ticks: seq<Tick>, started: int, jitter: nat) {
    forall i :: 0 <= i < |ticks| ==> TickFits(ticks, i, started, jitter)
  }

  ghost predicate TickFits(ticks: seq<Tick>, i: nat, started: int, jitter: nat)
    requires i < |ticks|
  {
    && IsTick(ticks[i], jitter)
    && started <= ticks[i].at <= NextTickBy(ticks[..i], started, jitter)
    && (0 < i ==> TickEnd(ticks[i - 1]) <= ticks[i].at)
  }

  function LastProof(ticks: seq<Tick>, started: int): int {
    if ticks == [] then started
    else if Proves(ticks[|ticks| - 1]) then TickEnd(ticks[|ticks| - 1])
    else LastProof(ticks[..|ticks| - 1], started)
  }

  function LastHeartbeat(ticks: seq<Tick>, started: int): int {
    if ticks == [] then started
    else if ticks[|ticks| - 1].renew.None? then ticks[|ticks| - 1].at
    else LastHeartbeat(ticks[..|ticks| - 1], started)
  }

  /** Since the last proof, every renewal failed and so did every look after it; and the proof was a renewal, or a
      look that passed, at that moment. */
  lemma {:induction false} LastProofIs(ticks: seq<Tick>, started: int) returns (i: int)
    ensures -1 <= i < |ticks|
    ensures LastProof(ticks, started) == if i < 0 then started else ticks[i].clock(ticks[i].looks)
    ensures 0 <= i ==> ticks[i].renew.None? || (1 <= ticks[i].looks && ticks[i].look(ticks[i].looks - 1).None?)
    ensures forall j :: i < j < |ticks| ==>
              ticks[j].renew.Some? && (1 <= ticks[j].looks ==> ticks[j].look(ticks[j].looks - 1).Some?)
  {
    i := |ticks| - 1;
    if ticks != [] && !Proves(ticks[i]) {
      i := LastProofIs(ticks[..i], started);
    }
  }

  /** How many heartbeats in a row have gone unwritten by now. */
  function Unwritten(ticks: seq<Tick>): nat {
    if ticks == [] || ticks[|ticks| - 1].renew.None? then 0 else 1 + Unwritten(ticks[..|ticks| - 1])
  }

  /** ... which are the ticks since the last renewal that was written. */
  lemma {:induction false} UnwrittenAre(ticks: seq<Tick>, started: int)
    ensures var n := |ticks| - Unwritten(ticks);
            && 0 <= n <= |ticks|
            && (forall i :: n <= i < |ticks| ==> ticks[i].renew.Some?)
            && (0 < n ==> ticks[n - 1].renew.None?)
            && LastHeartbeat(ticks, started) == if 0 < n then ticks[n - 1].at else started
  {
    if ticks != [] && ticks[|ticks| - 1].renew.Some? {
      UnwrittenAre(ticks[..|ticks| - 1], started);
    }
  }

  /** One tick, the retry window of an unreadable record, and five lateness allowances. */
  function LossBound(jitter: nat): nat {
    WRAPPER_TICK_EVERY + ConfirmBound(WRAPPER_FENCE_WINDOW, WRAPPER_FENCE_POLL, jitter) + jitter
  }

  /** The command is still running at now: every tick so far showed the lease to be ours, and now is
      no later than the end of the next tick's confirmation. */
  ghost predicate RunningAt(ticks: seq<Tick>, started: int, jitter: nat, now: int) {
    && IsRun(ticks, started, jitter)
    && (forall i :: 0 <= i < |ticks| ==> Proves(ticks[i]))
    && now <= NextTickBy(ticks, started, jitter) + ConfirmBound(WRAPPER_FENCE_WINDOW, WRAPPER_FENCE_POLL, jitter)
  }

  /** Whenever the command runs, the lease was shown to be ours at most LossBound before: 25.4 s on a
      box that keeps up, whoever took the record and however it fails to be read. */
  lemma RunningMeansProved(ticks: seq<Tick>, started: int, jitter: nat, now: int)
    requires RunningAt(ticks, started, jitter, now)
    ensures now <= LastProof(ticks, started) + LossBound(jitter)
    ensures LossBound(jitter) == 25_400 + 5 * jitter
  {
    if ticks != [] {
      assert TickFits(ticks, |ticks| - 1, started, jitter);
      TickEndsAfterItBegins(ticks[|ticks| - 1], jitter);
    }
  }

  lemma TickEndsAfterItBegins(t: Tick, jitter: nat)
    requires IsTick(t, jitter)
    ensures t.at <= TickEnd(t) <= t.at + ConfirmBound(WRAPPER_FENCE_WINDOW, WRAPPER_FENCE_POLL, jitter)
  {
    if t.renew.Some? {
      ConfirmIsPrompt(t.look, t.clock, WRAPPER_FENCE_WINDOW, WRAPPER_FENCE_POLL, t.looks, jitter);
    }
  }

  lemma PrefixIsRun(ticks: seq<Tick>, started: int, jitter: nat, n: nat)
    requires IsRun(ticks, started, jitter) && n <= |ticks|
    ensures IsRun(ticks[..n], started, jitter)
  {
    forall i | 0 <= i < n
      ensures TickFits(ticks[..n], i, started, jitter)
    {
      assert TickFits(ticks, i, started, jitter);
      assert ticks[..n][..i] == ticks[..i];
    }
  }

  lemma StopIsTimely(ticks: seq<Tick>, started: int, jitter: nat, n: nat)
    requires IsRun(ticks, started, jitter) && n < |ticks|
    requires forall i :: 0 <= i < n ==> Proves(ticks[i])
    ensures TickEnd(ticks[n]) <= LastProof(ticks[..n], started) + LossBound(jitter)
  {
    PrefixIsRun(ticks, started, jitter, n);
    assert TickFits(ticks, n, started, jitter);
    TickEndsAfterItBegins(ticks[n], jitter);
    RunningMeansProved(ticks[..n], started, jitter, TickEnd(ticks[n]));
  }

  /** Some look of the tick's confirmation passed. */
  ghost predicate Passed(t: Tick) { exists k: nat :: k < t.looks && t.look(k).None? }

  /** One tick's verdict on the lease. */
  method HandleTick(t: Tick, ghost jitter: nat) returns (why: FenceState)
    requires IsTick(t, jitter)
    ensures why == FenceOK <==> Proves(t)
    // in its looks: the heartbeat was written, or some look passed
    ensures why == FenceOK <==> t.renew.None? || exists k: nat :: k < t.looks && t.look(k).None?
    ensures why != FenceOK ==> 0 < t.looks
    ensures why == FenceUnreadable <==> !Proves(t) && IsRecordUnreadable(t.look(t.looks - 1))
    // not known to be lost, but not read for the whole window of 10 s
    ensures why == FenceUnreadable ==>
              && 3 <= t.looks && t.clock(3) + 10_000 <= t.clock(t.looks)
              && forall k: nat :: 2 <= k < t.looks ==> t.look(k).Some? && t.look(k).value.RecordUnreadable?
  {
    why := FenceOK;
    if t.renew.Some? {
      var last, looks;
      why, last, looks := ConfirmFence(t.renew, t.look, t.clock, WRAPPER_FENCE_WINDOW, WRAPPER_FENCE_POLL);
      StopsOnce(t.look, t.clock, WRAPPER_FENCE_WINDOW, looks, t.looks);
    }
  }

  /** Tick until the command has to be stopped, or the ticks run out (the command ended by itself).
      n is the number of ticks handled; FenceOK says the command was never stopped. */
  method TendCommand(ticks: seq<Tick>, started: int, ghost jitter: nat) returns (n: nat, why: FenceState)
    requires IsRun(ticks, started, jitter)
    ensures n <= |ticks|
    ensures why == FenceOK ==> n == |ticks|
    ensures forall i :: 0 <= i < n && (why == FenceOK || i < n - 1) ==>
              Proves(ticks[i]) && (ticks[i].renew.None? || Passed(ticks[i]))
    // stopped at the first tick that could not show the lease to be ours, and at no other
    ensures why != FenceOK ==> 0 < n && !Proves(ticks[n - 1]) && 0 < ticks[n - 1].looks
    ensures why != FenceOK ==> ticks[n - 1].renew.Some? && !Passed(ticks[n - 1])
    ensures why == FenceUnreadable ==> IsRecordUnreadable(ticks[n - 1].look(ticks[n - 1].looks - 1))
    ensures why == FenceLost ==> !IsRecordUnreadable(ticks[n - 1].look(ticks[n - 1].looks - 1))
    // ... and in time, whatever the record did
    ensures why != FenceOK ==> TickEnd(ticks[n - 1]) <= LastProof(ticks[..n - 1], started) + LossBound(jitter)
  {
    n, why := 0, FenceOK;
    while n < |ticks|
      invariant n <= |ticks|
      invariant why == FenceOK
      invariant forall i :: 0 <= i < n ==> Proves(ticks[i]) && (ticks[i].renew.None? || Passed(ticks[i]))
    {
      assert TickFits(ticks, n, started, jitter);
      why := HandleTick(ticks[n], jitter);
      if why != FenceOK {
        StopIsTimely(ticks, started, jitter, n);
        n := n + 1;
        return;
      }
      n := n + 1;
    }
  }

  /** The liveness-independent half of the reclaim rule: a live wrapper's cards are handed on only
      when its heartbeat is stale AND its window has passed. */
  predicate StaleReclaim(heartbeat: int, windowEnd: int, now: int) {
    heartbeat + HEARTBEAT_TTL < now && windowEnd < now
  }

  lemma ReclaimIsAfterBoth(heartbeat: int, windowEnd: int, now: int)
    ensures !StaleReclaim(heartbeat, windowEnd, now) <==> now <= Max(heartbeat + 120_000, windowEnd)
  {}

  /** The record is unreadable from the last good heartbeat on: no look passed after it. */
  ghost predicate NoProofButHeartbeats(ticks: seq<Tick>) {
    forall i :: 0 <= i < |ticks| && Proves(ticks[i]) ==> ticks[i].renew.None?
  }

  /** A wrapper that cannot read its record stops its command before a stale-heartbeat reclaim can
      hand the cards on, on a box where each wait ends at most 18.9 s late. */
  lemma UnreadableStopsBeforeReclaim(ticks: seq<Tick>, started: int, jitter: nat, windowEnd: int, now: int)
    requires RunningAt(ticks, started, jitter, now)
    requires NoProofButHeartbeats(ticks)
    requires LossBound(jitter) <= HEARTBEAT_TTL
    ensures !StaleReclaim(LastHeartbeat(ticks, started), windowEnd, now)
    ensures now <= LastHeartbeat(ticks, started) + 120_000
  {
    RunningMeansProved(ticks, started, jitter, now);
    assert ticks != [] ==> TickFits(ticks, |ticks| - 1, started, jitter);
  }

  /** The other way round: if the cards can be handed on under a running command, then at some tick
      after the last heartbeat the heartbeat could not be WRITTEN while the record was still ours. */
  lemma StaleUnderACommand(ticks: seq<Tick>, started: int, jitter: nat, windowEnd: int, now: int)
      returns (i: nat)
    requires RunningAt(ticks, started, jitter, now)
    requires LossBound(jitter) <= HEARTBEAT_TTL
    requires StaleReclaim(LastHeartbeat(ticks, started), windowEnd, now)
    ensures i < |ticks| && Proves(ticks[i]) && ticks[i].renew.Some?
    ensures now <= TickEnd(ticks[i]) + LossBound(jitter)
  {
    RunningMeansProved(ticks, started, jitter, now);
    i := |ticks| - 1;
    assert TickFits(ticks, i, started, jitter);
  }

  /** The latest moment a command can still be running after these ticks: when the next one has been confirmed. */
  function RunsUntil(ticks: seq<Tick>, started: int, jitter: nat): int {
    NextTickBy(ticks, started, jitter) + ConfirmBound(WRAPPER_FENCE_WINDOW, WRAPPER_FENCE_POLL, jitter)
  }

  /** While every tick shows the lease to be its own, the command can be running under reclaimable cards if and
      only if the TTL of its last heartbeat and its window both end before it can be stopped. */
  lemma StaleUnderACommandIff(ticks: seq<Tick>, started: int, jitter: nat, windowEnd: int)
    requires IsRun(ticks, started, jitter) && forall i :: 0 <= i < |ticks| ==> Proves(ticks[i])
    ensures (exists now ::
               RunningAt(ticks, started, jitter, now) && StaleReclaim(LastHeartbeat(ticks, started), windowEnd, now))
       <==> Max(LastHeartbeat(ticks, started) + HEARTBEAT_TTL, windowEnd) < RunsUntil(ticks, started, jitter)
  {
    assert RunningAt(ticks, started, jitter, RunsUntil(ticks, started, jitter));
  }

  /** As long as a confirmation fits into a tick, heartbeats go unwritten one tick at a time. */
  lemma {:induction false} TicksKeepUp(ticks: seq<Tick>, started: int, jitter: nat)
    requires IsRun(ticks, started, jitter) && jitter <= 1_150
    ensures NextTickBy(ticks, started, jitter)
         <= LastHeartbeat(ticks, started) + (Unwritten(ticks) + 1) * (WRAPPER_TICK_EVERY + jitter)
  {
    if ticks != [] {
      var n := |ticks| - 1;
      assert TickFits(ticks, n, started, jitter);
      TickEndsAfterItBegins(ticks[n], jitter);
      if ticks[n].renew.Some? {
        PrefixIsRun(ticks, started, jitter, n);
        TicksKeepUp(ticks[..n], started, jitter);
      }
    }
  }

  /** Some command can be running under reclaimable cards after this many heartbeats in a row went unwritten. */
  ghost predicate CanBeStaleAfter(unwritten: nat, jitter: nat) {
    exists ticks, started, windowEnd, now: int :: StaleAfter(ticks, started, windowEnd, now, unwritten, jitter)
  }

  ghost predicate StaleAfter(ticks: seq<Tick>, started: int, windowEnd: int, now: int, unwritten: nat, jitter: nat) {
    && RunningAt(ticks, started, jitter, now) && Unwritten(ticks) == unwritten
    && StaleReclaim(LastHeartbeat(ticks, started), windowEnd, now)
  }

  /** What a readable record is worth: the cards of a running command can be handed on if and only if at least seven
      heartbeats in a row could not be written, every confirmation reading the record as still its own, on a box whose
      waits end at most 418 ms late. */
  lemma SevenHeartbeatsMustGoUnwritten(unwritten: nat, jitter: nat)
    requires jitter <= 418
    ensures CanBeStaleAfter(unwritten, jitter) <==> 7 <= unwritten
  {
    if CanBeStaleAfter(unwritten, jitter) {
      var ticks, started, windowEnd, now: int :| StaleAfter(ticks, started, windowEnd, now, unwritten, jitter);
      UnwrittenWhenStale(ticks, started, jitter, windowEnd, now);
    }
    if 7 <= unwritten {
      var (ticks, now) := (StuckRun(unwritten), 15_000 * unwritten + 25_000);
      StuckRunIsRun(unwritten, jitter);
      StuckNext(unwritten, jitter);
      NeverRenewed(ticks, 0);
      assert StaleAfter(ticks, 0, 0, now, unwritten, jitter);
    }
  }

  lemma TicksTake(n: nat, jitter: nat)
    ensures n < 6 && jitter <= 1_150 ==> (n + 1) * (WRAPPER_TICK_EVERY + jitter) <= 6 * 16_150
    ensures n < 7 && jitter <= 418 ==> (n + 1) * (WRAPPER_TICK_EVERY + jitter) <= 7 * 15_418
  {}

  /** A stale heartbeat under a running command takes seven unwritten ones, on a box that keeps up ... */
  lemma UnwrittenWhenStale(ticks: seq<Tick>, started: int, jitter: nat, windowEnd: int, now: int)
    requires jitter <= 1_150 && RunningAt(ticks, started, jitter, now)
    requires StaleReclaim(LastHeartbeat(ticks, started), windowEnd, now)
    ensures jitter <= 418 ==> 7 <= Unwritten(ticks)
    ensures 6 <= Unwritten(ticks)
  {
    TicksKeepUp(ticks, started, jitter);
    TicksTake(Unwritten(ticks), jitter);
  }

  /** ... and there is no end to it: a heartbeat file that cannot be written, under a record that reads as ours, keeps
      the command running past the TTL for as many ticks as there are. The code's retry has no end. */
  lemma UnwrittenHeartbeatOutlivesTheTTL(n: nat, windowEnd: int)
    requires 7 <= n && windowEnd < 15_000 * n + 15_200
    ensures LossBound(200) <= HEARTBEAT_TTL && Unwritten(StuckRun(n)) == n
    ensures RunningAt(StuckRun(n), 0, 200, 15_000 * n + 15_200)
    ensures StaleReclaim(LastHeartbeat(StuckRun(n), 0), windowEnd, 15_000 * n + 15_200)
  {
    StuckRunIsRun(n, 200);
    StuckNext(n, 200);
    NeverRenewed(StuckRun(n), 0);
  }

  function StuckHeartbeat(i: nat): Tick {
    Tick(15_000 * (i + 1), Some(WriteFailed("disk full")), (k: nat) => None,
         (k: nat) => 15_000 * (i + 1) + (if k < 3 then 50 * k else 250 * k - 600), 1)
  }

  function StuckRun(n: nat): seq<Tick> {
    if n == 0 then [] else StuckRun(n - 1) + [StuckHeartbeat(n - 1)]
  }

  lemma StuckTick(i: nat, jitter: nat)
    ensures IsTick(StuckHeartbeat(i), jitter)
    ensures TickEnd(StuckHeartbeat(i)) == 15_000 * (i + 1) + 50
  {
    var t := StuckHeartbeat(i);
    assert MakesLook(t.look, t.clock, WRAPPER_FENCE_WINDOW, 0);
  }

  lemma {:induction false} StuckRunAt(n: nat)
    ensures |StuckRun(n)| == n
    ensures forall i :: 0 <= i < n ==> StuckRun(n)[i] == StuckHeartbeat(i)
  {
    if 0 < n { StuckRunAt(n - 1); }
  }

  lemma StuckNext(n: nat, jitter: nat)
    ensures NextTickBy(StuckRun(n), 0, jitter) == 15_000 * n + 15_000 + jitter
  {
    StuckRunAt(n);
    if 0 < n { StuckTick(n - 1, jitter); }
  }

  lemma StuckPrefix(n: nat, i: nat)
    requires i <= n
    ensures |StuckRun(n)| == n && StuckRun(n)[..i] == StuckRun(i)
  {
    StuckRunAt(n);
    StuckRunAt(i);
  }

  lemma StuckRunIsRun(n: nat, jitter: nat)
    ensures |StuckRun(n)| == n && IsRun(StuckRun(n), 0, jitter)
    ensures forall i :: 0 <= i < |StuckRun(n)| ==> Proves(StuckRun(n)[i]) && StuckRun(n)[i].renew.Some?
  {
    StuckRunAt(n);
    forall i | 0 <= i < n
      ensures TickFits(StuckRun(n), i, 0, jitter)
    {
      StuckTick(i, jitter);
      StuckNext(i, jitter);
      StuckPrefix(n, i);
      if 0 < i { StuckTick(i - 1, jitter); }
    }
  }

  lemma {:induction false} NeverRenewed(ticks: seq<Tick>, started: int)
    requires forall i :: 0 <= i < |ticks| ==> ticks[i].renew.Some?
    ensures LastHeartbeat(ticks, started) == started && Unwritten(ticks) == |ticks|
  {
    if ticks != [] {
      NeverRenewed(ticks[..|ticks| - 1], started);
    }
  }
}
