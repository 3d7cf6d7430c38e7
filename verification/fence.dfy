/** How a holder decides that its lease is really gone: the confirmation every failed fence goes
    through, and what it means for a wrapper that ticks. */
module Fence {
  import opened Common

  /** Why a look at the fence failed. Only a record that could not be READ is no verdict. */
  datatype FenceError =
    | Gone
    | FencedOut(epoch: nat)
    | RecordUnreadable(why: string)
    | WriteFailed(why: string)

  datatype FenceState = FenceOK | FenceLost | FenceUnreadable

  /** What the k-th look at the fence finds; None is a fence that passes. */
  type Looks = nat -> Option<FenceError>

  predicate IsRecordUnreadable(e: Option<FenceError>) {
    e.Some? && e.value.RecordUnreadable?
  }

  /** The pause before look k: three close looks, then the slower poll. */
  function PauseBefore(k: nat, poll: nat): nat {
    if k < 3 then HOLD_CONFIRM_PAUSE else poll
  }

  /** clock(k) is the moment before the pause of look k. A sleep never ends early ... */
  ghost predicate Paced(clock: Clock, poll: nat) {
    forall k: nat :: Waits(clock, poll, k)
  }

  ghost predicate Waits(clock: Clock, poll: nat, k: nat) { clock(k) + PauseBefore(k, poll) <= clock(k + 1) }

  /** ... and, on a box that keeps up, a pause and its look end at most jitter late. */
  ghost predicate Punctual(clock: Clock, poll: nat, jitter: nat) {
    forall k: nat :: InTime(clock, poll, jitter, k)
  }

  ghost predicate InTime(clock: Clock, poll: nat, jitter: nat, k: nat) {
    clock(k + 1) <= clock(k) + PauseBefore(k, poll) + jitter
  }

  /** Look k is made: none before it passed, and from the fourth on nothing but unreadable records
      were seen since the third and the retry window is still open. */
  ghost predicate MakesLook(look: Looks, clock: Clock, retryFor: nat, k: nat) {
    && (forall i: nat :: i < k ==> look(i).Some?)
    && (3 <= k ==>
          && (forall i: nat :: 2 <= i < k ==> IsRecordUnreadable(look(i)))
          && clock(k) < clock(3) + retryFor)
  }

  /** A confirmation ends after exactly n looks. */
  ghost predicate StopsAfter(look: Looks, clock: Clock, retryFor: nat, n: nat) {
    && 1 <= n
    && (forall k: nat :: k < n ==> MakesLook(look, clock, retryFor, k))
    && (look(n - 1).None? || !MakesLook(look, clock, retryFor, n))
  }

  /** Look again three times, then retry a record that cannot be read for retryFor. n is the number
      of looks made. */
  method ConfirmFence(first: Option<FenceError>, look: Looks, clock: Clock, retryFor: nat, poll: nat)
    returns (state: FenceState, last: Option<FenceError>, n: nat)
    requires 0 < poll
    requires Paced(clock, poll)
    ensures first.None? ==> state == FenceOK && last == None && n == 0
    ensures first.Some? ==> StopsAfter(look, clock, retryFor, n) && last == look(n - 1)
    // every look but the last failed, and from the third on only because the record could not be read
    ensures forall k: nat :: k < n - 1 ==> look(k).Some? && (2 <= k ==> look(k).value.RecordUnreadable?)
    // it goes on for as long as the window and no longer
    ensures 3 < n ==> clock(n - 1) < clock(3) + retryFor
    // a single good look, anywhere, is enough
    ensures state == FenceOK <==> first.None? || last.None?
    ensures state == FenceOK <==> first.None? || exists k: nat :: k < n && look(k).None?
    // anything else was seen to fail on every look, the first error and at least three more
    ensures state != FenceOK ==> first.Some? && 3 <= n && forall k: nat :: k < n ==> look(k).Some?
    ensures state == FenceLost <==> first.Some? && last.Some? && !last.value.RecordUnreadable?
    // no verdict: the third look and every look of the whole retry window were unreadable
    ensures state == FenceUnreadable <==>
            && first.Some?
            && 3 <= n
            && (forall k: nat :: k < n ==> look(k).Some?)
            && (forall k: nat :: 2 <= k < n ==> look(k).Some? && look(k).value.RecordUnreadable?)
            && clock(3) + retryFor <= clock(n)
  {
    if first.None? {
      return FenceOK, None, 0;
    }
    last := first;
    n := 0;
    while n < 3
      invariant n <= 3
      invariant forall k: nat :: k < n ==> look(k).Some?
      invariant n == 0 || last == look(n - 1)
    {
      last := look(n);
      n := n + 1;
      if last.None? {
        return FenceOK, last, n;
      }
    }
    if !IsRecordUnreadable(last) {
      return FenceLost, last, n;
    }
    var deadline := clock(3) + retryFor;
    while clock(n) < deadline
      invariant 3 <= n
      invariant forall k: nat :: k < n ==> look(k).Some?
      invariant forall k: nat :: 2 <= k < n ==> IsRecordUnreadable(look(k))
      invariant forall k: nat :: k < n ==> MakesLook(look, clock, retryFor, k)
      invariant last == look(n - 1) && (3 < n ==> clock(n - 1) < deadline)
      decreases deadline - clock(n)
    {
      assert Waits(clock, poll, n);
      last := look(n);
      n := n + 1;
      if last.None? {
        return FenceOK, last, n;
      }
      if !IsRecordUnreadable(last) {
        return FenceLost, last, n;
      }
    }
    return FenceUnreadable, last, n;
  }

  /** What a look found decides where the confirmation ends: the number of looks is not the code's choice. */
  lemma StopsOnce(look: Looks, clock: Clock, retryFor: nat, m: nat, n: nat)
    requires StopsAfter(look, clock, retryFor, m) && StopsAfter(look, clock, retryFor, n)
    ensures m == n
  {
    var afterM, afterN := MakesLook(look, clock, retryFor, m), MakesLook(look, clock, retryFor, n);
    var endM, endN := look(m - 1), look(n - 1);
  }

  /** However long the record stays unreadable, the confirmation ends: four lateness allowances cover it,
      whatever the number of polls, because the window is measured on the clock. */
  lemma ConfirmIsPrompt(look: Looks, clock: Clock, retryFor: nat, poll: nat, n: nat, jitter: nat)
    requires Paced(clock, poll) && Punctual(clock, poll, jitter)
    requires StopsAfter(look, clock, retryFor, n)
    ensures clock(0) <= clock(n) <= clock(0) + ConfirmBound(retryFor, poll, jitter)
  {
    Rises(clock, poll, n);
    assert InTime(clock, poll, jitter, 0) && InTime(clock, poll, jitter, 1) && InTime(clock, poll, jitter, 2);
    if 3 < n {
      assert MakesLook(look, clock, retryFor, n - 1);
      assert InTime(clock, poll, jitter, n - 1);
    }
  }

  /** Where a confirmation ends, in its looks: at the first that passes; at the third or any later one that is a
      verdict; or when the window is over. */
  lemma AConfirmationStopsWhere(look: Looks, clock: Clock, retryFor: nat, n: nat)
    ensures StopsAfter(look, clock, retryFor, n) <==>
            && 1 <= n
            && (forall k: nat :: k < n - 1 ==> look(k).Some? && (2 <= k ==> look(k).value.RecordUnreadable?))
            && (forall k: nat :: 3 <= k < n ==> clock(k) < clock(3) + retryFor)
            && (|| look(n - 1).None?
                || (3 <= n && (!look(n - 1).value.RecordUnreadable? || clock(3) + retryFor <= clock(n))))
  {
    if StopsAfter(look, clock, retryFor, n) {
      forall k: nat | k < n
        ensures (3 <= k ==> clock(k) < clock(3) + retryFor)
             && (k < n - 1 ==> look(k).Some? && (2 <= k ==> look(k).value.RecordUnreadable?))
      {
        assert MakesLook(look, clock, retryFor, k) && MakesLook(look, clock, retryFor, n - 1);
      }
      var goesOn := MakesLook(look, clock, retryFor, n);
    }
  }

  /** Three looks take three pauses of 50 ms, and the slower poll comes between the ones after. */
  lemma {:induction false} ThreeLooksAreClose(clock: Clock, poll: nat, n: nat)
    requires Paced(clock, poll)
    ensures clock(0) + (if n < 3 then 50 * n else 150 + poll * (n - 3)) <= clock(n)
    ensures 3 <= n ==> clock(3) + poll * (n - 3) <= clock(n)
  {
    if 0 < n {
      ThreeLooksAreClose(clock, poll, n - 1);
      assert Waits(clock, poll, n - 1);
      assert 3 < n ==> poll * (n - 3) == poll * (n - 4) + poll;
    }
  }

  function ConfirmBound(retryFor: nat, poll: nat, jitter: nat): nat {
    3 * HOLD_CONFIRM_PAUSE + retryFor + poll + 4 * jitter
  }

  lemma {:induction false} Rises(clock: Clock, poll: nat, n: nat)
    requires Paced(clock, poll)
    ensures clock(0) <= clock(n)
  {
    if 0 < n {
      Rises(clock, poll, n - 1);
      assert Waits(clock, poll, n - 1);
    }
  }
}
