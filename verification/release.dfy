/** The hidden holder's release of its own lease: tried a few times, believed only on what the record
    says afterwards. */
module Release {
  import opened Common

  /** What the record of an epoch says. Unreadable counts as held for every decision here. */
  datatype RecordState = Absent | Held | Unreadable

  datatype ReleaseError = MovedOn | Refused(why: string)

  /** One try: what the release answered, then the three looks taken after it. Other processes write
      between them, so the two looks at the record may differ. */
  datatype Try = Try(answer: Option<ReleaseError>, record: RecordState, claims: nat, again: RecordState)

  /** Why the lease is still there. */
  datatype Failure =
    | Answered(error: ReleaseError)   // a release said so
    | StillOnRecord(state: RecordState)
    | ClaimLeft

  /** This look shows the lease released: it is somebody else's now, or its record is gone with every claim. */
  predicate Released(t: Try) {
    t.answer == Some(MovedOn) || (t.record == Absent && t.claims == 0)
  }

  /** The failure one try leaves behind, over the one kept so far: a real answer replaces it, a silent one
      only fills a blank. */
  function Kept(last: Option<Failure>, t: Try): (f: Option<Failure>)
    ensures f.Some?
  {
    if t.answer.Some? then Some(Answered(t.answer.value))
    else if last.Some? then last
    else if t.again != Absent then Some(StillOnRecord(t.again))
    else Some(ClaimLeft)
  }

  /** The last real answer among the first k tries. */
  function LastAnswer(tries: nat -> Try, k: nat): Option<ReleaseError> {
    if k == 0 then None
    else if tries(k - 1).answer.Some? then tries(k - 1).answer
    else LastAnswer(tries, k - 1)
  }

  lemma {:induction false} LastAnswerIs(tries: nat -> Try, k: nat) returns (i: int)
    ensures -1 <= i < k
    ensures LastAnswer(tries, k) == if i < 0 then None else tries(i).answer
    ensures 0 <= i ==> tries(i).answer.Some?
    ensures forall j: nat :: i < j < k ==> tries(j).answer.None?
  {
    i := k - 1;
    if 0 < k && tries(k - 1).answer.None? {
      i := LastAnswerIs(tries, k - 1);
    }
  }

  /** nil exactly when one of at most four tries shows the lease released, and then at the first that does. */
  method ReleaseHolderLease(tries: nat -> Try) returns (failure: Option<Failure>, n: nat)
    ensures 1 <= n <= HOLD_RELEASE_TRIES == 4
    // it is released at the first try that shows it: an answer that the lease moved on, or no record and no claim
    ensures failure.None? <==>
            tries(n - 1).answer == Some(MovedOn) || (tries(n - 1).record == Absent && tries(n - 1).claims == 0)
    ensures forall i: nat :: i < n - 1 ==>
              tries(i).answer != Some(MovedOn) && (tries(i).record == Absent ==> 0 < tries(i).claims)
    ensures forall i: nat :: i < n - 1 ==> !Released(tries(i))
    ensures failure.None? <==> Released(tries(n - 1))
    ensures failure.Some? ==> n == HOLD_RELEASE_TRIES
    // a real failure is what is reported, and no later silence erases it
    ensures failure.Some? && LastAnswer(tries, n).Some? ==> failure == Some(Answered(LastAnswer(tries, n).value))
    ensures failure.Some? && failure.value.Answered? ==> LastAnswer(tries, n) == Some(failure.value.error)
    // with no real failure, the first try's own look says what is left
    ensures failure.Some? && LastAnswer(tries, n).None? ==>
              failure == Some(if tries(0).again != Absent then StillOnRecord(tries(0).again) else ClaimLeft)
  {
    var last: Option<Failure> := None;
    n := 0;
    while n < HOLD_RELEASE_TRIES
      invariant n <= HOLD_RELEASE_TRIES
      invariant forall i: nat :: i < n ==> !Released(tries(i))
      invariant n == 0 <==> last.None?
      invariant LastAnswer(tries, n).Some? ==> last == Some(Answered(LastAnswer(tries, n).value))
      invariant 0 < n && LastAnswer(tries, n).None? ==>
                  last == Some(if tries(0).again != Absent then StillOnRecord(tries(0).again) else ClaimLeft)
    {
      var t := tries(n);
      n := n + 1;
      if t.answer == Some(MovedOn) {
        return None, n;
      }
      if t.record == Absent && t.claims == 0 {
        return None, n;
      }
      last := Kept(last, t);
    }
    failure := last;
  }

  // ---- Believing an answer ----

  /** An answer of "nothing was held" is believed only when the record is gone. */
  function ConfirmReleased(released: bool, answer: Option<ReleaseError>, record: RecordState): Option<Failure> {
    if answer.Some? then Some(Answered(answer.value))
    else if released || record == Absent then None
    else Some(StillOnRecord(record))
  }

  /** A lease object's own "released" is checked against the record, whatever it said. */
  function ReleaseLeaseConfirmed(answer: Option<ReleaseError>, record: RecordState): Option<Failure> {
    ConfirmReleased(false, answer, record)
  }

  /** A release by epoch is reported as it answered: an error as that error, a release as done, and anything else as
      what the record says. */
  lemma AnAnswerIsReported(released: bool, answer: Option<ReleaseError>, record: RecordState)
    ensures ConfirmReleased(released, answer, record).None? <==> answer.None? && (released || record == Absent)
    ensures forall e :: ConfirmReleased(released, answer, record) == Some(Answered(e)) <==> answer == Some(e)
    ensures forall r :: ConfirmReleased(released, answer, record) == Some(StillOnRecord(r)) <==>
              answer.None? && !released && record == r != Absent
  {}

  /** Nothing is reported as released on the strength of silence: with no error, "nothing was held" and a lease
      object's own "released" are both believed exactly when the record is read and absent, so a record that
      cannot be read is never taken for gone. */
  lemma SilenceIsBelievedOnlyOfAnAbsentRecord(answer: Option<ReleaseError>, record: RecordState)
    ensures ConfirmReleased(false, answer, record).None? <==> answer.None? && record == Absent
    ensures ReleaseLeaseConfirmed(answer, record).None? <==> answer.None? && record == Absent
    ensures record == Unreadable ==> ReleaseLeaseConfirmed(answer, record).Some?
  {}
}
