/** A holder's check of its lease's term: what it asks, how often, and what it says once. */
module Terms {
  import opened Common

  const TERM_RECHECK_EVERY := 60_000

  /** What the lease says of its term, or that it could not be asked. */
  datatype Answer = Failed | NotDue | Extended | Expired | StillExpired

  datatype Said = Nothing | CouldNotCheck | Renewed | BecameExpired

  /** expiredAt is when the lease was last found labelled; warned says a failed check was told. */
  datatype Ticker = Ticker(expiredAt: Option<int>, warned: bool)

  const FRESH := Ticker(None, false)

  /** One tick at now, answered (if it asks) with answer at later. */
  datatype Tick = Tick(now: int, answer: Answer, later: int)

  predicate Asks(t: Ticker, now: int) { t.expiredAt.None? || TERM_RECHECK_EVERY <= now - t.expiredAt.value }

  function Next(t: Ticker, k: Tick): Ticker {
    if !Asks(t, k.now) then t
    else match k.answer
      case Failed => t.(warned := true)
      case NotDue => FRESH
      case Extended => FRESH
      case _ => Ticker(Some(k.later), false)
  }

  function Says(t: Ticker, k: Tick): Said {
    if !Asks(t, k.now) then Nothing
    else match k.answer
      case Failed => if t.warned then Nothing else CouldNotCheck
      case Extended => Renewed
      case Expired => if t.expiredAt.None? then BecameExpired else Nothing
      case _ => Nothing
  }

  class TermTicker {
    var expiredAt: Option<int>
    var warned: bool

    function View(): Ticker
      reads this
    {
      Ticker(expiredAt, warned)
    }

    constructor ()
      ensures View() == FRESH
    {
      expiredAt, warned := None, false;
    }

    method Step(k: Tick) returns (said: Said)
      modifies this
      ensures View() == Next(old(View()), k) && said == Says(old(View()), k)
    {
      if expiredAt.Some? && k.now - expiredAt.value < TERM_RECHECK_EVERY {
        return Nothing;
      }
      if k.answer == Failed {
        said := if warned then Nothing else CouldNotCheck;
        warned := true;
        return;
      }
      warned := false;
      match k.answer {
        case Extended =>
          expiredAt := None;
          return Renewed;
        case Expired =>
          said := if expiredAt.None? then BecameExpired else Nothing;
          expiredAt := Some(k.later);
        case StillExpired =>
          expiredAt := Some(k.later);
          return Nothing;
        case NotDue =>
          expiredAt := None;
          return Nothing;
      }
    }
  }

  // ---- Every run of ticks ----

  function After(ticks: seq<Tick>): Ticker {
    if ticks == [] then FRESH else Next(After(ticks[..|ticks| - 1]), ticks[|ticks| - 1])
  }

  predicate AskedAt(ticks: seq<Tick>, i: nat)
    requires i < |ticks|
  {
    Asks(After(ticks[..i]), ticks[i].now)
  }

  /** The last tick before n that was answered one way or the other: -1 if none was. */
  function LastAnswered(ticks: seq<Tick>, n: nat): (i: int)
    requires n <= |ticks|
    ensures -1 <= i < n
  {
    if n == 0 then -1
    else if AskedAt(ticks, n - 1) && ticks[n - 1].answer != Failed then n - 1
    else LastAnswered(ticks, n - 1)
  }

  predicate SaysExpired(a: Answer) { a == Expired || a == StillExpired }

  lemma {:induction false} TickerIsItsHistory(ticks: seq<Tick>, n: nat)
    requires n <= |ticks|
    ensures var i := LastAnswered(ticks, n);
            After(ticks[..n]).expiredAt == if 0 <= i && SaysExpired(ticks[i].answer) then Some(ticks[i].later) else None
  {
    if 0 < n {
      TickerIsItsHistory(ticks, n - 1);
      assert ticks[..n][..n - 1] == ticks[..n - 1];
    }
  }

  /** An expiry is said at the tick that finds the lease expired when the last answer before did not: once
      per expiry, and again after a renewal. A check that failed in between ends nothing. */
  lemma ExpiryIsSaidOncePerExpiry(ticks: seq<Tick>, n: nat)
    requires n < |ticks|
    ensures Says(After(ticks[..n]), ticks[n]) == BecameExpired <==>
            var i := LastAnswered(ticks, n);
            ticks[n].answer == Expired && (i < 0 || ticks[i].answer !in {Expired, StillExpired})
  {
    TickerIsItsHistory(ticks, n);
  }

  /** A lease that is labelled is not asked about again within the minute; any other is asked at every tick. */
  lemma LabelledLeaseIsLeftAlone(ticks: seq<Tick>, n: nat)
    requires n < |ticks|
    ensures !AskedAt(ticks, n) <==>
            var i := LastAnswered(ticks, n);
            0 <= i && ticks[i].answer in {Expired, StillExpired} && ticks[n].now - ticks[i].later < 60_000
  {
    TickerIsItsHistory(ticks, n);
  }

  /** A renewal is said whenever one is answered, and nothing else is said of an answer. */
  lemma ARenewalIsSaid(ticks: seq<Tick>, n: nat)
    requires n < |ticks|
    ensures Says(After(ticks[..n]), ticks[n]) == Renewed <==> AskedAt(ticks, n) && ticks[n].answer == Extended
  {}

  /** A check that fails is told once until one is answered. */
  lemma {:induction false} AFailureIsSaidOnce(ticks: seq<Tick>, n: nat)
    requires n < |ticks|
    ensures Says(After(ticks[..n]), ticks[n]) == CouldNotCheck <==>
            && AskedAt(ticks, n) && ticks[n].answer == Failed
            && forall j :: LastAnswered(ticks, n) < j < n && AskedAt(ticks, j) ==> ticks[j].answer != Failed
  {
    WarnedIsItsHistory(ticks, n);
  }

  lemma {:induction false} WarnedIsItsHistory(ticks: seq<Tick>, n: nat)
    requires n <= |ticks|
    ensures After(ticks[..n]).warned <==>
            exists j: nat :: LastAnswered(ticks, n) < j < n && AskedAt(ticks, j) && ticks[j].answer == Failed
  {
    if 0 < n {
      WarnedIsItsHistory(ticks, n - 1);
      assert ticks[..n][..n - 1] == ticks[..n - 1];
    }
  }

  /** The last tick that was answered, and none after it was. */
  lemma {:induction false} LastAnsweredIs(ticks: seq<Tick>, n: nat)
    requires n <= |ticks|
    ensures var i := LastAnswered(ticks, n);
            && (0 <= i ==> AskedAt(ticks, i) && ticks[i].answer != Failed)
            && forall j: nat :: i < j < n && AskedAt(ticks, j) ==> ticks[j].answer == Failed
  {
    if 0 < n {
      LastAnsweredIs(ticks, n - 1);
    }
  }
}
