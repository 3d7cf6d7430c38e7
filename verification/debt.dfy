/** The debt of a seat that was taken down for a lease, over every interleaving of the runs that clear the cards,
    warm the seat back or only look: the marker file they share is what pays it. */
module Debt {
  import opened Common

  /** Where one process is. What it knows of the seat or the marker may be old by the time it acts. */
  datatype Pc =
    | Idle
    | Unloading(resident: bool)              // the residency read is done, the requests go out
    | OwesMark                               // its requests are done, or were cancelled; the marker is not written yet
    | Warming                                // the guards passed, the load request is out
    | SawLoaded                              // its warm was answered, or the seat read loaded; nothing is cleared yet
    | StatusReads(began: int)
    | StatusSaw(began: int)                  // its reading shows the seat loaded
    | StatusFree(began: int, seen: int)      // ... the marker stamped seen is older, and no lease is live
    | StatusClears                           // ... and the marker is still the same one

  /** debt: an unload under a lease took the loaded seat down and nobody has seen it loaded since, whatever the run
      that did it had read. flying: the runs with a request for the seat that nobody waits for any more (timed out,
      cancelled, or its run died), and whether the run has marked the debt all the same: the model server may still
      finish it. Both are facts about the box, not variables of the program. */
  datatype State = State(loaded: bool, debt: bool, flying: map<nat, bool>, marker: Option<int>, holder: Option<nat>,
                         pcs: map<nat, Pc>, now: int)

  /** A run is one attempt of one process under one lease; one that queues again is another run. Lose may come
      at any time, and the run need not know. Its requests for the seat are the seat's own unload and the total
      route asked for any model; a lease whose cards do not hold the seat reads it as not resident. An operator's
      warm (gpu release --warm-seat) runs under no lease of its own. */
  datatype Event =
    | Acquire(run: nat) | Release(run: nat) | Lose
    | Unload(run: nat, resident: bool) | UnloadLands(run: nat) | TimesOut(run: nat) | Unloaded(run: nat)
    | Cancel(run: nat) | GivesUp(run: nat) | Lands(run: nat) | Vanishes(run: nat)
    | Mark(run: nat) | MarkFails(run: nat) | Dies(run: nat)
    | Warm(run: nat) | Warmed(run: nat) | Skips(run: nat) | Clear(run: nat)
    | StatusBegins(run: nat) | StatusSees(run: nat) | StatusChecks(run: nat)
    | StatusAgain(run: nat) | StatusClear(run: nat)
    | Loads | Expires | Passes(ms: nat)

  function At(s: State, i: nat): Pc { if i in s.pcs then s.pcs[i] else Idle }

  function Go(s: State, i: nat, pc: Pc): State { s.(pcs := s.pcs[i := pc]) }

  /** A request of the run is no longer waited for. */
  function LetFly(s: State, i: nat): State {
    if At(s, i).Unloading? && i !in s.flying then s.(flying := s.flying[i := false]) else s
  }

  /** The seat goes down by an unload, if it is up. */
  function TakeDown(s: State): State { s.(loaded := false, debt := s.debt || s.loaded) }

  /** A marker's stamp keeps whole seconds. */
  function Stamp(now: int): int { now - now % 1000 }

  /** The second the stamp names ended before the readings began. */
  predicate Older(stamp: int, began: int) { stamp + 1000 <= began }

  predicate Enabled(s: State, e: Event) {
    match e
    case Acquire(i) => s.holder.None? && At(s, i) == Idle
    case Release(i) => s.holder == Some(i) && At(s, i) == Idle
    case Lose => s.holder.Some?
    case Unload(i, _) => At(s, i) == Idle && i !in s.flying
    case UnloadLands(i) => At(s, i).Unloading?
    case TimesOut(i) => At(s, i).Unloading?
    case Unloaded(i) => At(s, i).Unloading?
    case Cancel(i) => At(s, i).Unloading?
    case GivesUp(i) => At(s, i).Unloading?
    case Lands(i) => i in s.flying
    case Vanishes(i) => i in s.flying
    case Mark(i) => At(s, i).OwesMark?
    case MarkFails(i) => At(s, i).OwesMark?
    case Dies(i) => true
    case Warm(i) => At(s, i) == Idle
    case Warmed(i) => At(s, i).Warming? && s.loaded
    case Skips(i) => At(s, i).Warming? || At(s, i).SawLoaded?
    case Clear(i) => At(s, i).SawLoaded?
    case StatusBegins(i) => At(s, i) == Idle
    case StatusSees(i) => At(s, i).StatusReads? && s.loaded
    case StatusChecks(i) => At(s, i).StatusSaw?
    case StatusAgain(i) => At(s, i).StatusFree?
    case StatusClear(i) => At(s, i).StatusClears?
    case _ => true
  }

  function Next(s: State, e: Event): State
    requires Enabled(s, e)
  {
    match e
    case Acquire(i) => s.(holder := Some(i))
    case Release(i) => s.(holder := None)
    case Lose => s.(holder := None)
    case Unload(i, resident) => Go(s, i, Unloading(resident))
    case UnloadLands(i) => TakeDown(s)
    case TimesOut(i) => LetFly(s, i)
    case Unloaded(i) => Go(s, i, if At(s, i).resident then OwesMark else Idle)
    case Cancel(i) => Go(LetFly(s, i), i, if At(s, i).resident then OwesMark else Idle)
    case GivesUp(i) => Go(LetFly(s, i), i, Idle)
    case Lands(i) => TakeDown(s).(flying := s.flying - {i})
    case Vanishes(i) => s.(flying := s.flying - {i})
    case Mark(i) =>
      Go(s, i, Idle).(marker := Some(Stamp(s.now)), flying := if i in s.flying then s.flying[i := true] else s.flying)
    case MarkFails(i) => Go(s, i, Idle)
    case Dies(i) => Go(LetFly(s, i), i, Idle).(holder := if s.holder == Some(i) then None else s.holder)
    case Warm(i) => Go(s, i, Warming)
    case Warmed(i) => Go(s, i, SawLoaded).(debt := false)
    case Skips(i) => Go(s, i, Idle)
    case Clear(i) => Go(s, i, Idle).(marker := None)
    case StatusBegins(i) => Go(s, i, StatusReads(s.now))
    case StatusSees(i) => Go(s, i, StatusSaw(At(s, i).began)).(debt := false)
    case StatusChecks(i) =>
      if s.marker.Some? && Older(s.marker.value, At(s, i).began) && s.holder.None?
      then Go(s, i, StatusFree(At(s, i).began, s.marker.value)) else Go(s, i, Idle)
    case StatusAgain(i) => Go(s, i, if s.marker == Some(At(s, i).seen) then StatusClears else Idle)
    case StatusClear(i) => Go(s, i, Idle).(marker := None)
    case Loads => s.(loaded := true)
    case Expires => s.(loaded := false)
    case Passes(ms) => s.(now := s.now + ms)
  }

  predicate Runs(s: State, events: seq<Event>)
    decreases |events|
  {
    events == [] || (Enabled(s, events[0]) && Runs(Next(s, events[0]), events[1..]))
  }

  function After(s: State, events: seq<Event>): State
    requires Runs(s, events)
    decreases |events|
  {
    if events == [] then s else After(Next(s, events[0]), events[1..])
  }

  /** Any seat, any marker a past run left, nobody in the middle of anything. */
  predicate Start(s: State) { !s.debt && s.pcs == map[] && s.flying == map[] }

  /** A run that read the seat as resident marks it, unless its unload fails; so does one that is past its unload. */
  predicate Owes(pc: Pc) { pc == OwesMark || pc == Unloading(true) }

  ghost predicate SomeOwes(s: State) { exists i: nat :: Owes(At(s, i)) }

  /** The debt is on the marker, or about to be. */
  ghost predicate Conserved(s: State) { s.debt ==> s.marker.Some? || SomeOwes(s) }

  // ---- What can lose a debt ----

  /** The five gaps the program leaves. With a debt at stake and no marker safe, the only run that owes its mark
      dies, gives its unload up or cannot write. A request its run no longer waits for, and has not marked, takes the
      loaded seat down. A run that read the seat as not resident, or that only clears other cards, takes the
      loaded seat down all the same. The mark is written while somebody who saw the seat loaded before has yet to
      clear the old one. Or the seat is seen loaded while a request that was marked already is still on its way.
      A lost lease alone is none of them. */
  ghost predicate Gap(s: State, e: Event) {
    match e
    case MarkFails(i) => AtStake(s) && OnlyOwer(s, i) && Exposed(s)
    case Dies(i) => AtStake(s) && OnlyOwer(s, i) && Exposed(s)
    case GivesUp(i) => AtStake(s) && OnlyOwer(s, i) && Exposed(s)
    case Lands(i) => i in s.flying && !s.flying[i] && s.loaded && !SomeOwes(s) && Exposed(s)
    case UnloadLands(i) => At(s, i) == Unloading(false) && s.loaded && !SomeOwes(s) && Exposed(s)
    case Mark(i) => (AtStake(s) || i in s.flying) && OnlyOwer(s, i) && exists j: nat :: YetToClear(s, j)
    case Warmed(i) => SomeMarkedFlight(s) && !SomeOwes(s)
    case StatusSees(i) =>
      && SomeMarkedFlight(s) && !SomeOwes(s)
      && s.marker.Some? && At(s, i).StatusReads? && Older(s.marker.value, At(s, i).began)
    case _ => false
  }

  /** Only run i owes a mark. */
  ghost predicate OnlyOwer(s: State, i: nat) { Owes(At(s, i)) && forall j: nat :: j != i ==> !Owes(At(s, j)) }

  /** A warm that was answered clears with no look at a guard, a status command after its second look at the
      marker. */
  predicate YetToClear(s: State, j: nat) { At(s, j) == SawLoaded || At(s, j) == StatusClears }

  /** A status command on its way to a marker that is older than its reading. */
  predicate ReadsPast(s: State, j: nat) {
    match At(s, j)
    case StatusSaw(began) => s.marker.Some? && Older(s.marker.value, began)
    case StatusFree(_, seen) => s.marker == Some(seen)
    case _ => false
  }

  /** There is no marker, or somebody is on the way to clear it. */
  ghost predicate Exposed(s: State) { s.marker.None? || exists j: nat :: OnTheWay(s, j) }

  predicate OnTheWay(s: State, j: nat) { YetToClear(s, j) || ReadsPast(s, j) }

  predicate MarkedFlight(s: State, i: nat) { i in s.flying && s.flying[i] }

  ghost predicate SomeMarkedFlight(s: State) { exists i: nat :: MarkedFlight(s, i) }

  /** A debt there is, or will be when a marked unload lands. */
  ghost predicate AtStake(s: State) { s.debt || SomeMarkedFlight(s) }

  ghost predicate NoGap(s: State, events: seq<Event>)
    requires Runs(s, events)
    decreases |events|
  {
    events == [] || (!Gap(s, events[0]) && NoGap(Next(s, events[0]), events[1..]))
  }

  /** What every state of a run without gaps keeps: what is at stake is owed, or on a marker out of everybody's
      reach. */
  ghost predicate Inv(s: State) {
    (AtStake(s) ==> SomeOwes(s) || !Exposed(s)) && forall i: nat :: InTime(s, i)
  }

  predicate InTime(s: State, i: nat) {
    match At(s, i)
    case StatusReads(began) => began <= s.now
    case StatusSaw(began) => began <= s.now
    case StatusFree(began, seen) => began <= s.now && Older(seen, began)
    case _ => true
  }

  lemma TimeGoesOn(s: State, e: Event)
    requires Enabled(s, e) && forall i: nat :: InTime(s, i)
    ensures forall i: nat :: InTime(Next(s, e), i)
  {
    forall i: nat ensures InTime(Next(s, e), i) { assert InTime(s, i); }
  }

  lemma StakesGrow(s: State, e: Event)
    requires Enabled(s, e)
    ensures AtStake(Next(s, e)) ==>
              || AtStake(s) || (e.Mark? && e.run in s.flying)
              || ((e.Lands? || e.UnloadLands?) && s.loaded)
    ensures e.Warmed? || e.StatusSees? ==> AtStake(Next(s, e)) == SomeMarkedFlight(s)
  {
    var s' := Next(s, e);
    if SomeMarkedFlight(s') {
      var i: nat :| MarkedFlight(s', i);
      assert MarkedFlight(s, i) || e == Mark(i);
    }
    if SomeMarkedFlight(s) {
      var i: nat :| MarkedFlight(s, i);
      assert e.Warmed? || e.StatusSees? ==> MarkedFlight(s', i);
    }
  }

  /** Only the run that owes the mark stops owing it. */
  lemma OwersGo(s: State, e: Event)
    requires Enabled(s, e) && SomeOwes(s)
    ensures || SomeOwes(Next(s, e))
            || ((e.Mark? || e.MarkFails? || e.Dies? || e.GivesUp?) && OnlyOwer(s, e.run))
  {
    var i: nat :| Owes(At(s, i));
    var s' := Next(s, e);
    if !Owes(At(s', i)) && !OnlyOwer(s, i) {
      var j: nat :| j != i && Owes(At(s, j));
      assert Owes(At(s', j));
    }
  }

  /** Whoever is on the way to a marker saw the seat loaded, or was on the way before; a fresh mark is passed by no
      reading: its whole second ended before none of them began. */
  lemma ReadersCome(s: State, e: Event)
    requires Enabled(s, e) && (forall i: nat :: InTime(s, i)) && Exposed(Next(s, e))
    ensures Exposed(s) || e.Warmed? || (e.StatusSees? && s.marker.Some? && Older(s.marker.value, At(s, e.run).began))
    ensures e.Mark? ==> exists j: nat :: YetToClear(s, j)
  {
    var s' := Next(s, e);
    if s'.marker.None? {
      assert e.Clear? || e.StatusClear? ==> OnTheWay(s, e.run);
    } else {
      var j: nat :| OnTheWay(s', j);
      assert InTime(s, j);
      if e.Mark? {
        assert YetToClear(s, j) && OnTheWay(s, j);
      } else if At(s', j) == At(s, j) {
        assert OnTheWay(s, j);
      } else if !e.Warmed? && !e.StatusSees? {
        assert OnTheWay(s, j);
      }
    }
  }

  lemma InvStep(s: State, e: Event)
    requires Inv(s) && Enabled(s, e) && !Gap(s, e)
    ensures Inv(Next(s, e))
  {
    TimeGoesOn(s, e);
    StakesGrow(s, e);
    if SomeOwes(s) { OwersGo(s, e); }
    if Exposed(Next(s, e)) { ReadersCome(s, e); }
    assert e.Lands? && s.flying[e.run] ==> MarkedFlight(s, e.run);
  }

  lemma {:induction false} InvHolds(s: State, events: seq<Event>)
    requires Inv(s) && Runs(s, events) && NoGap(s, events)
    ensures Inv(After(s, events))
    decreases |events|
  {
    if events != [] {
      InvStep(s, events[0]);
      InvHolds(Next(s, events[0]), events[1..]);
    }
  }

  /** Over every interleaving without one of the gaps, leases lost at any moment and operators' warms among it: a
      loaded seat that an unload under a lease took down, one that finished or was only cancelled, is on the marker
      (or about to be) until it is seen loaded. The stamp rule makes a status command safe against every lease
      but one that marks inside its last gap. */
  lemma DebtIsConserved(s: State, events: seq<Event>)
    requires Start(s) && Runs(s, events) && NoGap(s, events)
    ensures Conserved(After(s, events))
  {
    InvHolds(s, events);
  }

  // ---- Each gap is one ----

  ghost predicate DebtLost(s: State) { s.debt && s.marker.None? && !SomeOwes(s) }

  /** Without any other gap the debt can still be lost from here. */
  ghost predicate CanLose(s: State, t: seq<Event>) { Runs(s, t) && NoGap(s, t) && DebtLost(After(s, t)) }

  ghost predicate Unsafe(s: State) { AtStake(s) && !SomeOwes(s) && Exposed(s) }

  /** The gaps are exactly the steps after which a debt can be lost without another gap: nothing narrower would
      do, and nothing wider is needed. */
  lemma AGapIsWhatCanLoseTheDebt(s: State, e: Event)
    requires Inv(s) && Enabled(s, e)
    ensures Gap(s, e) <==> exists t :: CanLose(Next(s, e), t)
  {
    if Gap(s, e) {
      AGapIsUnsafe(s, e);
      var t := ExposedIsLost(Next(s, e));
    } else {
      InvStep(s, e);
      forall t | CanLose(Next(s, e), t) ensures false { InvHolds(Next(s, e), t); }
    }
  }

  lemma AGapIsUnsafe(s: State, e: Event)
    requires Inv(s) && Enabled(s, e) && Gap(s, e)
    ensures Unsafe(Next(s, e))
  {
    var s' := Next(s, e);
    forall j: nat ensures !Owes(At(s', j)) { assert Owes(At(s, j)) ==> OnlyOwer(s, j) || SomeOwes(s); }
    if SomeMarkedFlight(s) {
      var i: nat :| MarkedFlight(s, i);
      assert e.run != i || !e.Lands? ==> MarkedFlight(s', i);
    }
    assert e.Mark? && e.run in s.flying ==> MarkedFlight(s', e.run);
    if e.Warmed? || e.StatusSees? {
      assert OnTheWay(s', e.run);
    } else if s.marker.Some? || e.Mark? {
      var j: nat :| if e.Mark? then YetToClear(s, j) else OnTheWay(s, j);
      assert OnTheWay(s', j);
    }
  }

  lemma OneStepOn(s: State, e: Event, t: seq<Event>)
    requires Enabled(s, e) && !Gap(s, e) && CanLose(Next(s, e), t)
    ensures CanLose(s, [e] + t)
  {
    Ahead(s, e, t);
    assert ([e] + t)[1..] == t;
  }

  lemma ExposedIsLost(s: State) returns (t: seq<Event>)
    requires Unsafe(s)
    ensures CanLose(s, t)
  {
    if s.marker.None? {
      t := UnmarkedIsLost(s);
    } else {
      var j: nat :| OnTheWay(s, j);
      t := ReadersLoseIt(s, j);
    }
  }

  lemma UnmarkedIsLost(s: State) returns (t: seq<Event>)
    requires AtStake(s) && !SomeOwes(s) && s.marker.None?
    ensures CanLose(s, t)
  {
    t := [];
    if !s.debt {
      var i: nat :| MarkedFlight(s, i);
      var s1 := Next(s, Loads);
      assert MarkedFlight(s1, i);
      forall j: nat ensures !Owes(At(s1, j)) && !Owes(At(Next(s1, Lands(i)), j)) { assert !Owes(At(s, j)); }
      OneStepOn(s1, Lands(i), []);
      OneStepOn(s, Loads, [Lands(i)] + []);
      t := [Loads] + ([Lands(i)] + []);
    }
  }

  /** A clear, or a step towards it, leaves at stake what was. */
  lemma StillAtStake(s: State, e: Event)
    requires Enabled(s, e) && AtStake(s) && !SomeOwes(s)
    requires e.Lose? || e.StatusChecks? || e.StatusAgain? || e.StatusClear? || e.Clear?
    ensures !Gap(s, e) && AtStake(Next(s, e)) && !SomeOwes(Next(s, e))
  {
    forall j: nat ensures !Owes(At(Next(s, e), j)) { assert !Owes(At(s, j)); }
    if SomeMarkedFlight(s) {
      var i: nat :| MarkedFlight(s, i);
      assert MarkedFlight(Next(s, e), i);
    }
  }

  /** How far reader j is from the marker. */
  function Steps(s: State, j: nat): nat {
    match At(s, j)
    case StatusSaw(_) => if s.holder.Some? then 3 else 2
    case StatusFree(_, _) => 1
    case _ => 0
  }

  lemma ReadersLoseIt(s: State, j: nat) returns (t: seq<Event>)
    requires AtStake(s) && !SomeOwes(s) && s.marker.Some? && OnTheWay(s, j)
    ensures CanLose(s, t)
    decreases Steps(s, j)
  {
    var e :=
      match At(s, j)
      case SawLoaded => Clear(j)
      case StatusClears => StatusClear(j)
      case StatusFree(_, _) => StatusAgain(j)
      case _ => if s.holder.Some? then Lose else StatusChecks(j);
    StillAtStake(s, e);
    if e.Clear? || e.StatusClear? {
      t := UnmarkedIsLost(Next(s, e));
    } else {
      t := ReadersLoseIt(Next(s, e), j);
    }
    OneStepOn(s, e, t);
    t := [e] + t;
  }

  /** The gap everybody sees: a run that dies, gives its unload up or cannot write, as the only one that owes the
      mark of a debt no marker holds. A failed mark is reported, not retried. */
  lemma AnUnwrittenMarkLosesTheDebt(s: State, e: Event, i: nat)
    requires e == MarkFails(i) || e == Dies(i) || e == GivesUp(i)
    requires Enabled(s, e) && s.debt && s.marker.None? && OnlyOwer(s, i)
    ensures Gap(s, e) && DebtLost(Next(s, e))
  {
    forall j: nat ensures !Owes(At(Next(s, e), j)) { assert j != i ==> !Owes(At(s, j)); }
  }

  /** A request that lands after its run died or gave up on it is owed by nobody. */
  lemma AnAbandonedUnloadLosesTheDebt(s: State, i: nat)
    requires i in s.flying && !s.flying[i] && s.loaded && s.marker.None? && !SomeOwes(s)
    ensures Gap(s, Lands(i)) && DebtLost(Next(s, Lands(i)))
  {
    forall j: nat ensures !Owes(At(Next(s, Lands(i)), j)) { assert !Owes(At(s, j)); }
  }

  /** The residency is read before the requests go out: a seat that somebody loads in between, or that sits on
      other cards and goes with the total route, is taken down and owed by nobody. */
  lemma AnUnreadSeatIsLost(s: State, i: nat)
    requires At(s, i) == Unloading(false) && s.loaded && s.marker.None? && !SomeOwes(s)
    ensures Gap(s, UnloadLands(i)) && DebtLost(Next(s, UnloadLands(i)))
  {
    forall j: nat ensures !Owes(At(Next(s, UnloadLands(i)), j)) { assert !Owes(At(s, j)); }
  }

  /** The mark of the only run that owes one goes with the old marker, if somebody who saw the seat loaded before
      has yet to clear it. */
  lemma AnOvertakenMarkIsLost(s: State, i: nat, j: nat)
    requires s.debt && At(s, i) == OwesMark && OnlyOwer(s, i) && YetToClear(s, j)
    ensures var t := [Mark(i), if At(s, j) == SawLoaded then Clear(j) else StatusClear(j)];
            Gap(s, t[0]) && Runs(s, t) && DebtLost(After(s, t))
  {
    var clear := if At(s, j) == SawLoaded then Clear(j) else StatusClear(j);
    var s1 := Next(s, Mark(i));
    var s2 := Next(s1, clear);
    assert At(s1, j) == At(s, j);
    Ahead(s1, clear, []);
    Ahead(s, Mark(i), [clear]);
    forall k: nat ensures !Owes(At(s2, k)) { assert k != i ==> !Owes(At(s, k)); }
  }

  /** A cancelled unload that lands after its mark was paid is owed by nobody. */
  lemma AMarkPaidTooEarlyIsLost(s: State, i: nat, k: nat)
    requires MarkedFlight(s, i) && !SomeOwes(s) && At(s, k) == Warming && s.loaded
    ensures var t := [Warmed(k), Clear(k), Lands(i)];
            Gap(s, t[0]) && Runs(s, t) && DebtLost(After(s, t))
  {
    var s1 := Next(s, Warmed(k));
    var s2 := Next(s1, Clear(k));
    var s3 := Next(s2, Lands(i));
    Ahead(s2, Lands(i), []);
    Ahead(s1, Clear(k), [Lands(i)]);
    Ahead(s, Warmed(k), [Clear(k), Lands(i)]);
    forall j: nat ensures !Owes(At(s3, j)) { assert !Owes(At(s, j)); }
  }

  // ---- ... and each is reached ----

  const FRESH := State(true, false, map[], None, None, map[], 0)

  lemma AnOwedDebtIsReached()
    ensures var t := [Acquire(0), Unload(0, true), UnloadLands(0)];
            Runs(FRESH, t) && After(FRESH, t).debt && After(FRESH, t).marker.None? && OnlyOwer(After(FRESH, t), 0)
    ensures var t := [Acquire(0), Unload(0, true), UnloadLands(0), Unloaded(0)];
            && Runs(FRESH, t) && After(FRESH, t).debt && After(FRESH, t).marker.None?
            && OnlyOwer(After(FRESH, t), 0) && At(After(FRESH, t), 0) == OwesMark
  {}

  /** Somebody loads the seat between a run's reading and its request. */
  lemma ALoadAfterTheReadingReachesIt()
    ensures var t, s := [Acquire(0), Unload(0, false), Loads], FRESH.(loaded := false);
            && Runs(s, t) && At(After(s, t), 0) == Unloading(false) && After(s, t).loaded && After(s, t).marker.None?
            && !SomeOwes(After(s, t))
  {}

  /** The only run that owes the debt is past its unload, and run j has yet to clear. */
  ghost predicate Overtaken(s: State, i: nat, j: nat) {
    s.debt && At(s, i) == OwesMark && OnlyOwer(s, i) && YetToClear(s, j)
  }

  /** Where a lease has taken the seat down while a warm that saw it loaded has yet to clear: run 0's lease was
      lost ... */
  lemma ALostLeaseReachesIt()
    ensures var t := LOST + TAKE_DOWN; Runs(FRESH, t) && Overtaken(After(FRESH, t), 1, 0)
  {
    assert Runs(FRESH, LOST) && After(FRESH, LOST) == State(true, false, map[], None, None, map[0 := SawLoaded], 0);
    TakesDown(After(FRESH, LOST));
    Joined(FRESH, LOST, TAKE_DOWN);
  }

  /** ... or run 0 is an operator's warm of a free card: no lease is lost, no write fails, no status command runs. */
  lemma AnOperatorsWarmReachesIt()
    ensures var t := WARMED + TAKE_DOWN; Runs(FRESH, t) && Overtaken(After(FRESH, t), 1, 0)
  {
    assert Runs(FRESH, WARMED) && After(FRESH, WARMED) == State(true, false, map[], None, None, map[0 := SawLoaded], 0);
    TakesDown(After(FRESH, WARMED));
    Joined(FRESH, WARMED, TAKE_DOWN);
  }

  const LOST := [Acquire(0), Warm(0), Warmed(0), Lose]
  const WARMED := [Warm(0), Warmed(0)]
  const OWED := State(true, false, map[], Some(0), None, map[], 1000)
  const LOOKED := State(true, false, map[], Some(0), None, map[0 := StatusFree(1000, 0)], 1000)
  const STATUS_LOOKS := [StatusBegins(0), StatusSees(0), StatusChecks(0)]

  lemma StatusLooks()
    ensures Runs(OWED, STATUS_LOOKS) && After(OWED, STATUS_LOOKS) == LOOKED
  {}

  /** ... or it is a status command between its second look at the marker and its removal. */
  lemma AStatusCommandReachesIt()
    ensures var t := STATUS_LOOKS + ([StatusAgain(0)] + TAKE_DOWN);
            Start(OWED) && Runs(OWED, t) && Overtaken(After(OWED, t), 1, 0)
  {
    StatusLooks();
    var clears := Next(LOOKED, StatusAgain(0));
    TakesDown(clears);
    Ahead(LOOKED, StatusAgain(0), TAKE_DOWN);
    Joined(OWED, STATUS_LOOKS, [StatusAgain(0)] + TAKE_DOWN);
  }

  const TAKE_DOWN := [Acquire(1)] + UNLOADS
  const UNLOADS := [Unload(1, true), UnloadLands(1), Unloaded(1)]

  lemma TakesDown(s: State)
    requires s.holder.None? && s.loaded && YetToClear(s, 0) && 1 !in s.flying
    requires forall j: nat :: 0 < j ==> At(s, j) == Idle
    ensures Runs(s, TAKE_DOWN) && Overtaken(After(s, TAKE_DOWN), 1, 0)
  {
    var s1 := Next(s, Acquire(1));
    Unloads(s1);
    Ahead(s, Acquire(1), UNLOADS);
    var end := After(s1, UNLOADS);
    forall j: nat | j != 1 ensures At(end, j) == At(s, j) && !Owes(At(s, j)) {}
  }

  lemma Unloads(s: State)
    requires s.loaded && At(s, 1) == Idle && 1 !in s.flying
    ensures Runs(s, UNLOADS) && After(s, UNLOADS) == s.(loaded := false, debt := true, pcs := s.pcs[1 := OwesMark])
  {
    var s1 := Go(s, 1, Unloading(true));
    var s2 := TakeDown(s1);
    Ahead(s2, Unloaded(1), []);
    Ahead(s1, UnloadLands(1), [Unloaded(1)]);
    Ahead(s, Unload(1, true), [UnloadLands(1), Unloaded(1)]);
    assert s2.pcs[1 := OwesMark] == s.pcs[1 := OwesMark];
  }

  lemma ADeathDuringTheUnloadReachesIt()
    ensures var t := [Acquire(0), Unload(0, true), Dies(0)];
            && Runs(FRESH, t) && After(FRESH, t).flying == map[0 := false] && After(FRESH, t).loaded
            && !SomeOwes(After(FRESH, t))
  {}

  lemma ACancelledUnloadReachesIt()
    ensures var t := [Acquire(0), Unload(0, true), Cancel(0), Mark(0), Warm(9)];
            && Runs(FRESH, t) && MarkedFlight(After(FRESH, t), 0) && At(After(FRESH, t), 9) == Warming
            && After(FRESH, t).loaded && !SomeOwes(After(FRESH, t))
  {}

  lemma Ahead(s: State, e: Event, rest: seq<Event>)
    requires Enabled(s, e) && Runs(Next(s, e), rest)
    ensures Runs(s, [e] + rest) && After(s, [e] + rest) == After(Next(s, e), rest)
  {
    assert ([e] + rest)[1..] == rest;
  }

  /** Run after run. */
  lemma {:induction false} Joined(s: State, t1: seq<Event>, t2: seq<Event>)
    requires Runs(s, t1) && Runs(After(s, t1), t2)
    ensures Runs(s, t1 + t2) && After(s, t1 + t2) == After(After(s, t1), t2)
    decreases |t1|
  {
    if t1 == [] {
      assert t1 + t2 == t2;
    } else {
      assert (t1 + t2)[1..] == t1[1..] + t2;
      Joined(Next(s, t1[0]), t1[1..], t2);
    }
  }

  // ---- What makes a debt, and what pays it ----

  /** A cold seat leaves no marker: with nobody who owes a mark and no unload of a seat that read resident, none
      appears, gaps or not. */
  lemma {:induction false} AColdSeatOwesNothing(s: State, events: seq<Event>)
    requires !SomeOwes(s) && s.marker.None? && Runs(s, events)
    requires forall e :: e in events ==> !(e.Unload? && e.resident)
    ensures After(s, events).marker.None? && !SomeOwes(After(s, events))
    decreases |events|
  {
    if events != [] {
      forall i: nat ensures !Owes(At(Next(s, events[0]), i)) { assert !Owes(At(s, i)); }
      if events[0].Mark? { assert !Owes(At(s, events[0].run)); }
      AColdSeatOwesNothing(Next(s, events[0]), events[1..]);
    }
  }

  /** Nobody has already seen the seat loaded. */
  ghost predicate NoneSaw(s: State) {
    forall i: nat :: HasNotSeen(At(s, i))
  }

  predicate HasNotSeen(pc: Pc) { pc.Idle? || pc.Unloading? || pc.OwesMark? || pc.Warming? || pc.StatusReads? }

  /** Only a seat that was seen loaded pays: a warm that was skipped, refused, lost or failed, and any number
      of status commands that saw no loaded seat, leave the marker there. */
  lemma {:induction false} OnlyASeenSeatPays(s: State, events: seq<Event>)
    requires NoneSaw(s) && s.marker.Some? && Runs(s, events)
    requires forall e :: e in events ==> !e.Warmed? && !e.StatusSees?
    ensures After(s, events).marker.Some?
    decreases |events|
  {
    if events != [] {
      var e, s' := events[0], Next(s, events[0]);
      assert e in events;
      forall i: nat ensures HasNotSeen(At(s', i)) {
        assert HasNotSeen(At(s, i));
      }
      OnlyASeenSeatPays(s', events[1..]);
    }
  }
}
