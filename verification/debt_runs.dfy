/** The events of the debt are what the unload and the warm-back do. */
module DebtRuns {
  import opened Common
  import opened Debt
  import M = Maintain
  import W = Warm

  // ---- The unload ----

  /** A request that takes the agent seat down, if the model server grants it: its own, or the total route. */
  predicate AsksSeat(p: M.Plan, r: M.Request) { r.UnloadEverything? || r.model == p.agent }

  /** Some request of the clearing that takes the seat down was granted. */
  predicate TakesSeat(p: M.Plan, log: seq<M.Request>) { exists r :: r in log && r.ok && AsksSeat(p, r) }

  /** What a clearing's requests do to the seat. One that failed may land all the same. */
  function SeatEvents(i: nat, p: M.Plan, log: seq<M.Request>): seq<Event> {
    if log == [] then []
    else if !AsksSeat(p, log[0]) then SeatEvents(i, p, log[1..])
    else [if log[0].ok then UnloadLands(i) else TimesOut(i)] + SeatEvents(i, p, log[1..])
  }

  /** One unload under a lease, on the seat's cards or not: what it read, its requests, and how it ended. */
  function UnloadEvents(i: nat, p: M.Plan, w: M.World): seq<Event> {
    var requests := SeatEvents(i, p, M.ClearLog(w.answer, p)) + [HowItEnded(i, p, w)];
    [Unload(i, M.WasResident(p, w.seat))] + requests
  }

  function HowItEnded(i: nat, p: M.Plan, w: M.World): Event {
    if !M.SeatRefuses(p, w) then Unloaded(i) else if w.cancelled then Cancel(i) else GivesUp(i)
  }

  lemma {:induction false} SeatEventsRun(i: nat, p: M.Plan, log: seq<M.Request>, s: State)
    requires At(s, i).Unloading?
    ensures Runs(s, SeatEvents(i, p, log))
    ensures var s' := After(s, SeatEvents(i, p, log));
            && s'.pcs == s.pcs && s'.marker == s.marker
            && (s'.debt <==> s.debt || (s.loaded && TakesSeat(p, log)))
            && (s'.loaded <==> s.loaded && !TakesSeat(p, log))
    decreases |log|
  {
    if log != [] {
      var rest := log[1..];
      assert TakesSeat(p, log) <==> (log[0].ok && AsksSeat(p, log[0])) || TakesSeat(p, rest);
      if AsksSeat(p, log[0]) {
        var e := if log[0].ok then UnloadLands(i) else TimesOut(i);
        SeatEventsRun(i, p, rest, Next(s, e));
        Ahead(s, e, SeatEvents(i, p, rest));
      } else {
        SeatEventsRun(i, p, rest, s);
      }
    }
  }

  /** An unload step is those events, whatever the box was like: a seat that was up is a debt iff a request for it
      was granted, and the step calls for a mark exactly when its run then owes one. */
  method UnloadIsARun(i: nat, p: M.Plan, w: M.World, ghost s: State) returns (log: seq<M.Request>, marked: bool)
    requires At(s, i) == Idle && i !in s.flying
    ensures log == M.ClearLog(w.answer, p)
    ensures Runs(s, UnloadEvents(i, p, w))
    ensures marked <==> At(After(s, UnloadEvents(i, p, w)), i) == OwesMark
    ensures After(s, UnloadEvents(i, p, w)).debt <==> s.debt || (s.loaded && TakesSeat(p, log))
  {
    var err, out;
    err, log, marked, out := M.UnloadStep(p, w);
    UnloadEventsRun(i, p, w, s);
  }

  lemma UnloadEventsRun(i: nat, p: M.Plan, w: M.World, s: State)
    requires At(s, i) == Idle && i !in s.flying
    ensures Runs(s, UnloadEvents(i, p, w))
    ensures var s', log := After(s, UnloadEvents(i, p, w)), M.ClearLog(w.answer, p);
            && s'.marker == s.marker && (s'.debt <==> s.debt || (s.loaded && TakesSeat(p, log)))
            && s'.pcs == s.pcs[i := if Marks(p, w) then OwesMark else Idle]
  {
    StepEventsRun(i, p, M.ClearLog(w.answer, p), M.WasResident(p, w.seat), HowItEnded(i, p, w), s);
  }

  lemma StepEventsRun(i: nat, p: M.Plan, log: seq<M.Request>, resident: bool, end: Event, s: State)
    requires At(s, i) == Idle && i !in s.flying && end in {Unloaded(i), Cancel(i), GivesUp(i)}
    ensures var t := [Unload(i, resident)] + (SeatEvents(i, p, log) + [end]);
            && Runs(s, t) && After(s, t).marker == s.marker
            && (After(s, t).debt <==> s.debt || (s.loaded && TakesSeat(p, log)))
            && After(s, t).pcs == s.pcs[i := if resident && !end.GivesUp? then OwesMark else Idle]
  {
    var s1 := Go(s, i, Unloading(resident));
    SeatEventsRun(i, p, log, s1);
    Ends(i, end, After(s1, SeatEvents(i, p, log)));
    Joined(s1, SeatEvents(i, p, log), [end]);
    Ahead(s, Unload(i, resident), SeatEvents(i, p, log) + [end]);
  }

  lemma Ends(i: nat, end: Event, s: State)
    requires At(s, i).Unloading? && end in {Unloaded(i), Cancel(i), GivesUp(i)}
    ensures Runs(s, [end]) && After(s, [end]) == Next(s, end)
    ensures Next(s, end).pcs == s.pcs[i := if At(s, i).resident && !end.GivesUp? then OwesMark else Idle]
    ensures Next(s, end).marker == s.marker && Next(s, end).debt == s.debt
  {
    Ahead(s, end, []);
  }

  /** The seat was read as resident and its unload finished, or was only cancelled. */
  predicate Marks(p: M.Plan, w: M.World) {
    M.WasResident(p, w.seat) && (!M.SeatRefuses(p, w) || w.cancelled)
  }

  /** On a box where nothing is owed, one unload with nobody beside it loses a debt exactly when it takes down a
      seat that is up and marks nothing. */
  lemma AnUnloadAloneLosesTheDebtIff(i: nat, p: M.Plan, w: M.World, s: State)
    requires At(s, i) == Idle && i !in s.flying && !s.debt && s.marker.None? && !SomeOwes(s)
    ensures Runs(s, UnloadEvents(i, p, w))
    ensures DebtLost(After(s, UnloadEvents(i, p, w))) <==>
            s.loaded && TakesSeat(p, M.ClearLog(w.answer, p)) && !Marks(p, w)
  {
    UnloadEventsRun(i, p, w, s);
    var s' := After(s, UnloadEvents(i, p, w));
    assert At(s', i) == if Marks(p, w) then OwesMark else Idle;
    forall j: nat | j != i ensures !Owes(At(s', j)) { assert At(s', j) == At(s, j) && !Owes(At(s, j)); }
  }

  /** A reading that is true of the seat is enough: an unload alone on the seat's own cards never loses a debt, however
      its requests end. One that could not be read, or is not clear, is true of every seat. */
  lemma ATrueReadingLosesNothing(i: nat, p: M.Plan, w: M.World, s: State)
    requires At(s, i) == Idle && i !in s.flying && !s.debt && s.marker.None? && !SomeOwes(s)
    requires !p.scope.bounded || p.scope.on(p.agent)
    requires w.seat.Read? && !w.seat.ambiguous ==> (s.loaded <==> w.seat.loaded && !w.seat.stopping)
    ensures Runs(s, UnloadEvents(i, p, w)) && !DebtLost(After(s, UnloadEvents(i, p, w)))
    // ... and a granted request for a loaded seat leaves its run owing the mark
    ensures s.loaded && (w.answer(0) || (M.Protected(p) == [] && w.answer(1))) ==>
              At(After(s, UnloadEvents(i, p, w)), i) == OwesMark
  {
    AnUnloadAloneLosesTheDebtIff(i, p, w, s);
    UnloadEventsRun(i, p, w, s);
    M.WhenTheSeatStays(p, w);
    if M.SeatRefuses(p, w) {
      assert !TakesSeat(p, M.ClearLog(w.answer, p));
    }
  }

  /** A lease whose cards hold the seat takes it down exactly when its own unload, or the total route where nothing is
      protected, is granted. */
  lemma ALeaseOnItsCardsTakesTheSeatIff(p: M.Plan, w: M.World)
    requires !p.scope.bounded || p.scope.on(p.agent)
    ensures TakesSeat(p, M.ClearLog(w.answer, p)) <==> w.answer(0) || (M.Protected(p) == [] && w.answer(1))
  {
    M.WhenTheSeatStays(p, w);
    var seat := M.UnloadLog(w.answer, [], p.agent, M.Protected(p));
    if !M.SeatRefuses(p, w) {
      M.OthersLogKeeps(w.answer, seat, M.Leaving(p), M.Protected(p));
      assert seat[|seat| - 1] in M.ClearLog(w.answer, p);
    }
  }

  /** A lease whose cards do not hold the seat can take it down exactly when some other model is to go and nothing is
      on the protect list; it reads no residency then, and marks nothing. */
  lemma ALeaseOnOtherCardsTakesTheSeatIff(p: M.Plan)
    requires !M.Touches(p.scope, p.agent)
    ensures (exists answer: M.Answers :: TakesSeat(p, M.ClearLog(answer, p))) <==>
            M.Leaving(p) != [] && M.Protected(p) == []
    ensures forall w: M.World :: !Marks(p, w)
  {
    forall answer: M.Answers | TakesSeat(p, M.ClearLog(answer, p))
      ensures M.Leaving(p) != [] && M.Protected(p) == []
    {
      var r :| r in M.ClearLog(answer, p) && r.ok && AsksSeat(p, r);
      M.OthersLogIs(answer, [], M.Leaving(p), M.Protected(p), r);
      TheSeatIsNotAmongTheOthers(p);
    }
    if M.Leaving(p) != [] && M.Protected(p) == [] {
      TheTotalRouteTakesTheSeat(p, k => k == 1);
    }
  }

  /** ... as soon as that model does not go by name and the total route is granted. */
  lemma TheTotalRouteTakesTheSeat(p: M.Plan, answer: M.Answers)
    requires !M.Touches(p.scope, p.agent) && M.Leaving(p) != [] && M.Protected(p) == []
    requires !answer(0) && answer(1)
    ensures TakesSeat(p, M.ClearLog(answer, p))
  {
    var m := M.Leaving(p)[0];
    var first := M.UnloadLog(answer, [], m, []);
    assert first == [M.Unload(m, false), M.UnloadEverything(m, true)];
    M.OthersLogKeeps(answer, first, M.Leaving(p)[1..], []);
    assert first[1] in M.ClearLog(answer, p);
  }

  /** The loss is real: on two cards, a lease of the one without the seat ends its unload as a success and leaves
      the other card's seat down, unmarked. */
  lemma ASeatOnAnotherCardIsLost(i: nat, w: M.World, s: State)
    requires !w.answer(0) && w.answer(1)
    requires At(s, i) == Idle && i !in s.flying && s.loaded && !s.debt && s.marker.None? && !SomeOwes(s)
    ensures var p := M.TwoCards([]);
            && !M.SeatRefuses(p, w) && Runs(s, UnloadEvents(i, p, w))
            && DebtLost(After(s, UnloadEvents(i, p, w)))
  {
    var p := M.TwoCards([]);
    M.ASeatOnAnotherCardIsExposed([]);
    TheTotalRouteTakesTheSeat(p, w.answer);
    AnUnloadAloneLosesTheDebtIff(i, p, w, s);
  }

  lemma TheSeatIsNotAmongTheOthers(p: M.Plan)
    ensures p.agent !in M.Leaving(p)
  {
    if p.rows.Some? {
      M.OthersAre(p.rows.value, p.agent, p.stack, p.agent);
      M.WhereAre(M.Others(p.rows.value, p.agent, p.stack), (m: string) => M.Touches(p.scope, m), p.agent);
    }
  }

  // ---- The warm-back ----

  /** One warm-back that sent its request: the seat came up, was seen, and the marker is cleared; or it is left, as
      how the warm ended decides. */
  function WarmEvents(i: nat, debt: W.Debt): seq<Event> {
    [Warm(i)] + if debt == W.LeftAlone then [Skips(i)] else [Loads, Warmed(i), Clear(i)]
  }

  /** A warm-back is those events, whatever the box was like; one that sent nothing, none. */
  method WarmBackIsARun(i: nat, w: W.BackWorld, onlyIfOwed: bool, ghost s: State) returns (debt: W.Debt, sends: nat)
    requires W.Timed(w.warm) && forall k: nat :: w.warm.allowed(k) == !W.Refuses(w.guard(k))
    requires At(s, i) == Idle
    ensures sends == 0 ==> debt == W.LeftAlone
    ensures 0 < sends ==> Runs(s, WarmEvents(i, debt))
    ensures 0 < sends ==> After(s, WarmEvents(i, debt)).marker == if debt == W.LeftAlone then s.marker else None
    ensures debt != W.LeftAlone ==> !After(s, WarmEvents(i, debt)).debt
    // what is cleared was seen: an answer, or a reading of the loaded seat
    ensures debt != W.LeftAlone ==> W.Paid(w, sends - 1)
  {
    debt, sends := W.WarmBackGuarded(w, onlyIfOwed);
    WarmEventsRun(i, debt, s);
    if debt != W.LeftAlone {
      ghost var result :| W.Comes(w.warm, sends - 1, Some(result)) && debt == W.Pays(w, result);
      W.OnlyASeenLoadPays(w, sends - 1, result);
    }
  }

  lemma WarmEventsRun(i: nat, debt: W.Debt, s: State)
    requires At(s, i) == Idle
    ensures Runs(s, WarmEvents(i, debt))
    ensures After(s, WarmEvents(i, debt)).marker == if debt == W.LeftAlone then s.marker else None
    ensures After(s, WarmEvents(i, debt)).debt <==> s.debt && debt == W.LeftAlone
  {
    var s1 := Next(s, Warm(i));
    if debt == W.LeftAlone {
      Ahead(s1, Skips(i), []);
      Ahead(s, Warm(i), [Skips(i)]);
    } else {
      var s2 := Next(s1, Loads);
      Ahead(Next(s2, Warmed(i)), Clear(i), []);
      Ahead(s2, Warmed(i), [Clear(i)]);
      Ahead(s1, Loads, [Warmed(i), Clear(i)]);
      Ahead(s, Warm(i), [Loads, Warmed(i), Clear(i)]);
    }
  }
}
