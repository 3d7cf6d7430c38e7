/** Clearing the cards of a lease: what --drain and --unload-seat do to the seat and to everything else
    the model server holds. */
module Maintain {
  import opened Common
  import opened Text
  import D = Drain
  import W = Warm

  // ---- What may go, and what must stay ----

  /** One row of the model server's list of running models. */
  datatype Row = Row(model: string, state: string)

  predicate Gone(row: Row) { Lower(row.state) in {"stopped", "shutdown"} }

  /** The names the configured memory stack protects. */
  predicate InStack(stack: seq<string>, model: string) {
    exists m :: m in stack && Lower(TrimSpace(m)) != "" && Lower(TrimSpace(m)) == Lower(model)
  }

  /** Which models sit on the lease's cards: all of them for a whole-node lease; for a bounded one every
      model not positively placed on other cards. */
  datatype Scope = Scope(bounded: bool, on: string -> bool)

  predicate Touches(s: Scope, model: string) { !s.bounded || s.on(model) }

  /** The running models that are neither leaving, nor the agent seat, nor of the stack. */
  function Others(rows: seq<Row>, agent: string, stack: seq<string>): (r: seq<string>)
  {
    if rows == [] then []
    else
      var rest := Others(rows[1..], agent, stack);
      if EqualFold(rows[0].model, agent) || Gone(rows[0]) || InStack(stack, rows[0].model) then rest
      else [rows[0].model] + rest
  }

  function KeptModels(rows: seq<Row>, agent: string, stack: seq<string>): seq<string> {
    if rows == [] then []
    else
      var rest := KeptModels(rows[1..], agent, stack);
      if !EqualFold(rows[0].model, agent) && !Gone(rows[0]) && InStack(stack, rows[0].model)
      then [rows[0].model] + rest else rest
  }

  function Where(models: seq<string>, keep: string -> bool): seq<string> {
    if models == [] then []
    else if keep(models[0]) then [models[0]] + Where(models[1..], keep)
    else Where(models[1..], keep)
  }

  /** What one clearing is decided from. rows is None when the list cannot be read. */
  datatype Plan = Plan(agent: string, stack: seq<string>, scope: Scope, rows: Option<seq<Row>>)

  function Leaving(p: Plan): seq<string> {
    if p.rows.None? then []
    else Where(Others(p.rows.value, p.agent, p.stack), (m: string) => Touches(p.scope, m))
  }

  function LeftAlone(p: Plan): seq<string> {
    if p.rows.None? then []
    else Where(Others(p.rows.value, p.agent, p.stack), (m: string) => !Touches(p.scope, m))
  }

  /** The models the total unload route would take down with the one it is asked for. */
  function Protected(p: Plan): seq<string> {
    if p.rows.None? then p.stack
    else KeptModels(p.rows.value, p.agent, p.stack) + LeftAlone(p)
  }

  // ---- The requests ----

  /** One request to the model server. UnloadEverything is the legacy route: it ignores the model it names. */
  datatype Request = Unload(model: string, ok: bool) | UnloadEverything(asked: string, ok: bool)

  /** answer(k) is whether the k-th request of the clearing succeeds. */
  type Answers = nat -> bool

  function UnloadLog(answer: Answers, log: seq<Request>, model: string, protect: seq<string>): seq<Request> {
    var first := log + [Unload(model, answer(|log|))];
    if answer(|log|) || protect != [] then first
    else first + [UnloadEverything(model, answer(|first|))]
  }

  /** Free one model: the per-model route first, the total one only when nothing must stay. */
  method UnloadSeat(answer: Answers, log: seq<Request>, model: string, protect: seq<string>)
    returns (ok: bool, log': seq<Request>)
    ensures log' == UnloadLog(answer, log, model, protect)
    ensures ok <==> log'[|log'| - 1].ok
    ensures ok <==> answer(|log|) || (protect == [] && answer(|log| + 1))
  {
    ok := answer(|log|);
    log' := log + [Unload(model, ok)];
    if ok || |protect| > 0 {
      return;
    }
    ok := answer(|log'|);
    log' := log' + [UnloadEverything(model, ok)];
  }

  function OthersLog(answer: Answers, log: seq<Request>, models: seq<string>, protect: seq<string>): seq<Request>
    decreases |models|
  {
    if models == [] then log
    else OthersLog(answer, UnloadLog(answer, log, models[0], protect), models[1..], protect)
  }

  /** How many of the models the last request for each did not free. */
  function StillThere(answer: Answers, log: seq<Request>, models: seq<string>, protect: seq<string>): nat
    decreases |models|
  {
    if models == [] then 0
    else
      var log' := UnloadLog(answer, log, models[0], protect);
      (if log'[|log'| - 1].ok then 0 else 1) + StillThere(answer, log', models[1..], protect)
  }

  /** Every request one clearing makes, in order: the seat if it sits on the lease's cards, then (unless
      that failed) every other model that is leaving. */
  function ClearLog(answer: Answers, p: Plan): seq<Request> {
    if !Touches(p.scope, p.agent) then OthersLog(answer, [], Leaving(p), Protected(p))
    else
      var log := UnloadLog(answer, [], p.agent, Protected(p));
      if log[|log| - 1].ok then OthersLog(answer, log, Leaving(p), Protected(p)) else log
  }

  // ---- What a clearing can take down ----

  predicate TakesDown(p: Plan, r: Request, row: Row) {
    match r
    case Unload(model, _) => row.model == model || (model == p.agent && EqualFold(row.model, p.agent))
    case UnloadEverything(_, _) => true
  }

  /** A running model of the memory stack, or one the lease's scope leaves alone. */
  predicate MustStay(p: Plan, row: Row) {
    p.rows.Some? && row in p.rows.value && !Gone(row) && (InStack(p.stack, row.model) || !Touches(p.scope, row.model))
  }

  /** No answer of the model server can make this clearing take down a model that must stay. */
  ghost predicate Spares(p: Plan) {
    forall answer: Answers, r: Request, row: Row ::
      r in ClearLog(answer, p) && MustStay(p, row) ==> !TakesDown(p, r, row)
  }

  /** The one model the protect list does not know of is the agent seat itself. */
  predicate SeatIsExposed(p: Plan) {
    && p.rows.Some?
    && (exists row :: row in p.rows.value && MustStay(p, row) && EqualFold(row.model, p.agent))
    && (if Touches(p.scope, p.agent) then true else Leaving(p) != [] && Protected(p) == [])
  }

  lemma {:induction false} OthersAre(rows: seq<Row>, agent: string, stack: seq<string>, m: string)
    ensures m in Others(rows, agent, stack) <==>
            exists row :: row in rows && row.model == m && !EqualFold(m, agent) && !Gone(row) && !InStack(stack, m)
  {
    if rows != [] {
      OthersAre(rows[1..], agent, stack, m);
      assert forall row :: row in rows <==> row == rows[0] || row in rows[1..];
    }
  }

  lemma {:induction false} KeptAre(rows: seq<Row>, agent: string, stack: seq<string>, row: Row)
    requires row in rows && !EqualFold(row.model, agent) && !Gone(row) && InStack(stack, row.model)
    ensures row.model in KeptModels(rows, agent, stack)
  {
    if rows[0] != row {
      KeptAre(rows[1..], agent, stack, row);
    }
  }

  lemma {:induction false} WhereAre(models: seq<string>, keep: string -> bool, m: string)
    ensures m in Where(models, keep) <==> m in models && keep(m)
  {
    if models != [] {
      WhereAre(models[1..], keep, m);
    }
  }

  /** A list is read row by row: what a row adds, it adds wherever it stands. */
  lemma {:induction false} RowByRow(rows: seq<Row>, more: seq<Row>, agent: string, stack: seq<string>)
    ensures Others(rows + more, agent, stack) == Others(rows, agent, stack) + Others(more, agent, stack)
  {
    if rows == [] {
      assert rows + more == more;
    } else {
      assert (rows + more)[1..] == rows[1..] + more;
      RowByRow(rows[1..], more, agent, stack);
    }
  }

  lemma {:induction false} KeptRowByRow(rows: seq<Row>, more: seq<Row>, agent: string, stack: seq<string>)
    ensures KeptModels(rows + more, agent, stack) == KeptModels(rows, agent, stack) + KeptModels(more, agent, stack)
  {
    if rows == [] {
      assert rows + more == more;
    } else {
      assert (rows + more)[1..] == rows[1..] + more;
      KeptRowByRow(rows[1..], more, agent, stack);
    }
  }

  /** One row: a running model that is not the agent seat goes, unless it is of the memory stack, and then it is
      kept. */
  lemma OneRow(row: Row, agent: string, stack: seq<string>)
    ensures var running := Lower(row.state) != "stopped" && Lower(row.state) != "shutdown";
            var ours := exists m :: m in stack && Lower(TrimSpace(m)) != "" && Lower(TrimSpace(m)) == Lower(row.model);
            var other := running && Lower(row.model) != Lower(agent);
            && Others([row], agent, stack) == (if other && !ours then [row.model] else [])
            && KeptModels([row], agent, stack) == (if other && ours then [row.model] else [])
  {
    assert [row][1..] == [];
  }

  /** The models that leave are the others on the lease's cards; what stays beside the stack is the rest of them. */
  lemma WhoLeaves(p: Plan, m: string)
    ensures var others := if p.rows.None? then [] else Others(p.rows.value, p.agent, p.stack);
            && (m in Leaving(p) <==> m in others && (!p.scope.bounded || p.scope.on(m)))
            && (m in LeftAlone(p) <==> m in others && p.scope.bounded && !p.scope.on(m))
            && Protected(p) == if p.rows.None? then p.stack
                               else KeptModels(p.rows.value, p.agent, p.stack) + LeftAlone(p)
  {
    if p.rows.Some? {
      WhereAre(Others(p.rows.value, p.agent, p.stack), (m: string) => Touches(p.scope, m), m);
      WhereAre(Others(p.rows.value, p.agent, p.stack), (m: string) => !Touches(p.scope, m), m);
    }
  }

  /** They are asked for in the order of the list, as often as they are on it. */
  lemma {:induction false} WhereIsInOrder(models: seq<string>, more: seq<string>, keep: string -> bool)
    ensures Where(models + more, keep) == Where(models, keep) + Where(more, keep)
    ensures forall m :: Where([m], keep) == if keep(m) then [m] else []
  {
    forall m ensures Where([m], keep) == if keep(m) then [m] else [] { assert [m][1..] == []; }
    if models == [] {
      assert models + more == more;
    } else {
      assert (models + more)[1..] == models[1..] + more;
      WhereIsInOrder(models[1..], more, keep);
    }
  }

  // ---- What a clearing asks ----

  /** The models a clearing asked for by name, in order. */
  function Named(log: seq<Request>): seq<string> {
    if log == [] then []
    else Named(log[..|log| - 1]) + if log[|log| - 1].Unload? then [log[|log| - 1].model] else []
  }

  /** How many requests were granted. */
  function Granted(log: seq<Request>): nat {
    if log == [] then 0 else Granted(log[..|log| - 1]) + if log[|log| - 1].ok then 1 else 0
  }

  /** Every request was answered as the model server answered the request of its number; the total route was asked for
      right after the same model did not go by name, where nothing had to stay, and always then. */
  ghost predicate AskedInOrder(answer: Answers, log: seq<Request>, protect: seq<string>) {
    forall i: nat :: i < |log| ==> InPlace(answer, log, protect, i)
  }

  predicate InPlace(answer: Answers, log: seq<Request>, protect: seq<string>, i: nat)
    requires i < |log|
  {
    && log[i].ok == answer(i)
    && match log[i]
       case Unload(model, ok) =>
         !ok && protect == [] ==> i + 1 < |log| && log[i + 1].UnloadEverything? && log[i + 1].asked == model
       case UnloadEverything(asked, _) => protect == [] && 0 < i && log[i - 1] == Unload(asked, false)
  }

  lemma UnloadAsksInOrder(answer: Answers, log: seq<Request>, model: string, protect: seq<string>)
    requires AskedInOrder(answer, log, protect)
    ensures AskedInOrder(answer, UnloadLog(answer, log, model, protect), protect)
  {
    var log' := UnloadLog(answer, log, model, protect);
    forall i: nat | i < |log'| ensures InPlace(answer, log', protect, i) {
      if i < |log| { assert InPlace(answer, log, protect, i); }
    }
  }

  lemma OneMoreIsNamed(answer: Answers, log: seq<Request>, model: string, protect: seq<string>)
    ensures var log' := UnloadLog(answer, log, model, protect);
            && Named(log') == Named(log) + [model]
            && Granted(log') == Granted(log) + if log'[|log'| - 1].ok then 1 else 0
  {
    var first := log + [Unload(model, answer(|log|))];
    assert first[..|log|] == log && Named(first) == Named(log) + [model];
    var both := first + [UnloadEverything(model, answer(|first|))];
    assert both[..|first|] == first && Named(both) == Named(first);
  }

  lemma {:induction false} OthersAreAskedInOrder(answer: Answers, log: seq<Request>, models: seq<string>,
                                                 protect: seq<string>)
    requires AskedInOrder(answer, log, protect)
    ensures AskedInOrder(answer, OthersLog(answer, log, models, protect), protect)
    decreases |models|
  {
    if models != [] {
      UnloadAsksInOrder(answer, log, models[0], protect);
      OthersAreAskedInOrder(answer, UnloadLog(answer, log, models[0], protect), models[1..], protect);
    }
  }

  lemma {:induction false} OthersAreNamed(answer: Answers, log: seq<Request>, models: seq<string>, protect: seq<string>)
    ensures var log' := OthersLog(answer, log, models, protect);
            && Named(log') == Named(log) + models
            && Granted(log') + StillThere(answer, log, models, protect) == Granted(log) + |models|
            && StillThere(answer, log, models, protect) <= |models|
    decreases |models|
  {
    if models != [] {
      OneMoreIsNamed(answer, log, models[0], protect);
      OthersAreNamed(answer, UnloadLog(answer, log, models[0], protect), models[1..], protect);
      assert models == [models[0]] + models[1..];
    }
  }

  /** A clearing asks for the seat first, if the lease's cards hold it, and then once for every model that leaves, in
      order; a seat that does not go ends it. */
  lemma AClearingAsksFor(p: Plan, w: World)
    ensures var log := ClearLog(w.answer, p);
            && AskedInOrder(w.answer, log, Protected(p))
            && Named(log) == (if Touches(p.scope, p.agent) then [p.agent] else [])
                             + (if SeatRefuses(p, w) then [] else Leaving(p))
  {
    var seat := SeatPart(p, w);
    SeatIsAskedFirst(p, w);
    OthersAreAskedInOrder(w.answer, seat, Leaving(p), Protected(p));
    OthersAreNamed(w.answer, seat, Leaving(p), Protected(p));
  }

  /** The requests for the seat. */
  function SeatPart(p: Plan, w: World): seq<Request> {
    if Touches(p.scope, p.agent) then UnloadLog(w.answer, [], p.agent, Protected(p)) else []
  }

  lemma SeatIsAskedFirst(p: Plan, w: World)
    ensures AskedInOrder(w.answer, SeatPart(p, w), Protected(p))
    ensures Named(SeatPart(p, w)) == if Touches(p.scope, p.agent) then [p.agent] else []
    ensures !SeatRefuses(p, w) ==> Granted(SeatPart(p, w)) == if Touches(p.scope, p.agent) then 1 else 0
  {
    if Touches(p.scope, p.agent) {
      UnloadAsksInOrder(w.answer, [], p.agent, Protected(p));
      OneMoreIsNamed(w.answer, [], p.agent, Protected(p));
    }
  }

  /** Every model asked for counts as gone with one granted request, or as failed. */
  lemma EveryModelAskedForIsCounted(p: Plan, w: World)
    requires !SeatRefuses(p, w)
    ensures OutcomeOf(p, w).others + OutcomeOf(p, w).failed == |Leaving(p)|
    ensures OutcomeOf(p, w).others == Granted(ClearLog(w.answer, p)) - if Touches(p.scope, p.agent) then 1 else 0
  {
    SeatIsAskedFirst(p, w);
    OthersAreNamed(w.answer, SeatPart(p, w), Leaving(p), Protected(p));
  }

  /** The seat does not go if the lease's cards hold it and neither its own unload nor the total route, where that may
      be asked for, is granted. */
  lemma WhenTheSeatStays(p: Plan, w: World)
    ensures SeatRefuses(p, w) <==>
            && (!p.scope.bounded || p.scope.on(p.agent))
            && !w.answer(0) && (Protected(p) != [] || !w.answer(1))
  {}

  lemma {:induction false} OthersLogIs(answer: Answers, log: seq<Request>, models: seq<string>,
                                       protect: seq<string>, r: Request)
    requires r in OthersLog(answer, log, models, protect)
    ensures || r in log
            || (r.Unload? && r.model in models)
            || (r.UnloadEverything? && models != [] && protect == [])
    decreases |models|
  {
    if models != [] {
      OthersLogIs(answer, UnloadLog(answer, log, models[0], protect), models[1..], protect, r);
    }
  }

  lemma {:induction false} OthersLogKeeps(answer: Answers, log: seq<Request>, models: seq<string>, protect: seq<string>)
    ensures log <= OthersLog(answer, log, models, protect)
    decreases |models|
  {
    if models != [] {
      OthersLogKeeps(answer, UnloadLog(answer, log, models[0], protect), models[1..], protect);
    }
  }

  /** A running model that must stay is on the protect list, unless it is the seat. */
  lemma StayingIsProtected(p: Plan, row: Row)
    requires MustStay(p, row) && !EqualFold(row.model, p.agent)
    ensures row.model in Protected(p)
  {
    var rows := p.rows.value;
    if InStack(p.stack, row.model) {
      KeptAre(rows, p.agent, p.stack, row);
    } else {
      OthersAre(rows, p.agent, p.stack, row.model);
      WhereAre(Others(rows, p.agent, p.stack), (m: string) => !Touches(p.scope, m), row.model);
    }
  }

  lemma LeavingMayGo(p: Plan, row: Row)
    requires MustStay(p, row)
    ensures row.model !in Leaving(p)
    ensures p.agent !in Leaving(p)
  {
    var rows := p.rows.value;
    OthersAre(rows, p.agent, p.stack, row.model);
    OthersAre(rows, p.agent, p.stack, p.agent);
    WhereAre(Others(rows, p.agent, p.stack), (m: string) => Touches(p.scope, m), row.model);
    WhereAre(Others(rows, p.agent, p.stack), (m: string) => Touches(p.scope, m), p.agent);
  }

  lemma ARequestSparesTheRest(answer: Answers, p: Plan, r: Request, row: Row)
    requires r in ClearLog(answer, p) && MustStay(p, row)
    requires !EqualFold(row.model, p.agent)
             || (!Touches(p.scope, p.agent) && (Leaving(p) == [] || Protected(p) != []))
    ensures !TakesDown(p, r, row)
  {
    LeavingMayGo(p, row);
    var seat := if Touches(p.scope, p.agent) then UnloadLog(answer, [], p.agent, Protected(p)) else [];
    if r !in seat {
      OthersLogIs(answer, seat, Leaving(p), Protected(p), r);
    }
    if r.UnloadEverything? && !EqualFold(row.model, p.agent) {
      StayingIsProtected(p, row);
    }
  }

  /** Clearing the cards spares the memory stack and everything the scope leaves alone, on every route
      and whatever the model server answers, exactly when the agent seat is not exposed: the protect list
      names every such model but the seat itself. */
  lemma ClearingSparesWhatMustStay(p: Plan)
    ensures Spares(p) <==> !SeatIsExposed(p)
  {
    if SeatIsExposed(p) {
      var row :| row in p.rows.value && MustStay(p, row) && EqualFold(row.model, p.agent);
      var answer := (k: nat) => false;
      var r := AnExposingRequest(p, answer);
      assert TakesDown(p, r, row);
    } else {
      forall answer: Answers, r: Request, row: Row | r in ClearLog(answer, p) && MustStay(p, row)
        ensures !TakesDown(p, r, row)
      {
        ARequestSparesTheRest(answer, p, r, row);
      }
    }
  }

  lemma AnExposingRequest(p: Plan, answer: Answers) returns (r: Request)
    requires SeatIsExposed(p) && forall k: nat :: !answer(k)
    ensures r in ClearLog(answer, p)
    ensures r.UnloadEverything? || (r.Unload? && r.model == p.agent)
  {
    if Touches(p.scope, p.agent) {
      r := Unload(p.agent, false);
      var log := UnloadLog(answer, [], p.agent, Protected(p));
      assert log[0] == r;
    } else {
      var m := Leaving(p)[0];
      var first := UnloadLog(answer, [], m, Protected(p));
      r := UnloadEverything(m, false);
      assert first == [Unload(m, false), r];
      OthersLogKeeps(answer, first, Leaving(p)[1..], Protected(p));
      assert first[1] in ClearLog(answer, p);
    }
  }

  /** The corner is real: a seat on another card, which this lease must leave alone, goes down with the
      total unload route when the one model on the leased card does not go by name. */
  lemma ASeatOnAnotherCardIsExposed(stack: seq<string>)
    requires !InStack(stack, "a") && !InStack(stack, "b")
    ensures SeatIsExposed(TwoCards(stack))
    ensures MustStay(TwoCards(stack), Row("a", "")) && !Touches(TwoCards(stack).scope, "a")
  {
    var p := TwoCards(stack);
    assert Lower("a") == "a" && Lower("b") == "b" && Lower("") == "";
    assert Others([Row("b", "")], p.agent, p.stack) == ["b"];
    assert KeptModels([Row("b", "")], p.agent, p.stack) == [];
    assert p.rows.value[0] == Row("a", "") && p.rows.value[1..] == [Row("b", "")];
    assert Where(["b"], (m: string) => Touches(p.scope, m)) == ["b"];
    assert Where(["b"], (m: string) => !Touches(p.scope, m)) == [];
  }

  /** The seat a on one card and a model b on the leased one, neither of the memory stack. */
  function TwoCards(stack: seq<string>): Plan {
    Plan("a", stack, Scope(true, (m: string) => m == "b"), Some([Row("a", ""), Row("b", "")]))
  }

  /** With no list to read, the whole configured stack is protected: the total route stays shut. */
  lemma AnUnreadableListShutsTheTotalRoute(answer: Answers, p: Plan, r: Request)
    requires p.rows.None? && p.stack != [] && r in ClearLog(answer, p)
    ensures r.Unload? && r.model == p.agent
  {
  }

  // ---- The maintain step ----

  datatype Options = Options(drain: bool, unload: bool, exclusive: bool)

  /** What one maintain step meets: the drain's reads, whether the restamp lands, the seat's residency read
      before anything goes, the model server's answers, whether the caller cancels during the unload, and how
      long all that follows the drain takes. A drain that failed tries to clear its stamp, unless the caller has
      cancelled by then; clearLands says whether that worked. */
  datatype World = World(drain: D.World, cancelledByThen: bool, clearLands: bool, restampLands: bool,
                         seat: W.Reading, answer: Answers, cancelled: bool, takes: nat)

  datatype Failure = DrainFailed(verdict: D.Verdict) | StampFailed | UnloadFailed

  /** The last request for the seat did not free it. */
  predicate SeatRefuses(p: Plan, w: World) {
    var log := UnloadLog(w.answer, [], p.agent, Protected(p));
    Touches(p.scope, p.agent) && !log[|log| - 1].ok
  }

  /** The failure of a step whose drain ended with this verdict. */
  function FailureAfter(o: Options, p: Plan, w: World, verdict: D.Verdict): Option<Failure> {
    if verdict != D.Drained then Some(DrainFailed(verdict))
    else if (o.drain || o.exclusive) && !w.restampLands then Some(StampFailed)
    else if o.unload && SeatRefuses(p, w) then Some(UnloadFailed)
    else None
  }

  /** The step ended with this failure, or none, at the moment over: the drain at its first reason, never
      waited for past its deadline, then the restamp, then the seat. */
  ghost predicate EndsWith(o: Options, p: Plan, w: World, stuckAfter: nat, deadline: int, err: Option<Failure>,
                           over: int) {
    exists n: nat, verdict: D.Verdict :: EndsAtRead(o, p, w, stuckAfter, deadline, err, over, n, verdict)
  }

  ghost predicate EndsAtRead(o: Options, p: Plan, w: World, stuckAfter: nat, deadline: int, err: Option<Failure>,
                             over: int,
                             n: nat, verdict: D.Verdict) {
    && (if o.drain then D.Ends(w.drain, stuckAfter, deadline, n, verdict) else n == 0 && verdict == D.Drained)
    && err == FailureAfter(o, p, w, verdict)
    && over == w.drain.clock(n) + w.takes
    && (0 < n ==> w.drain.clock(n - 1) < deadline)
  }

  /** Why a step fails, in the order the steps come in: a drain that ended otherwise than drained; a restamp that was
      due and did not land; a seat that does not go. */
  lemma WhyAStepFails(o: Options, p: Plan, w: World, verdict: D.Verdict)
    ensures var f := FailureAfter(o, p, w, verdict);
            var stamps := o.drain || o.exclusive;
            && (forall v :: f == Some(DrainFailed(v)) <==> verdict == v != D.Drained)
            && (f == Some(StampFailed) <==> verdict == D.Drained && stamps && !w.restampLands)
            && (f == Some(UnloadFailed) <==>
                  verdict == D.Drained && (stamps ==> w.restampLands) && o.unload && SeatRefuses(p, w))
  {}

  datatype Event =
    | SeatDrained
    | Stamped(exclusive: bool)
    | TriedToClear(ok: bool)
    | Asked(request: Request)
    | DebtMarked

  /** What the unload took down, for the caller that waits for the host afterwards. */
  datatype Outcome = Outcome(seat: bool, others: nat, failed: nat)

  predicate FreedNothing(o: Outcome) { !o.seat && o.others == 0 && o.failed == 0 }

  /** The seat was loaded and staying, or could not be told. */
  predicate WasResident(p: Plan, seat: W.Reading) {
    Touches(p.scope, p.agent) && (seat.ReadFailed? || seat.ambiguous || (seat.loaded && !seat.stopping))
  }

  function Asks(log: seq<Request>): seq<Event> {
    seq(|log|, i requires 0 <= i < |log| => Asked(log[i]))
  }

  /** What a failed drain does about its own stamp. */
  function ClearEvents(w: World, verdict: D.Verdict): seq<Event> {
    if verdict == D.Cancelled || w.cancelledByThen then [] else [TriedToClear(w.clearLands)]
  }

  function DrainEvents(o: Options): seq<Event> { if o.drain then [SeatDrained] else [] }

  function StampEvents(o: Options): seq<Event> {
    if o.drain || o.exclusive then [Stamped(o.exclusive)] else []
  }

  function DebtEvents(p: Plan, w: World): seq<Event> { if WasResident(p, w.seat) then [DebtMarked] else [] }

  function OutcomeOf(p: Plan, w: World): Outcome {
    var log := if Touches(p.scope, p.agent) then UnloadLog(w.answer, [], p.agent, Protected(p)) else [];
    var failed := StillThere(w.answer, log, Leaving(p), Protected(p));
    Outcome(WasResident(p, w.seat), if failed <= |Leaving(p)| then |Leaving(p)| - failed else 0, failed)
  }

  /** What the events of a step say, in its options and in the reading of the seat. A drain is said, the exclusive stamp
      is put on where it was asked for (and the draining one comes off), and a debt is marked for every seat on the
      lease's cards that was not positively read as not loaded or as leaving. */
  lemma WhatAStepSays(o: Options, p: Plan, w: World, log: seq<Request>)
    ensures DrainEvents(o) == if o.drain then [SeatDrained] else []
    ensures StampEvents(o) == if o.drain || o.exclusive then [Stamped(o.exclusive)] else []
    ensures DebtMarked in DebtEvents(p, w) <==>
            && (!p.scope.bounded || p.scope.on(p.agent))
            && !(w.seat.Read? && !w.seat.ambiguous && (!w.seat.loaded || w.seat.stopping))
    ensures OutcomeOf(p, w).seat <==> DebtMarked in DebtEvents(p, w)
    ensures |DebtEvents(p, w)| <= 1 && |Asks(log)| == |log|
    ensures forall i :: 0 <= i < |log| ==> Asks(log)[i] == Asked(log[i])
    ensures forall verdict :: ClearEvents(w, verdict) ==
              if verdict == D.Cancelled || w.cancelledByThen then [] else [TriedToClear(w.clearLands)]
  {}

  /** The unload is said to have freed nothing only when there was nothing: the seat was not resident and no
      other model was leaving. A model that would not go is never called nothing. */
  lemma FreedNothingMeansNothingWasThere(p: Plan, w: World)
    ensures FreedNothing(OutcomeOf(p, w)) <==> !WasResident(p, w.seat) && Leaving(p) == []
  {
  }

  /** Unload every other model that is leaving; one that will not go is counted, never fatal. */
  method UnloadOthers(answer: Answers, log: seq<Request>, others: seq<string>, protect: seq<string>)
    returns (log': seq<Request>, done: nat, failed: nat)
    ensures log' == OthersLog(answer, log, others, protect)
    ensures done + failed == |others|
    ensures failed == StillThere(answer, log, others, protect)
  {
    log', done, failed := log, 0, 0;
    for i := 0 to |others|
      invariant done + failed == i
      invariant OthersLog(answer, log', others[i..], protect) == OthersLog(answer, log, others, protect)
      invariant failed + StillThere(answer, log', others[i..], protect) == StillThere(answer, log, others, protect)
    {
      var ok;
      ok, log' := UnloadSeat(answer, log', others[i], protect);
      assert others[i..][0] == others[i] && others[i..][1..] == others[i + 1..];
      if ok { done := done + 1; } else { failed := failed + 1; }
    }
  }

  /** The unload of a maintain step; marked says the seat's warm-back is now owed. */
  method UnloadStep(p: Plan, w: World)
    returns (err: Option<Failure>, log: seq<Request>, marked: bool, out: Option<Outcome>)
    ensures log == ClearLog(w.answer, p)
    ensures err.None? || err == Some(UnloadFailed)
    ensures err.Some? <==> SeatRefuses(p, w)
    ensures marked <==> WasResident(p, w.seat) && (err.None? || w.cancelled)
    // in the reading: only a seat on other cards, and one positively read as not loaded or as leaving, owes nothing
    ensures marked <==>
            && (!p.scope.bounded || p.scope.on(p.agent))
            && !(w.seat.Read? && !w.seat.ambiguous && (!w.seat.loaded || w.seat.stopping))
            && (err.None? || w.cancelled)
    ensures out.Some? ==> (out.value.seat <==> marked)
    ensures out.Some? <==> err.None?
    ensures out.Some? ==> out.value == OutcomeOf(p, w)
  {
    var agentOn := Touches(p.scope, p.agent);
    var wasLoaded := agentOn && WasResident(p, w.seat);
    log := [];
    if agentOn {
      var ok;
      ok, log := UnloadSeat(w.answer, log, p.agent, Protected(p));
      if !ok {
        return Some(UnloadFailed), log, w.cancelled && wasLoaded, None;
      }
    }
    var done, failed;
    log, done, failed := UnloadOthers(w.answer, log, Leaving(p), Protected(p));
    return None, log, wasLoaded, Some(Outcome(wasLoaded, done, failed));
  }

  /** Drain until the deadline, turn the draining stamp into the exclusive one (or clear it), then unload. */
  method MaintainSeat(o: Options, p: Plan, w: World, stuckAfter: nat, deadline: int)
    returns (err: Option<Failure>, events: seq<Event>, out: Option<Outcome>, over: int)
    requires D.Paced(w.drain, 2_000)
    ensures EndsWith(o, p, w, stuckAfter, deadline, err, over)
    // success did every step that was asked for, in this order and nothing else
    ensures err.None? ==>
              var cleared := if o.unload then Asks(ClearLog(w.answer, p)) + DebtEvents(p, w) else [];
              events == DrainEvents(o) + StampEvents(o) + cleared
    // a drain that failed tries to take its stamp off, and unloads nothing
    ensures err.Some? && err.value.DrainFailed? ==>
              o.drain && events == ClearEvents(w, err.value.verdict)
    // the stamp comes before the unload: a lease already gone never gets to clear the seat
    ensures err == Some(StampFailed) ==> events == DrainEvents(o)
    // an unload that was only cancelled may have happened: the debt is marked all the same
    ensures err == Some(UnloadFailed) ==>
              && o.unload && Touches(p.scope, p.agent)
              && events == DrainEvents(o) + StampEvents(o) + (Asks(ClearLog(w.answer, p)) + if w.cancelled
                   then DebtEvents(p, w) else [])
    // what is reported freed
    ensures out.Some? <==> err.None? && o.unload
    ensures out.Some? ==> out.value == OutcomeOf(p, w)
  {
    events, out, over := [], None, w.drain.clock(0) + w.takes;
    var verdict, n := D.Drained, 0;
    if o.drain {
      verdict, n := D.DrainUntil(w.drain, 2_000, stuckAfter, deadline);
      over := w.drain.clock(n) + w.takes;
      assert EndsAtRead(o, p, w, stuckAfter, deadline, FailureAfter(o, p, w, verdict), over, n, verdict);
      if verdict != D.Drained {
        return Some(DrainFailed(verdict)), ClearEvents(w, verdict), None, over;
      }
      events := [SeatDrained];
    }
    assert EndsAtRead(o, p, w, stuckAfter, deadline, FailureAfter(o, p, w, verdict), over, n, verdict);
    if (o.drain || o.exclusive) && !w.restampLands {
      return Some(StampFailed), events, None, over;
    }
    var stamps := if o.drain || o.exclusive then [Stamped(o.exclusive)] else [];
    var cleared := [];
    err := None;
    if o.unload {
      var requests, marked;
      err, requests, marked, out := UnloadStep(p, w);
      cleared := Asks(requests) + if marked then [DebtMarked] else [];
    }
    events := events + stamps + cleared;
  }
}
