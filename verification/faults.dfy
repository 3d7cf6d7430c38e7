/** The fault summary a node publishes: a cache that refreshes itself one read at a time, in the background,
    and hands out copies. */
module Faults {
  import opened Common

  const FAULTS_TTL := 600_000
  const FAULTS_MAX_STALE := 4 * FAULTS_TTL

  datatype Card = Card(index: int, uuid: string, bus: string, events: int, incidents: int, inContext: int,
                       incidents24h: int, lastIncident: int)

  datatype Repeat = Repeat(uuid: string, bus: string, kind: string, bursts: int, from: int, to: int)

  /** The contents of a summary. */
  datatype Reading = Reading(windowDays: int, readAt: int, note: string, cards: seq<Card>, repeats: seq<Repeat>)

  // ---- The cache as a value ----

  /** tried is when the last refresh began. */
  datatype Cache = Cache(val: Option<Reading>, valAt: int, tried: Option<int>, inflight: bool)

  const EMPTY := Cache(None, 0, None, false)

  predicate Begins(c: Cache, now: int) {
    !c.inflight && (c.tried.None? || FAULTS_TTL < now - c.tried.value)
  }

  function Asked(c: Cache, now: int): Cache {
    if Begins(c, now) then c.(inflight := true, tried := Some(now)) else c
  }

  function Published(c: Cache, now: int): Option<Reading> {
    if c.val.Some? && now - c.valAt <= FAULTS_MAX_STALE then c.val else None
  }

  /** A refresh ends: None if the log could not be read; Some(None) on a node with nothing to report. */
  function Refreshed(c: Cache, now: int, result: Option<Option<Reading>>): Cache {
    if result.Some? then c.(inflight := false, val := result.value, valAt := now) else c.(inflight := false)
  }

  // ---- Every interleaving of asks and refreshes ----

  datatype Event = Ask(now: int) | Done(now: int, result: Option<Option<Reading>>)

  /** The cache, the refreshes that began and have not ended, and when each began. */
  datatype State = State(cache: Cache, running: nat, begun: seq<int>)

  const START := State(EMPTY, 0, [])

  predicate Enabled(s: State, e: Event) { e.Done? ==> 0 < s.running }

  function Next(s: State, e: Event): State
    requires Enabled(s, e)
  {
    match e
    case Ask(now) =>
      var begins := Begins(s.cache, now);
      State(Asked(s.cache, now),
            if begins then s.running + 1 else s.running, if begins then s.begun + [now] else s.begun)
    case Done(now, result) => State(Refreshed(s.cache, now, result), s.running - 1, s.begun)
  }

  function Front(events: seq<Event>): seq<Event>
    requires events != []
  {
    events[..|events| - 1]
  }

  function Latest(events: seq<Event>): Event
    requires events != []
  {
    events[|events| - 1]
  }

  predicate Runs(events: seq<Event>)
    decreases |events|, 0
  {
    events == [] || (Runs(Front(events)) && Enabled(After(Front(events)), Latest(events)))
  }

  function After(events: seq<Event>): State
    requires Runs(events)
    decreases |events|, 1
  {
    if events == [] then START else Next(After(Front(events)), Latest(events))
  }

  /** What the node has read: the last refresh that ended well, and when. */
  function LastGood(events: seq<Event>): Option<(Option<Reading>, int)> {
    if events == [] then None
    else
      var e := Latest(events);
      if e.Done? && e.result.Some? then Some((e.result.value, e.now)) else LastGood(Front(events))
  }

  predicate Spaced(begun: seq<int>) {
    forall i :: 0 <= i < |begun| - 1 ==> FAULTS_TTL < begun[i + 1] - begun[i]
  }

  lemma {:induction false} StateIsItsHistory(events: seq<Event>)
    requires Runs(events)
    ensures var s := After(events);
            && s.running == (if s.cache.inflight then 1 else 0)
            && Spaced(s.begun)
            && s.cache.tried == (if s.begun == [] then None else Some(s.begun[|s.begun| - 1]))
            && match LastGood(events)
               case None => s.cache.val.None?
               case Some((reading, at)) => s.cache.val == reading && s.cache.valAt == at
  {
    if events != [] {
      StateIsItsHistory(Front(events));
    }
  }

  /** However asks and refreshes interleave, at most one refresh runs at a time, and two begin more than ten
      minutes apart. */
  lemma OneRefreshAtATime(events: seq<Event>)
    requires Runs(events)
    ensures After(events).running <= 1
    ensures var begun := After(events).begun; forall i :: 0 <= i < |begun| - 1 ==> 10 * 60_000 < begun[i + 1] - begun[i]
  {
    StateIsItsHistory(events);
  }

  /** ... and one does begin: at every ask with none running and none begun within the last ten minutes, and at no other
      moment. */
  lemma AnAskBeginsOneWhenDue(events: seq<Event>, e: Event)
    requires Runs(events) && Enabled(After(events), e)
    ensures var (s, s') := (After(events), Next(After(events), e));
            var due := s.running == 0 && (s.begun == [] || 10 * 60_000 < e.now - s.begun[|s.begun| - 1]);
            && s'.begun == (if e.Ask? && due then s.begun + [e.now] else s.begun)
            && s'.running == (if e.Done? then 0 else if due then 1 else s.running)
  {
    StateIsItsHistory(events);
  }

  /** A node can be asked at any moment, and a refresh that runs can end; then none does. */
  lemma AsksAndEndsAreAlwaysPossible(events: seq<Event>, e: Event)
    requires Runs(events) && (e.Ask? || After(events).cache.inflight)
    ensures Runs(events + [e]) && After(events + [e]) == Next(After(events), e)
    ensures e.Done? ==> !After(events + [e]).cache.inflight && After(events + [e]).running == 0
  {
    StateIsItsHistory(events);
    assert Front(events + [e]) == events && Latest(events + [e]) == e;
  }

  /** What is published is the last reading that succeeded, while it is at most forty minutes old; a failed
      refresh changes nothing of that. */
  lemma PublishedIsTheLastGoodReading(events: seq<Event>, now: int)
    requires Runs(events)
    ensures Published(After(events).cache, now) ==
            match LastGood(events)
            case None => None
            case Some((reading, at)) => if now - at <= 40 * 60_000 then reading else None
  {
    StateIsItsHistory(events);
  }

  /** A refresh that never ends is never started over: an ask can only wait for it. */
  lemma {:induction false} ALostRefreshIsNeverRetried(events: seq<Event>, more: seq<Event>)
    requires Runs(events) && After(events).cache.inflight
    requires forall e :: e in more ==> e.Ask?
    ensures Runs(events + more) && After(events + more).begun == After(events).begun
              && After(events + more).cache == After(events).cache
  {
    if more == [] {
      assert events + more == events;
    } else {
      ALostRefreshIsNeverRetried(events, Front(more));
      assert Front(events + more) == events + Front(more);
      assert Latest(more) in more && Latest(events + more) == Latest(more);
    }
  }

  // ---- The cache as the program holds it ----

  class FaultSummary {
    var windowDays: int
    var readAt: int
    var note: string
    var cards: array<Card>
    var repeats: array<Repeat>

    constructor (windowDays: int, readAt: int, note: string, cards: array<Card>, repeats: array<Repeat>)
      ensures this.cards == cards && this.repeats == repeats
      ensures View() == Reading(windowDays, readAt, note, cards[..], repeats[..])
    {
      this.windowDays, this.readAt, this.note := windowDays, readAt, note;
      this.cards, this.repeats := cards, repeats;
    }

    function View(): Reading
      reads this, cards, repeats
    {
      Reading(windowDays, readAt, note, cards[..], repeats[..])
    }
  }

  /** A copy of the backing array. */
  method Copied<T>(a: array<T>) returns (b: array<T>)
    ensures fresh(b) && b[..] == a[..]
  {
    b := new T[a.Length](i requires 0 <= i < a.Length reads a => a[i]);
  }

  class Reporter {
    var val: FaultSummary?
    var valAt: int
    var tried: Option<int>
    var inflight: bool

    function Footprint(): set<object?>
      reads this, val
    {
      if val == null then {this} else {this, val, val.cards, val.repeats}
    }

    function View(): Cache
      reads Footprint()
    {
      Cache(if val == null then None else Some(val.View()), valAt, tried, inflight)
    }

    constructor ()
      ensures View() == EMPTY
    {
      val, valAt, tried, inflight := null, 0, None, false;
    }

    /** One ask: begins a refresh if one is due, and answers with a copy no part of which the cache keeps. */
    method Health(now: int) returns (answer: FaultSummary?, begins: bool)
      modifies this
      ensures View() == Asked(old(View()), now) && begins == Begins(old(View()), now)
      ensures begins <==> !old(inflight) && (old(tried).None? || 10 * 60_000 < now - old(tried).value)
      ensures inflight == (begins || old(inflight)) && tried == (if begins then Some(now) else old(tried))
      ensures val == old(val) && valAt == old(valAt)
      ensures answer == null <==> val == null || 40 * 60_000 < now - valAt
      ensures (answer == null) == Published(old(View()), now).None?
      ensures answer != null ==> fresh(answer) && fresh(answer.cards) && fresh(answer.repeats)
      ensures answer != null ==> Some(answer.View()) == Published(old(View()), now)
    {
      begins := false;
      if (tried.None? || FAULTS_TTL < now - tried.value) && !inflight {
        inflight, tried, begins := true, Some(now), true;
      }
      if val == null || FAULTS_MAX_STALE < now - valAt {
        return null, begins;
      }
      var cards := Copied(val.cards);
      var repeats := Copied(val.repeats);
      answer := new FaultSummary(val.windowDays, val.readAt, val.note, cards, repeats);
    }

    /** A refresh that ended: a read that failed keeps the last reading. */
    method Finish(now: int, summary: FaultSummary?, ok: bool)
      modifies this
      ensures var read := if summary == null then None else Some(old(summary.View()));
              View() == Refreshed(old(View()), now, if ok then Some(read) else None)
      ensures !inflight && tried == old(tried)
      ensures if ok then val == summary && valAt == now else val == old(val) && valAt == old(valAt)
    {
      inflight := false;
      if ok {
        val, valAt := summary, now;
      }
    }
  }

  /** Whoever was answered may do what they like with the answer's lists: the cache does not move. */
  method AnswersAreNotShared(r: Reporter, now: int, i: nat, card: Card, j: nat, repeat: Repeat)
    modifies r
    ensures r.View() == Asked(old(r.View()), now)
  {
    var answer, _ := r.Health(now);
    if answer != null {
      if i < answer.cards.Length {
        answer.cards[i] := card;
      }
      if j < answer.repeats.Length {
        answer.repeats[j] := repeat;
      }
    }
  }
}
