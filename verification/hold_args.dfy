/** The argv a detached reserve prints for its hidden holder, and what the holder reads back from it. */
module HoldArgs {
  import opened Common
  import opened Flags
  import T = Text

  // ---- The holder's flag set ----

  /** The flags, numbered in the order the parent prints them. */
  type Name = n: nat | n <= 25

  const CLASS: Name := 0
  const FOR: Name := 1
  const WAIT: Name := 2
  const REASON: Name := 3
  const ORIGIN: Name := 4
  const EXCLUSIVE: Name := 5
  const DRAINING: Name := 6
  const RAM: Name := 7
  const RAM_COMMIT: Name := 8
  const RAM_WAIT: Name := 9
  const RAM_WAIT_COMMIT: Name := 10
  const CARDS: Name := 11
  const VRAM: Name := 12
  const DEVICES: Name := 13
  const GROUP: Name := 14
  const CONFIG: Name := 15
  const OWNER_SESSION: Name := 16
  const OWNER_PID: Name := 17
  const OWNER_START_MS: Name := 18
  const OWNER_REMOTE: Name := 19
  const UNATTENDED: Name := 20
  const PROGRESS_FILE: Name := 21
  const STALL: Name := 22
  const YIELD_GRACE: Name := 23
  const ON_YIELD: Name := 24
  const RELEASE_AT_EXPIRY: Name := 25

  function Spell(n: Name): string {
    if n == CLASS then "class"
    else if n == FOR then "for"
    else if n == WAIT then "wait"
    else if n == REASON then "reason"
    else if n == ORIGIN then "origin"
    else if n == EXCLUSIVE then "exclusive"
    else if n == DRAINING then "draining"
    else if n == RAM then "ram"
    else if n == RAM_COMMIT then "ram-commit"
    else if n == RAM_WAIT then "ram-wait"
    else if n == RAM_WAIT_COMMIT then "ram-wait-commit"
    else if n == CARDS then "cards"
    else if n == VRAM then "vram"
    else if n == DEVICES then "devices"
    else if n == GROUP then "group"
    else if n == CONFIG then "config"
    else if n == OWNER_SESSION then "owner-session"
    else if n == OWNER_PID then "owner-pid"
    else if n == OWNER_START_MS then "owner-start-ms"
    else if n == OWNER_REMOTE then "owner-remote"
    else if n == UNATTENDED then "unattended"
    else if n == PROGRESS_FILE then "progress-file"
    else if n == STALL then "stall"
    else if n == YIELD_GRACE then "yield-grace"
    else if n == ON_YIELD then "on-yield"
    else "release-at-expiry"
  }

  lemma SpellIsInjective(m: Name, n: Name)
    requires Spell(m) == Spell(n)
    ensures m == n
  {}

  ghost function Named(s: string): Option<Name> {
    if exists n: Name :: Spell(n) == s then var n: Name :| Spell(n) == s; Some(n) else None
  }

  predicate IsSwitch(n: Name) {
    n == EXCLUSIVE || n == DRAINING || n == RELEASE_AT_EXPIRY || n == OWNER_REMOTE || n == UNATTENDED
  }

  predicate IsPeriod(n: Name) { n == FOR || n == WAIT || n == STALL || n == YIELD_GRACE }

  predicate IsFigure(n: Name) {
    n == VRAM || n == RAM || n == RAM_COMMIT || n == RAM_WAIT || n == RAM_WAIT_COMMIT
  }

  predicate IsNumber(n: Name) { n == OWNER_PID || n == OWNER_START_MS }

  /** How durations, figures and whole numbers are printed and parsed: opaque, but parsing undoes printing. */
  datatype Codec<!X> = Codec(show: X -> string, parse: string -> Option<X>)

  datatype Codecs = Codecs(period: Codec<int>, figure: Codec<real>, number: Codec<int>)

  ghost predicate Inverse(c: Codecs) {
    && (forall x :: c.period.parse(c.period.show(x)) == Some(x))
    && (forall x :: c.figure.parse(c.figure.show(x)) == Some(x))
    && (forall x :: c.number.parse(c.number.show(x)) == Some(x))
  }

  /** What a switch given a value of its own takes for on and off. */
  predicate SaysTrue(s: string) { s == "true" || s == "1" || s == "t" || s == "T" || s == "TRUE" || s == "True" }

  predicate SaysFalse(s: string) { s == "false" || s == "0" || s == "f" || s == "F" || s == "FALSE" || s == "False" }

  predicate Accepts(c: Codecs, n: Name, value: string) {
    if IsSwitch(n) then SaysTrue(value) || SaysFalse(value)
    else if IsPeriod(n) then c.period.parse(value).Some?
    else if IsFigure(n) then c.figure.parse(value).Some?
    else if IsNumber(n) then c.number.parse(value).Some?
    else true
  }

  /** The names of the holder's flags, in the order they are numbered. */
  const NAMES := ["class", "for", "wait", "reason", "origin", "exclusive", "draining", "ram", "ram-commit", "ram-wait",
                  "ram-wait-commit", "cards", "vram", "devices", "group", "config", "owner-session", "owner-pid",
                  "owner-start-ms", "owner-remote", "unattended", "progress-file", "stall", "yield-grace", "on-yield",
                  "release-at-expiry"]

  lemma TheFlagsAreNamed(n: Name)
    ensures n < |NAMES| && Spell(n) == NAMES[n]
  {}

  /** What each flag takes: five are switches, four durations, five figures, two whole numbers, and the rest any
      text. */
  lemma WhatAFlagTakes(c: Codecs, n: Name, value: string)
    ensures IsSwitch(n) <==> n in {EXCLUSIVE, DRAINING, RELEASE_AT_EXPIRY, OWNER_REMOTE, UNATTENDED}
    ensures IsSwitch(n) ==>
              (Accepts(c, n, value) <==>
                value in {"1", "t", "T", "true", "TRUE", "True", "0", "f", "F", "false", "FALSE", "False"})
    ensures n in {FOR, WAIT, STALL, YIELD_GRACE} ==> (Accepts(c, n, value) <==> c.period.parse(value).Some?)
    ensures n in {RAM, RAM_COMMIT, RAM_WAIT, RAM_WAIT_COMMIT, VRAM} ==>
              (Accepts(c, n, value) <==> c.figure.parse(value).Some?)
    ensures n in {OWNER_PID, OWNER_START_MS} ==> (Accepts(c, n, value) <==> c.number.parse(value).Some?)
    ensures n in {CLASS, REASON, ORIGIN, CARDS, DEVICES, GROUP, CONFIG, OWNER_SESSION, PROGRESS_FILE, ON_YIELD} ==>
              Accepts(c, n, value)
  {}

  ghost function HoldDefs(c: Codecs): Defs<Name> {
    Defs(s => Named(s), n => IsSwitch(n), (n, value) => Accepts(c, n, value))
  }

  /** What a flag was last set to. */
  function Last(sets: seq<Setting<Name>>, n: Name): Option<string> {
    if sets == [] then None
    else if sets[|sets| - 1].flag == n then Some(sets[|sets| - 1].value)
    else Last(sets[..|sets| - 1], n)
  }

  const ON := "true"

  predicate Given(s: string) { s != "" }

  // ---- A list of settings, and its tokens ----

  /** The two tokens of a flag with a value, the one of a switch that is on. */
  function TokensOf(s: Setting<Name>): seq<string> {
    Tokens(Spell(s.flag), if IsSwitch(s.flag) then None else Some(s.value))
  }

  function Print(sets: seq<Setting<Name>>): seq<string> {
    if sets == [] then [] else TokensOf(sets[0]) + Print(sets[1..])
  }

  predicate Printable(c: Codecs, s: Setting<Name>) {
    if IsSwitch(s.flag) then s.value == ON else Accepts(c, s.flag, s.value)
  }

  lemma NamesAreFound(n: Name)
    ensures Named(Spell(n)) == Some(n)
  {
    var m: Name :| Spell(m) == Spell(n) && Named(Spell(n)) == Some(m);
    SpellIsInjective(m, n);
  }

  lemma NamesAreNames(n: Name)
    ensures IsName(Spell(n))
  {
    if n < 9 { FirstNames(n); } else if n < 18 { MiddleNames(n); } else { LastNames(n); }
  }

  lemma FirstNames(n: Name)
    requires n < 9
    ensures IsName(Spell(n))
  {}

  lemma MiddleNames(n: Name)
    requires 9 <= n < 18
    ensures IsName(Spell(n))
  {}

  lemma LastNames(n: Name)
    requires 18 <= n
    ensures IsName(Spell(n))
  {}

  /** Any list of the holder's flags parses back to itself, whatever their values look like. */
  lemma {:induction false} PrintedSettingsParse(c: Codecs, sets: seq<Setting<Name>>)
    requires forall s :: s in sets ==> Printable(c, s)
    ensures Parse(HoldDefs(c), Print(sets)) == Parsed(sets, [])
  {
    if sets != [] {
      PrintedSettingsParse(c, sets[1..]);
      assert Printable(c, sets[0]);
      PrintedSettingParses(c, sets[0], Print(sets[1..]));
      assert [sets[0]] + sets[1..] == sets;
    }
  }

  lemma PrintedSettingParses(c: Codecs, s: Setting<Name>, rest: seq<string>)
    requires Printable(c, s)
    ensures Parse(HoldDefs(c), TokensOf(s) + rest) == Before(s, Parse(HoldDefs(c), rest))
  {
    NamesAreFound(s.flag);
    NamesAreNames(s.flag);
    PrintedFlagParses(HoldDefs(c), s.flag, Spell(s.flag), if IsSwitch(s.flag) then None else Some(s.value), rest);
  }

  lemma {:induction false} PrintOneMore(sets: seq<Setting<Name>>, s: Setting<Name>)
    ensures Print(sets + [s]) == Print(sets) + TokensOf(s)
  {
    if sets == [] {
      assert [s][1..] == [] && TokensOf(s) + [] == TokensOf(s);
    } else {
      assert (sets + [s])[1..] == sets[1..] + [s];
      PrintOneMore(sets[1..], s);
    }
  }

  // ---- A command line, one flag after another ----

  /** A flag that is there if its condition holds, after what stands before it. */
  datatype Line = Nothing | Then(before: Line, there: bool, flag: Name, value: string)

  function Sets(l: Line): seq<Setting<Name>> {
    match l
    case Nothing => []
    case Then(before, there, n, value) => Sets(before) + if there then [Setting(n, value)] else []
  }

  function Lookup(l: Line, n: Name): Option<string> {
    match l
    case Nothing => None
    case Then(before, there, m, value) => if there && m == n then Some(value) else Lookup(before, n)
  }

  function Argv(l: Line): seq<string> {
    match l
    case Nothing => []
    case Then(before, there, n, value) => Argv(before) + if there then TokensOf(Setting(n, value)) else []
  }

  predicate AllPrintable(c: Codecs, l: Line) {
    match l
    case Nothing => true
    case Then(before, there, n, value) => AllPrintable(c, before) && (there ==> Printable(c, Setting(n, value)))
  }

  lemma LineReadsBack(c: Codecs, l: Line)
    requires AllPrintable(c, l)
    ensures Parse(HoldDefs(c), Argv(l)) == Parsed(Sets(l), [])
    ensures forall n :: Last(Sets(l), n) == Lookup(l, n)
  {
    LineIsItsSettings(c, l);
    PrintedSettingsParse(c, Sets(l));
  }

  lemma {:induction false} LineIsItsSettings(c: Codecs, l: Line)
    requires AllPrintable(c, l)
    ensures Argv(l) == Print(Sets(l))
    ensures forall s :: s in Sets(l) ==> Printable(c, s)
    ensures forall n :: Last(Sets(l), n) == Lookup(l, n)
  {
    if l.Then? {
      LineIsItsSettings(c, l.before);
      var sets, s := Sets(l.before), Setting(l.flag, l.value);
      if l.there {
        PrintOneMore(sets, s);
        LastOneMore(sets, s);
      } else {
        assert sets + [] == sets && Argv(l.before) + [] == Argv(l.before);
      }
    }
  }

  lemma LastOneMore(sets: seq<Setting<Name>>, s: Setting<Name>)
    ensures forall n :: Last(sets + [s], n) == if s.flag == n then Some(s.value) else Last(sets, n)
  {
    assert (sets + [s])[..|sets|] == sets;
  }

  /** One line after another. */
  function Append(a: Line, b: Line): Line {
    match b
    case Nothing => a
    case Then(before, there, n, value) => Then(Append(a, before), there, n, value)
  }

  lemma {:induction false} AppendedLine(c: Codecs, a: Line, b: Line)
    ensures Argv(Append(a, b)) == Argv(a) + Argv(b)
    ensures AllPrintable(c, Append(a, b)) <==> AllPrintable(c, a) && AllPrintable(c, b)
    ensures forall n :: Lookup(Append(a, b), n) == if Lookup(b, n).Some? then Lookup(b, n) else Lookup(a, n)
  {
    if b.Then? {
      AppendedLine(c, a, b.before);
    }
  }

  // ---- What the parent has ----

  datatype Owner = Owner(session: string, pid: int, startMs: int, remote: bool)

  const NOBODY := Owner("", 0, 0, false)

  /** A card set the holder is to choose itself, with the copy of the host figures its allocator reads. */
  datatype Auto = Auto(cards: string, vram: real, ram: real, ramCommit: real)

  datatype Options = Options(
    reason: string, origin: string, exclusive: bool, draining: bool,
    ram: real, ramCommit: real, ramWait: real, ramWaitCommit: real,
    devices: seq<string>, group: string,
    owner: Owner, unattended: bool, progressFile: string, stall: int, yieldGrace: int, onYield: string)

  datatype Hold = Hold(kind: string, dur: int, wait: int, opts: Options, auto: Option<Auto>, config: string,
                       releaseAtExpiry: bool)

  // ---- Printing it ----

  /** One flag more on the end of the argv, if cond. */
  method AddIf(cond: bool, args: seq<string>, n: Name, value: string, ghost l: Line) returns (args': seq<string>)
    requires args == Argv(l)
    ensures args' == Argv(Then(l, cond, n, value))
  {
    args' := args;
    if cond {
      args' := args + if IsSwitch(n) then ["--" + Spell(n)] else ["--" + Spell(n), value];
    }
  }

  function OwnerPart(c: Codecs, w: Owner): Line {
    Then(Then(Then(Then(Nothing,
      Given(w.session), OWNER_SESSION, w.session),
      0 < w.pid, OWNER_PID, c.number.show(w.pid)),
      0 < w.pid && w.startMs != 0, OWNER_START_MS, c.number.show(w.startMs)),
      w.remote, OWNER_REMOTE, ON)
  }

  /** The owner and contract flags. */
  function OwnerLine(c: Codecs, o: Options): Line {
    Then(Then(Then(Then(Then(OwnerPart(c, o.owner),
      o.unattended, UNATTENDED, ON),
      Given(o.progressFile), PROGRESS_FILE, o.progressFile),
      Given(o.progressFile), STALL, c.period.show(o.stall)),
      0 < o.yieldGrace, YIELD_GRACE, c.period.show(o.yieldGrace)),
      Given(o.onYield), ON_YIELD, o.onYield)
  }

  lemma NobodyPrintsNothing(c: Codecs)
    ensures Argv(OwnerPart(c, NOBODY)) == []
  {
    var l1 := Then(Nothing, false, OWNER_SESSION, "");
    var l2 := Then(l1, false, OWNER_PID, c.number.show(0));
    var l3 := Then(l2, false, OWNER_START_MS, c.number.show(0));
    assert Argv(l1) == [] && Argv(l2) == [] && Argv(l3) == [];
    assert OwnerPart(c, NOBODY) == Then(l3, false, OWNER_REMOTE, ON);
  }

  method OwnerHoldArgs(c: Codecs, o: Options) returns (args: seq<string>)
    ensures args == Argv(OwnerLine(c, o))
  {
    args := [];
    var w := o.owner;
    NobodyPrintsNothing(c);
    if w != NOBODY {
      ghost var l := Nothing;
      args := AddIf(Given(w.session), args, OWNER_SESSION, w.session, l);
      l := Then(l, Given(w.session), OWNER_SESSION, w.session);
      args := AddIf(0 < w.pid, args, OWNER_PID, c.number.show(w.pid), l);
      l := Then(l, 0 < w.pid, OWNER_PID, c.number.show(w.pid));
      args := AddIf(0 < w.pid && w.startMs != 0, args, OWNER_START_MS, c.number.show(w.startMs), l);
      l := Then(l, 0 < w.pid && w.startMs != 0, OWNER_START_MS, c.number.show(w.startMs));
      args := AddIf(w.remote, args, OWNER_REMOTE, ON, l);
    }
    ghost var l := OwnerPart(c, w);
    args := AddIf(o.unattended, args, UNATTENDED, ON, l);
    l := Then(l, o.unattended, UNATTENDED, ON);
    args := AddIf(Given(o.progressFile), args, PROGRESS_FILE, o.progressFile, l);
    l := Then(l, Given(o.progressFile), PROGRESS_FILE, o.progressFile);
    args := AddIf(Given(o.progressFile), args, STALL, c.period.show(o.stall), l);
    l := Then(l, Given(o.progressFile), STALL, c.period.show(o.stall));
    args := AddIf(0 < o.yieldGrace, args, YIELD_GRACE, c.period.show(o.yieldGrace), l);
    l := Then(l, 0 < o.yieldGrace, YIELD_GRACE, c.period.show(o.yieldGrace));
    args := AddIf(Given(o.onYield), args, ON_YIELD, o.onYield, l);
  }

  /** The window, the wait and the flags of the lease. */
  function LeaseLine(c: Codecs, h: Hold): Line {
    Then(Then(Then(Then(Then(Then(Then(Nothing,
      true, CLASS, h.kind),
      true, FOR, c.period.show(h.dur)),
      true, WAIT, c.period.show(h.wait)),
      true, REASON, h.opts.reason),
      true, ORIGIN, h.opts.origin),
      h.opts.exclusive, EXCLUSIVE, ON),
      h.opts.draining, DRAINING, ON)
  }

  /** An allocated request carries the host figures in its own copy. */
  function RamOf(h: Hold): real { if h.auto.Some? then h.auto.value.ram else h.opts.ram }

  function CommitOf(h: Hold): real { if h.auto.Some? then h.auto.value.ramCommit else h.opts.ramCommit }

  function CardsOf(h: Hold): Auto { if h.auto.Some? then h.auto.value else Auto("", 0.0, 0.0, 0.0) }

  function FigurePart(c: Codecs, h: Hold): Line {
    Then(Then(Then(Then(Nothing,
      true, RAM, c.figure.show(RamOf(h))),
      0.0 < CommitOf(h), RAM_COMMIT, c.figure.show(CommitOf(h))),
      0.0 < h.opts.ramWait, RAM_WAIT, c.figure.show(h.opts.ramWait)),
      0.0 < h.opts.ramWaitCommit, RAM_WAIT_COMMIT, c.figure.show(h.opts.ramWaitCommit))
  }

  /** The host figures, the cards and the rest of the holder's own flags. */
  function CardLine(c: Codecs, h: Hold): Line {
    Then(Then(Then(Then(Then(FigurePart(c, h),
      h.auto.Some?, CARDS, CardsOf(h).cards),
      h.auto.Some?, VRAM, c.figure.show(CardsOf(h).vram)),
      h.auto.None? && 0 < |h.opts.devices|, DEVICES, T.Join(h.opts.devices)),
      Given(h.opts.group), GROUP, h.opts.group),
      Given(h.config), CONFIG, h.config)
  }

  function HoldLine(c: Codecs, h: Hold): Line {
    Then(Append(Append(LeaseLine(c, h), CardLine(c, h)), OwnerLine(c, h.opts)),
      h.releaseAtExpiry, RELEASE_AT_EXPIRY, ON)
  }

  method LeaseArgs(c: Codecs, h: Hold) returns (args: seq<string>)
    ensures args == Argv(LeaseLine(c, h))
  {
    args := AddIf(true, [], CLASS, h.kind, Nothing);
    ghost var l := Then(Nothing, true, CLASS, h.kind);
    args := AddIf(true, args, FOR, c.period.show(h.dur), l);
    l := Then(l, true, FOR, c.period.show(h.dur));
    args := AddIf(true, args, WAIT, c.period.show(h.wait), l);
    l := Then(l, true, WAIT, c.period.show(h.wait));
    args := AddIf(true, args, REASON, h.opts.reason, l);
    l := Then(l, true, REASON, h.opts.reason);
    args := AddIf(true, args, ORIGIN, h.opts.origin, l);
    l := Then(l, true, ORIGIN, h.opts.origin);
    args := AddIf(h.opts.exclusive, args, EXCLUSIVE, ON, l);
    l := Then(l, h.opts.exclusive, EXCLUSIVE, ON);
    args := AddIf(h.opts.draining, args, DRAINING, ON, l);
  }

  method CardArgs(c: Codecs, h: Hold) returns (args: seq<string>)
    ensures args == Argv(CardLine(c, h))
  {
    var ram, commit := h.opts.ram, h.opts.ramCommit;
    if h.auto.Some? {
      ram, commit := h.auto.value.ram, h.auto.value.ramCommit;
    }
    args := AddIf(true, [], RAM, c.figure.show(ram), Nothing);
    ghost var l := Then(Nothing, true, RAM, c.figure.show(ram));
    args := AddIf(0.0 < commit, args, RAM_COMMIT, c.figure.show(commit), l);
    l := Then(l, 0.0 < commit, RAM_COMMIT, c.figure.show(commit));
    args := AddIf(0.0 < h.opts.ramWait, args, RAM_WAIT, c.figure.show(h.opts.ramWait), l);
    l := Then(l, 0.0 < h.opts.ramWait, RAM_WAIT, c.figure.show(h.opts.ramWait));
    args := AddIf(0.0 < h.opts.ramWaitCommit, args, RAM_WAIT_COMMIT, c.figure.show(h.opts.ramWaitCommit), l);
    l := Then(l, 0.0 < h.opts.ramWaitCommit, RAM_WAIT_COMMIT, c.figure.show(h.opts.ramWaitCommit));
    var auto := CardsOf(h);
    args := AddIf(h.auto.Some?, args, CARDS, auto.cards, l);
    l := Then(l, h.auto.Some?, CARDS, auto.cards);
    args := AddIf(h.auto.Some?, args, VRAM, c.figure.show(auto.vram), l);
    l := Then(l, h.auto.Some?, VRAM, c.figure.show(auto.vram));
    args := AddIf(h.auto.None? && 0 < |h.opts.devices|, args, DEVICES, T.Join(h.opts.devices), l);
    l := Then(l, h.auto.None? && 0 < |h.opts.devices|, DEVICES, T.Join(h.opts.devices));
    args := AddIf(Given(h.opts.group), args, GROUP, h.opts.group, l);
    l := Then(l, Given(h.opts.group), GROUP, h.opts.group);
    args := AddIf(Given(h.config), args, CONFIG, h.config, l);
  }

  /** The argv of the hidden holder, after its two verbs. */
  method DetachHoldArgs(c: Codecs, h: Hold) returns (args: seq<string>)
    ensures args == ["gpu", "hold"] + Argv(HoldLine(c, h))
  {
    var lease := LeaseArgs(c, h);
    var cards := CardArgs(c, h);
    var owner := OwnerHoldArgs(c, h.opts);
    AppendedLine(c, LeaseLine(c, h), CardLine(c, h));
    AppendedLine(c, Append(LeaseLine(c, h), CardLine(c, h)), OwnerLine(c, h.opts));
    args := AddIf(h.releaseAtExpiry, lease + cards + owner, RELEASE_AT_EXPIRY, ON,
                  Append(Append(LeaseLine(c, h), CardLine(c, h)), OwnerLine(c, h.opts)));
    args := ["gpu", "hold"] + args;
  }

  // ---- Reading it back ----

  function Word(sets: seq<Setting<Name>>, n: Name, fallback: string): string {
    if Last(sets, n).Some? then Last(sets, n).value else fallback
  }

  predicate On(sets: seq<Setting<Name>>, n: Name) { Last(sets, n).Some? && SaysTrue(Last(sets, n).value) }

  function Value<X>(sets: seq<Setting<Name>>, n: Name, parse: string -> Option<X>, fallback: X): X {
    if Last(sets, n).Some? && parse(Last(sets, n).value).Some? then parse(Last(sets, n).value).value else fallback
  }

  /** A switch is on if it was last set to one of six words, whatever stands for the other flags; off if it was not
      set. */
  lemma ASwitchIsAsLastSaid(sets: seq<Setting<Name>>, m: Name, n: Name, value: string)
    ensures !On([], n)
    ensures On(sets + [Setting(m, value)], n) <==>
            if m == n then value in {"1", "t", "T", "true", "TRUE", "True"} else On(sets, n)
  {
    var all := sets + [Setting(m, value)];
    assert all[|all| - 1] == Setting(m, value) && all[..|all| - 1] == sets;
  }

  function AtLeastZero(x: real): real { if x < 0.0 then 0.0 else x }

  /** The owner of a lease: flags win, the environment supplies a session only. */
  function ResolveOwner(session: string, pid: int, startMs: int, remote: bool, env: string): Owner {
    var named := T.TrimSpace(session);
    Owner(if named == "" && !remote then T.TrimSpace(env) else named,
          if pid <= 0 then 0 else pid, if pid <= 0 then 0 else startMs, remote)
  }

  /** What the hidden holder makes of its flags; env is the session its environment names, abs resolves a path. */
  function Receive(c: Codecs, sets: seq<Setting<Name>>, env: string, abs: string -> string): Hold {
    var devices := Word(sets, DEVICES, "");
    var cards := Word(sets, CARDS, "");
    var progress := T.TrimSpace(Word(sets, PROGRESS_FILE, ""));
    var ram, commit := Value(sets, RAM, c.figure.parse, 0.0), Value(sets, RAM_COMMIT, c.figure.parse, 0.0);
    var owner := ResolveOwner(Word(sets, OWNER_SESSION, ""), Value(sets, OWNER_PID, c.number.parse, 0),
                              Value(sets, OWNER_START_MS, c.number.parse, 0), On(sets, OWNER_REMOTE), env);
    var opts := Options(
      Word(sets, REASON, ""), Word(sets, ORIGIN, ""), On(sets, EXCLUSIVE), On(sets, DRAINING),
      AtLeastZero(ram), AtLeastZero(commit),
      AtLeastZero(Value(sets, RAM_WAIT, c.figure.parse, 0.0)),
      AtLeastZero(Value(sets, RAM_WAIT_COMMIT, c.figure.parse, 0.0)),
      if T.TrimSpace(devices) != "" then T.Split(devices) else [], T.TrimSpace(Word(sets, GROUP, "")),
      owner, On(sets, UNATTENDED), if progress != "" && !T.EqualFold(progress, "auto") then abs(progress) else "",
      Value(sets, STALL, c.period.parse, 0), Value(sets, YIELD_GRACE, c.period.parse, 0),
      T.TrimSpace(Word(sets, ON_YIELD, "")));
    var auto := Auto(cards, Value(sets, VRAM, c.figure.parse, 0.0), ram, commit);
    Hold(Word(sets, CLASS, "text"), Value(sets, FOR, c.period.parse, 45 * 60_000),
         Value(sets, WAIT, c.period.parse, 0), opts, if T.TrimSpace(cards) != "" then Some(auto) else None,
         Word(sets, CONFIG, ""), On(sets, RELEASE_AT_EXPIRY))
  }

  /** A holder that is told nothing: a text lease of 45 minutes on the whole node that waits for nobody. */
  lemma NothingSaidIsTheDefault(c: Codecs, env: string, abs: string -> string)
    ensures var h := Receive(c, [], env, abs);
            && h.kind == "text" && h.dur == 45 * 60_000 && h.wait == 0 && h.auto.None? && h.config == ""
            && !h.releaseAtExpiry
            && h.opts == Options("", "", false, false, 0.0, 0.0, 0.0, 0.0, [], "", Owner(T.TrimSpace(env), 0, 0, false),
                                 false, "", 0, 0, "")
  {}

  // ---- The round trip ----

  function If(cond: bool, s: string): Option<string> { if cond then Some(s) else None }

  function Says(c: Codecs, h: Hold, n: Name): Option<string> {
    var o := h.opts;
    var w := o.owner;
    if n == CLASS then Some(h.kind)
    else if n == FOR then Some(c.period.show(h.dur))
    else if n == WAIT then Some(c.period.show(h.wait))
    else if n == REASON then Some(o.reason)
    else if n == ORIGIN then Some(o.origin)
    else if n == EXCLUSIVE then If(o.exclusive, ON)
    else if n == DRAINING then If(o.draining, ON)
    else if n == RAM then Some(c.figure.show(RamOf(h)))
    else if n == RAM_COMMIT then If(0.0 < CommitOf(h), c.figure.show(CommitOf(h)))
    else if n == RAM_WAIT then If(0.0 < o.ramWait, c.figure.show(o.ramWait))
    else if n == RAM_WAIT_COMMIT then If(0.0 < o.ramWaitCommit, c.figure.show(o.ramWaitCommit))
    else if n == CARDS then If(h.auto.Some?, CardsOf(h).cards)
    else if n == VRAM then If(h.auto.Some?, c.figure.show(CardsOf(h).vram))
    else if n == DEVICES then If(h.auto.None? && 0 < |o.devices|, T.Join(o.devices))
    else if n == GROUP then If(Given(o.group), o.group)
    else if n == CONFIG then If(Given(h.config), h.config)
    else if n == OWNER_SESSION then If(Given(w.session), w.session)
    else if n == OWNER_PID then If(0 < w.pid, c.number.show(w.pid))
    else if n == OWNER_START_MS then If(0 < w.pid && w.startMs != 0, c.number.show(w.startMs))
    else if n == OWNER_REMOTE then If(w.remote, ON)
    else if n == UNATTENDED then If(o.unattended, ON)
    else if n == PROGRESS_FILE then If(Given(o.progressFile), o.progressFile)
    else if n == STALL then If(Given(o.progressFile), c.period.show(o.stall))
    else if n == YIELD_GRACE then If(0 < o.yieldGrace, c.period.show(o.yieldGrace))
    else if n == ON_YIELD then If(Given(o.onYield), o.onYield)
    else If(h.releaseAtExpiry, ON)
  }

  /** The line is made of the flags from i to j, and says of each what the parent has. */
  predicate Covers(c: Codecs, h: Hold, l: Line, i: nat, j: nat) {
    match l
    case Nothing => i == j
    case Then(before, there, n, value) =>
      i < j && n == j - 1 && Says(c, h, n) == If(there, value) && Covers(c, h, before, i, j - 1)
  }

  lemma OneMore(c: Codecs, h: Hold, l: Line, i: nat, j: nat, there: bool, n: Name, value: string) returns (l': Line)
    requires i <= j && Covers(c, h, l, i, j) && n == j && Says(c, h, n) == If(there, value)
    ensures l' == Then(l, there, n, value) && Covers(c, h, l', i, j + 1)
  {
    l' := Then(l, there, n, value);
  }

  lemma {:induction false} CoveredLooks(c: Codecs, h: Hold, l: Line, i: nat, j: nat, n: Name)
    requires Covers(c, h, l, i, j)
    ensures Lookup(l, n) == if i <= n < j then Says(c, h, n) else None
    decreases l
  {
    if l.Then? {
      CoveredLooks(c, h, l.before, i, j - 1, n);
    }
  }

  lemma LeaseCovers(c: Codecs, h: Hold)
    ensures Covers(c, h, LeaseLine(c, h), 0, 7)
  {
    var l := Nothing;
    l := OneMore(c, h, l, 0, 0, true, CLASS, h.kind);
    l := OneMore(c, h, l, 0, 1, true, FOR, c.period.show(h.dur));
    l := OneMore(c, h, l, 0, 2, true, WAIT, c.period.show(h.wait));
    l := OneMore(c, h, l, 0, 3, true, REASON, h.opts.reason);
    l := OneMore(c, h, l, 0, 4, true, ORIGIN, h.opts.origin);
    l := OneMore(c, h, l, 0, 5, h.opts.exclusive, EXCLUSIVE, ON);
    l := OneMore(c, h, l, 0, 6, h.opts.draining, DRAINING, ON);
  }

  lemma FigureCovers(c: Codecs, h: Hold)
    ensures Covers(c, h, FigurePart(c, h), 7, 11)
  {
    var l := Nothing;
    l := OneMore(c, h, l, 7, 7, true, RAM, c.figure.show(RamOf(h)));
    l := OneMore(c, h, l, 7, 8, 0.0 < CommitOf(h), RAM_COMMIT, c.figure.show(CommitOf(h)));
    l := OneMore(c, h, l, 7, 9, 0.0 < h.opts.ramWait, RAM_WAIT, c.figure.show(h.opts.ramWait));
    l := OneMore(c, h, l, 7, 10, 0.0 < h.opts.ramWaitCommit, RAM_WAIT_COMMIT, c.figure.show(h.opts.ramWaitCommit));
  }

  lemma CardCovers(c: Codecs, h: Hold)
    ensures Covers(c, h, CardLine(c, h), 7, 16)
  {
    FigureCovers(c, h);
    var l := FigurePart(c, h);
    l := OneMore(c, h, l, 7, 11, h.auto.Some?, CARDS, CardsOf(h).cards);
    l := OneMore(c, h, l, 7, 12, h.auto.Some?, VRAM, c.figure.show(CardsOf(h).vram));
    l := OneMore(c, h, l, 7, 13, h.auto.None? && 0 < |h.opts.devices|, DEVICES, T.Join(h.opts.devices));
    l := OneMore(c, h, l, 7, 14, Given(h.opts.group), GROUP, h.opts.group);
    l := OneMore(c, h, l, 7, 15, Given(h.config), CONFIG, h.config);
  }

  lemma OwnerPartCovers(c: Codecs, h: Hold)
    ensures Covers(c, h, OwnerPart(c, h.opts.owner), 16, 20)
  {
    var w := h.opts.owner;
    var l := Nothing;
    l := OneMore(c, h, l, 16, 16, Given(w.session), OWNER_SESSION, w.session);
    l := OneMore(c, h, l, 16, 17, 0 < w.pid, OWNER_PID, c.number.show(w.pid));
    l := OneMore(c, h, l, 16, 18, 0 < w.pid && w.startMs != 0, OWNER_START_MS, c.number.show(w.startMs));
    l := OneMore(c, h, l, 16, 19, w.remote, OWNER_REMOTE, ON);
  }

  lemma OwnerCovers(c: Codecs, h: Hold)
    ensures Covers(c, h, OwnerLine(c, h.opts), 16, 25)
  {
    var o := h.opts;
    OwnerPartCovers(c, h);
    var l := OwnerPart(c, o.owner);
    l := OneMore(c, h, l, 16, 20, o.unattended, UNATTENDED, ON);
    l := OneMore(c, h, l, 16, 21, Given(o.progressFile), PROGRESS_FILE, o.progressFile);
    l := OneMore(c, h, l, 16, 22, Given(o.progressFile), STALL, c.period.show(o.stall));
    l := OneMore(c, h, l, 16, 23, 0 < o.yieldGrace, YIELD_GRACE, c.period.show(o.yieldGrace));
    l := OneMore(c, h, l, 16, 24, Given(o.onYield), ON_YIELD, o.onYield);
  }

  /** Every flag of the argv says what the parent has, and no other flag is there. */
  lemma HoldLooks(c: Codecs, h: Hold, n: Name)
    ensures Lookup(HoldLine(c, h), n) == Says(c, h, n)
  {
    LeaseCovers(c, h);
    CardCovers(c, h);
    OwnerCovers(c, h);
    CoveredLooks(c, h, LeaseLine(c, h), 0, 7, n);
    CoveredLooks(c, h, CardLine(c, h), 7, 16, n);
    CoveredLooks(c, h, OwnerLine(c, h.opts), 16, 25, n);
    AppendedLine(c, LeaseLine(c, h), CardLine(c, h));
    AppendedLine(c, Append(LeaseLine(c, h), CardLine(c, h)), OwnerLine(c, h.opts));
  }

  lemma {:induction false} CoveredPrints(c: Codecs, h: Hold, l: Line, i: nat, j: nat)
    requires Inverse(c) && Covers(c, h, l, i, j)
    ensures AllPrintable(c, l)
    decreases l
  {
    if l.Then? {
      CoveredPrints(c, h, l.before, i, j - 1);
    }
  }

  lemma HoldReadsBack(c: Codecs, h: Hold) returns (sets: seq<Setting<Name>>)
    requires Inverse(c)
    ensures Parse(HoldDefs(c), Argv(HoldLine(c, h))) == Parsed(sets, []) && Told(c, h, sets)
  {
    LeaseCovers(c, h);
    CardCovers(c, h);
    OwnerCovers(c, h);
    CoveredPrints(c, h, LeaseLine(c, h), 0, 7);
    CoveredPrints(c, h, CardLine(c, h), 7, 16);
    CoveredPrints(c, h, OwnerLine(c, h.opts), 16, 25);
    AppendedLine(c, LeaseLine(c, h), CardLine(c, h));
    AppendedLine(c, Append(LeaseLine(c, h), CardLine(c, h)), OwnerLine(c, h.opts));
    LineReadsBack(c, HoldLine(c, h));
    sets := Sets(HoldLine(c, h));
    forall n ensures Last(sets, n) == Says(c, h, n) {
      HoldLooks(c, h, n);
    }
  }

  /** Every flag was set to what the parent has, and no other was set. */
  ghost predicate Told(c: Codecs, h: Hold, sets: seq<Setting<Name>>) {
    forall n :: Last(sets, n) == Says(c, h, n)
  }

  lemma ToldLease(c: Codecs, h: Hold, sets: seq<Setting<Name>>)
    requires Inverse(c) && Told(c, h, sets)
    ensures Word(sets, CLASS, "text") == h.kind && Word(sets, REASON, "") == h.opts.reason
              && Word(sets, ORIGIN, "") == h.opts.origin
    ensures Value(sets, FOR, c.period.parse, 45 * 60_000) == h.dur && Value(sets, WAIT, c.period.parse, 0) == h.wait
    ensures On(sets, EXCLUSIVE) == h.opts.exclusive && On(sets, DRAINING) == h.opts.draining
    ensures On(sets, RELEASE_AT_EXPIRY) == h.releaseAtExpiry
  {}

  function PositivePart(x: real): real { if 0.0 < x then x else 0.0 }

  lemma ToldFigures(c: Codecs, h: Hold, sets: seq<Setting<Name>>)
    requires Inverse(c) && Told(c, h, sets)
    ensures Value(sets, RAM, c.figure.parse, 0.0) == RamOf(h)
    ensures Value(sets, RAM_COMMIT, c.figure.parse, 0.0) == PositivePart(CommitOf(h))
    ensures Value(sets, RAM_WAIT, c.figure.parse, 0.0) == PositivePart(h.opts.ramWait)
    ensures Value(sets, RAM_WAIT_COMMIT, c.figure.parse, 0.0) == PositivePart(h.opts.ramWaitCommit)
    ensures Value(sets, VRAM, c.figure.parse, 0.0) == if h.auto.Some? then CardsOf(h).vram else 0.0
  {}

  lemma ToldCards(c: Codecs, h: Hold, sets: seq<Setting<Name>>)
    requires Told(c, h, sets)
    ensures Word(sets, CARDS, "") == CardsOf(h).cards
    ensures Word(sets, DEVICES, "") == if h.auto.None? then T.Join(h.opts.devices) else ""
    ensures Word(sets, GROUP, "") == h.opts.group && Word(sets, CONFIG, "") == h.config
  {}

  lemma ToldOwner(c: Codecs, h: Hold, sets: seq<Setting<Name>>)
    requires Inverse(c) && Told(c, h, sets)
    ensures var w := h.opts.owner;
            && Word(sets, OWNER_SESSION, "") == w.session && On(sets, OWNER_REMOTE) == w.remote
            && Value(sets, OWNER_PID, c.number.parse, 0) == (if 0 < w.pid then w.pid else 0)
            && Value(sets, OWNER_START_MS, c.number.parse, 0) == (if 0 < w.pid then w.startMs else 0)
  {}

  lemma ToldContract(c: Codecs, h: Hold, sets: seq<Setting<Name>>)
    requires Inverse(c) && Told(c, h, sets)
    ensures On(sets, UNATTENDED) == h.opts.unattended && Word(sets, PROGRESS_FILE, "") == h.opts.progressFile
    ensures Value(sets, STALL, c.period.parse, 0) == if Given(h.opts.progressFile) then h.opts.stall else 0
    ensures Value(sets, YIELD_GRACE, c.period.parse, 0) == if 0 < h.opts.yieldGrace then h.opts.yieldGrace else 0
    ensures Word(sets, ON_YIELD, "") == h.opts.onYield
  {}

  // ---- Exactly the options that survive ----

  predicate FaithfulOwner(w: Owner, env: string) {
    && T.Trimmed(w.session) && 0 <= w.pid && (w.pid == 0 ==> w.startMs == 0)
    // with no session of its own, a local owner gets the child's: the environment must name none either
    && (w.session == "" && !w.remote ==> T.Blank(env))
  }

  predicate FaithfulFigures(h: Hold) {
    && 0.0 <= h.opts.ramWait && 0.0 <= h.opts.ramWaitCommit
    && (h.auto.None? ==> 0.0 <= h.opts.ram && 0.0 <= h.opts.ramCommit)
    // an allocated request's copy of the figures is the lease's own
    && (h.auto.Some? ==>
          && h.opts.ram == AtLeastZero(h.auto.value.ram)
          && h.opts.ramCommit == h.auto.value.ramCommit && 0.0 <= h.auto.value.ramCommit)
  }

  predicate FaithfulCards(h: Hold) {
    if h.auto.Some? then h.opts.devices == [] && !T.Blank(h.auto.value.cards)
    else || h.opts.devices == []
         || ((forall d :: d in h.opts.devices ==> T.CommaFree(d)) && !T.Blank(T.Join(h.opts.devices)))
  }

  predicate FaithfulContract(o: Options, abs: string -> string) {
    && 0 <= o.yieldGrace && T.Trimmed(o.onYield)
    && (if o.progressFile == "" then o.stall == 0
        else
          var p := T.TrimSpace(o.progressFile);
          p != "" && !T.EqualFold(p, "auto") && abs(p) == o.progressFile)
  }

  predicate Faithful(h: Hold, env: string, abs: string -> string) {
    && FaithfulOwner(h.opts.owner, env) && FaithfulFigures(h) && FaithfulCards(h) && T.Trimmed(h.opts.group)
    && FaithfulContract(h.opts, abs)
  }

  lemma OwnerSurvives(c: Codecs, h: Hold, sets: seq<Setting<Name>>, env: string, abs: string -> string)
    requires Inverse(c) && Told(c, h, sets)
    ensures Receive(c, sets, env, abs).opts.owner == h.opts.owner <==> FaithfulOwner(h.opts.owner, env)
  {
    ToldOwner(c, h, sets);
    T.TrimmedIffFixed(h.opts.owner.session);
    T.TrimSpaceIsTrimmed(env);
    T.TrimSpaceBlank(env);
  }

  lemma CardsSurvive(c: Codecs, h: Hold, sets: seq<Setting<Name>>, env: string, abs: string -> string)
    requires Inverse(c) && Told(c, h, sets)
    ensures var r := Receive(c, sets, env, abs);
            r.opts.devices == h.opts.devices && r.auto == h.auto
            <==> FaithfulCards(h) && (h.auto.Some? ==> 0.0 <= h.auto.value.ramCommit)
  {
    ToldCards(c, h, sets);
    ToldFigures(c, h, sets);
    T.TrimSpaceBlank(CardsOf(h).cards);
    T.TrimSpaceBlank(T.Join(h.opts.devices));
    T.SplitJoin(h.opts.devices);
  }

  lemma FiguresSurvive(c: Codecs, h: Hold, sets: seq<Setting<Name>>, env: string,
                                          abs: string -> string)
    requires Inverse(c) && Told(c, h, sets) && (h.auto.Some? ==> 0.0 <= h.auto.value.ramCommit)
    ensures var (r, o) := (Receive(c, sets, env, abs).opts, h.opts);
            r.ram == o.ram && r.ramCommit == o.ramCommit && r.ramWait == o.ramWait && r.ramWaitCommit == o.ramWaitCommit
            <==> FaithfulFigures(h)
  {
    ToldFigures(c, h, sets);
  }

  lemma ContractSurvives(c: Codecs, h: Hold, sets: seq<Setting<Name>>, env: string,
                                            abs: string -> string)
    requires Inverse(c) && Told(c, h, sets)
    ensures var (r, o) := (Receive(c, sets, env, abs).opts, h.opts);
            && r.unattended == o.unattended
            && (r.progressFile == o.progressFile && r.stall == o.stall && r.yieldGrace == o.yieldGrace
                 && r.onYield == o.onYield
                <==> FaithfulContract(o, abs))
  {
    ToldContract(c, h, sets);
    T.TrimmedIffFixed(h.opts.onYield);
  }

  lemma LeaseSurvives(c: Codecs, h: Hold, sets: seq<Setting<Name>>, env: string, abs: string -> string)
    requires Inverse(c) && Told(c, h, sets)
    ensures var (r, o) := (Receive(c, sets, env, abs), h.opts);
            && r.kind == h.kind && r.dur == h.dur && r.wait == h.wait && r.config == h.config
            && r.releaseAtExpiry == h.releaseAtExpiry
            && r.opts.reason == o.reason && r.opts.origin == o.origin
            && r.opts.exclusive == o.exclusive && r.opts.draining == o.draining
            && (r.opts.group == o.group <==> T.Trimmed(o.group))
  {
    ToldLease(c, h, sets);
    ToldCards(c, h, sets);
    T.TrimmedIffFixed(h.opts.group);
  }

  /** The hidden holder reads back exactly what its parent has, whatever the reason, the origin or any other
      value looks like, precisely when the options are ones the encoding keeps. */
  lemma HolderReadsWhatTheParentHas(c: Codecs, h: Hold, env: string, abs: string -> string)
    requires Inverse(c)
    ensures var p := Parse(HoldDefs(c), Argv(HoldLine(c, h)));
            p.Parsed? && p.rest == [] && (Receive(c, p.sets, env, abs) == h <==> Faithful(h, env, abs))
  {
    var sets := HoldReadsBack(c, h);
    LeaseSurvives(c, h, sets, env, abs);
    OwnerSurvives(c, h, sets, env, abs);
    CardsSurvive(c, h, sets, env, abs);
    if h.auto.Some? ==> 0.0 <= h.auto.value.ramCommit {
      FiguresSurvive(c, h, sets, env, abs);
    }
    ContractSurvives(c, h, sets, env, abs);
  }

  // ---- The options a reserve can have ----

  /** The contract flags as the operator typed them. */
  datatype ContractFlags = ContractFlags(unattended: bool, progressFile: string, stall: int, yieldGrace: int,
                                         onYield: string)

  predicate Minted(f: ContractFlags) { T.EqualFold(T.TrimSpace(f.progressFile), "auto") }

  predicate NamesFile(f: ContractFlags) { T.TrimSpace(f.progressFile) != "" && !Minted(f) }

  const MAX_ON_YIELD := 4096

  /** The bounded-claim contract: an unattended lease declares its window, its file and its stall; a file and
      a stall come together; a command too long to record whole is refused. */
  predicate Validates(f: ContractFlags, forGiven: bool) {
    && (f.unattended ==> forGiven && NamesFile(f) && 0 < f.stall)
    && (NamesFile(f) ==> 0 < f.stall)
    && (0 < f.stall ==> NamesFile(f) || Minted(f))
    && |T.TrimSpace(f.onYield)| <= MAX_ON_YIELD
  }

  /** What a contract is refused for: an unattended lease without its window, its file or its stall; a file without a
      stall; a stall without a file or one to mint; a command too long to record. */
  lemma WhatAContractIsRefusedFor(f: ContractFlags, forGiven: bool)
    ensures var file := T.TrimSpace(f.progressFile);
            var minted := T.Lower(file) == T.Lower("auto");
            !Validates(f, forGiven) <==>
              || (f.unattended && (!forGiven || file == "" || minted || f.stall <= 0))
              || (file != "" && !minted && f.stall <= 0)
              || (0 < f.stall && file == "" && !minted)
              || 4096 < |T.TrimSpace(f.onYield)|
  {}

  function ApplyContract(o: Options, f: ContractFlags, abs: string -> string): Options {
    o.(unattended := f.unattended,
       progressFile := if NamesFile(f) then abs(T.TrimSpace(f.progressFile)) else "",
       stall := f.stall, yieldGrace := f.yieldGrace, onYield := T.TrimSpace(f.onYield))
  }

  /** A resolved path: trimmed, not the word auto, and resolving to itself. */
  predicate Resolved(abs: string -> string, p: string) {
    p != "" && T.Trimmed(p) && !T.EqualFold(p, "auto") && abs(p) == p
  }

  /** A contract a detached reserve accepted (it refuses to mint a file) reaches the holder whole, except
      that a negative grace or a negative stall reads as none. */
  lemma AcceptedContractSurvives(o: Options, f: ContractFlags, forGiven: bool, abs: string -> string)
    requires Validates(f, forGiven) && !Minted(f)
    requires NamesFile(f) ==> Resolved(abs, abs(T.TrimSpace(f.progressFile)))
    ensures FaithfulContract(ApplyContract(o, f, abs), abs)
         <==> 0 <= f.yieldGrace && (NamesFile(f) || 0 <= f.stall)
  {
    T.TrimSpaceIsTrimmed(f.onYield);
    if NamesFile(f) {
      T.TrimmedIsFixed(abs(T.TrimSpace(f.progressFile)));
    }
  }
}
