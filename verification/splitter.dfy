/** The positional splitter in front of flag.Parse: positionals may stand before, between and after the
    flags, and the order the program wants is restored. */
module Splitter {
  import opened Common
  import opened Flags

  predicate EndsFlags(tok: string, ended: bool) { !ended && tok == "--" }

  predicate IsFlagArg(tok: string, ended: bool) { !ended && tok != "" && tok[0] == '-' && tok != "-" }

  function TrimDashes(tok: string): string {
    if tok != "" && tok[0] == '-' then TrimDashes(tok[1..]) else tok
  }

  predicate TakesNext(tok: string, valued: set<string>) {
    '=' !in TrimDashes(tok) && TrimDashes(tok) in valued
  }

  datatype Halves = Halves(pos: seq<string>, flags: seq<string>)

  function Width(args: seq<string>, valued: set<string>): (w: nat)
    requires args != []
    ensures 1 <= w <= |args|
  {
    if TakesNext(args[0], valued) && 1 < |args| then 2 else 1
  }

  /** What the splitter makes of args with free slots left, after or before the user's "--", with or
      without its own "--" in front of the overflow. */
  function Split(args: seq<string>, valued: set<string>, free: nat, ended: bool, fenced: bool): (h: Halves)
    ensures |h.pos| <= free
    decreases |args|
  {
    if args == [] then Halves([], [])
    else if EndsFlags(args[0], ended) then Split(args[1..], valued, free, true, fenced)
    else if IsFlagArg(args[0], ended) then
      var w := Width(args, valued);
      var h := Split(args[w..], valued, free, ended, fenced);
      Halves(h.pos, args[..w] + h.flags)
    else if 0 < free then
      var h := Split(args[1..], valued, if args[0] == "" then free else free - 1, ended, fenced);
      Halves((if args[0] == "" then [] else [args[0]]) + h.pos, h.flags)
    else
      var h := Split(args[1..], valued, 0, ended, fenced || ended);
      Halves(h.pos, (if ended && !fenced then ["--"] else []) + [args[0]] + h.flags)
  }

  function Blanks(k: nat): (s: seq<string>)
    ensures |s| == k && forall i :: 0 <= i < k ==> s[i] == ""
  {
    if k == 0 then [] else Blanks(k - 1) + [""]
  }

  /** What is split so far, before what is left to split, is the whole. */
  predicate Splits(all: Halves, pos: seq<string>, flags: seq<string>, rest: Halves) {
    all.pos == pos + rest.pos && all.flags == flags + rest.flags
  }

  lemma SplitFlag(args: seq<string>, i: nat, valued: set<string>, free: nat, fenced: bool,
                  all: Halves, pos: seq<string>, flags: seq<string>)
    requires i < |args| && Splits(all, pos, flags, Split(args[i..], valued, free, false, fenced))
    requires IsFlagArg(args[i], false) && args[i] != "--"
    ensures if TakesNext(args[i], valued) && i + 1 < |args|
            then Splits(all, pos, flags + [args[i]] + [args[i + 1]], Split(args[i + 2..], valued, free, false, fenced))
            else Splits(all, pos, flags + [args[i]], Split(args[i + 1..], valued, free, false, fenced))
  {
    var rest := args[i..];
    if Width(rest, valued) == 2 {
      assert rest[2..] == args[i + 2..] && rest[..2] == [args[i]] + [args[i + 1]];
    } else {
      assert rest[1..] == args[i + 1..] && rest[..1] == [args[i]];
    }
  }

  lemma SplitWord(args: seq<string>, i: nat, valued: set<string>, free: nat, ended: bool, fenced: bool,
                  all: Halves, pos: seq<string>, flags: seq<string>)
    requires i < |args| && Splits(all, pos, flags, Split(args[i..], valued, free, ended, fenced))
    requires !IsFlagArg(args[i], ended)
    ensures if 0 < free
            then Splits(all, if args[i] == "" then pos else pos + [args[i]], flags,
                        Split(args[i + 1..], valued, if args[i] == "" then free else free - 1, ended, fenced))
            else Splits(all, pos, flags + ((if ended && !fenced then ["--"] else []) + [args[i]]),
                        Split(args[i + 1..], valued, 0, ended, fenced || ended))
  {
    var rest := args[i..];
    assert rest[0] == args[i] && rest[1..] == args[i + 1..];
  }

  /** The splitter's loop: always n slots. */
  method SplitPositionals(args: seq<string>, valued: set<string>, n: nat) returns (pos: seq<string>, flags: seq<string>)
    ensures var h := Split(args, valued, n, false, false);
            flags == h.flags && pos == h.pos + Blanks(n - |h.pos|) && |pos| == n
  {
    ghost var all := Split(args, valued, n, false, false);
    pos, flags := [], [];
    var ended, fenced := false, false;
    var i := 0;
    assert args[0..] == args;
    while i < |args|
      invariant i <= |args| && |pos| <= n
      invariant Splits(all, pos, flags, Split(args[i..], valued, n - |pos|, ended, fenced))
    {
      var a := args[i];
      assert args[i..][0] == a && args[i..][1..] == args[i + 1..];
      if !IsFlagArg(a, ended) {
        SplitWord(args, i, valued, n - |pos|, ended, fenced, all, pos, flags);
      } else if a != "--" {
        SplitFlag(args, i, valued, n - |pos|, fenced, all, pos, flags);
      }
      i := i + 1;
      if EndsFlags(a, ended) {
        ended := true;
      } else if IsFlagArg(a, ended) {
        flags := flags + [a];
        var name := TrimDashes(a);
        if '=' !in name && name in valued && i < |args| {
          flags := flags + [args[i]];
          i := i + 1;
        }
      } else if |pos| < n {
        if a != "" {
          pos := pos + [a];
        }
      } else {
        flags, fenced := OverflowArg(flags, a, ended, fenced);
      }
    }
    ghost var found := pos;
    assert found == all.pos;
    while |pos| < n
      invariant |found| <= |pos| <= n && pos == found + Blanks(|pos| - |found|)
    {
      pos := pos + [""];
    }
  }

  /** Hand a positional without a slot on to the flags, behind a "--" of the splitter's own if it comes
      after the user's. */
  method OverflowArg(flags: seq<string>, tok: string, ended: bool, fenced: bool)
    returns (flags': seq<string>, fenced': bool)
    ensures flags' == flags + ((if ended && !fenced then ["--"] else []) + [tok])
    ensures fenced' == (fenced || ended)
  {
    flags', fenced' := flags, fenced;
    if ended && !fenced {
      flags' := flags' + ["--"];
      fenced' := true;
    }
    flags' := flags' + [tok];
  }

  // ---- What splitting and then parsing means ----

  datatype Meaning<F> =
    | Done(sets: seq<Setting<F>>, pos: seq<string>, overflows: bool)
    | Refused(sets: seq<Setting<F>>)

  /** The positionals of a tail nothing of which is a flag: the first free words, empty ones skipped. */
  function Words(args: seq<string>, free: nat): seq<string> {
    if args == [] || free == 0 then []
    else if args[0] == "" then Words(args[1..], free)
    else [args[0]] + Words(args[1..], free - 1)
  }

  /** Some token finds every slot taken. */
  predicate Overflows(args: seq<string>, free: nat) {
    args != [] && (free == 0 || Overflows(args[1..], if args[0] == "" then free else free - 1))
  }

  /** The command line as it reads, left to right: flags and positionals in any order, "--" ends the flags,
      and so does a positional too many. */
  function Read<F>(d: Defs<F>, args: seq<string>, free: nat): (m: Meaning<F>)
    decreases |args|
  {
    if args == [] then Done([], [], false)
    else if args[0] == "--" then Done([], Words(args[1..], free), Overflows(args[1..], free))
    else if LooksLikeFlag(args[0]) then
      match ParseOne(d, args[0], NextOf(args))
      case Bad => Refused([])
      case Took(s, usesNext) =>
        var m := Read(d, if usesNext && 1 < |args| then args[2..] else args[1..], free);
        m.(sets := [s] + m.sets)
    else if free == 0 then Done([], [], true)
    else
      var m := Read(d, args[1..], if args[0] == "" then free else free - 1);
      if m.Done? && args[0] != "" then m.(pos := [args[0]] + m.pos) else m
  }

  /** The splitter's table names exactly the flags that take a value. */
  ghost predicate Matches<F>(d: Defs<F>, valued: set<string>) {
    forall s :: s in valued <==> d.named(s).Some? && !d.isSwitch(d.named(s).value)
  }

  lemma TrimmedIsTheName(tok: string)
    requires LooksLikeFlag(tok) && (NameOf(tok) == "" || NameOf(tok)[0] != '-')
    ensures TrimDashes(tok) == NameOf(tok)
  {
    assert TrimDashes(tok) == TrimDashes(tok[1..]);
    if tok[1] == '-' {
      assert tok[1..][1..] == tok[2..];
      assert TrimDashes(tok[1..]) == TrimDashes(tok[2..]);
    }
  }

  /** Where the flag package accepts a flag, the splitter agrees on whether it takes the next token. */
  lemma SameWidth<F(!new)>(d: Defs<F>, valued: set<string>, args: seq<string>)
    requires WellFormed(d) && Matches(d, valued) && args != [] && LooksLikeFlag(args[0]) && args[0] != "--"
    requires ParseOne(d, args[0], NextOf(args)).Took?
    ensures Width(args, valued) == if ParseOne(d, args[0], NextOf(args)).usesNext && 1 < |args| then 2 else 1
    ensures ParseOne(d, args[0], NextOf(args)).usesNext ==> 1 < |args|
  {
    var name := NameOf(args[0]);
    TrimmedIsTheName(args[0]);
    var at := EqualsFrom(name, 1);
    if at < |name| {
      assert name[at] == '=';
    } else {
      assert name[..at] == name;
    }
  }

  /** After the user's "--" the splitter's flags hold the overflow alone, behind a "--" of its own. */
  lemma {:induction false} SplitEnded(args: seq<string>, valued: set<string>, free: nat, fenced: bool)
    ensures var h := Split(args, valued, free, true, fenced);
            && h.pos == Words(args, free)
            && (h.flags != [] <==> Overflows(args, free))
            && (h.flags != [] && !fenced ==> 2 <= |h.flags| && h.flags[0] == "--")
    decreases |args|
  {
    if args != [] {
      if free == 0 {
        SplitEnded(args[1..], valued, 0, true);
      } else {
        SplitEnded(args[1..], valued, if args[0] == "" then free else free - 1, fenced);
      }
    }
  }

  /** A flag the flag package refuses is refused in the splitter's order too. */
  lemma BadStaysBad<F(!new)>(d: Defs<F>, valued: set<string>, args: seq<string>, flags: seq<string>)
    requires WellFormed(d) && Matches(d, valued) && args != [] && LooksLikeFlag(args[0]) && args[0] != "--"
    requires ParseOne(d, args[0], NextOf(args)).Bad?
    requires flags != [] && flags[0] == args[0]
    requires Width(args, valued) == 2 ==> 1 < |flags| && flags[1] == args[1]
    requires |args| == 1 ==> |flags| == 1
    ensures ParseOne(d, flags[0], NextOf(flags)).Bad?
  {
    var name := NameOf(args[0]);
    if name != "" && name[0] != '-' && name[0] != '=' {
      TrimmedIsTheName(args[0]);
      var at := EqualsFrom(name, 1);
      if at == |name| {
        assert name[..at] == name;
      }
    }
  }

  ghost predicate Means<F>(m: Meaning<F>, parsed: Outcome<F>, pos: seq<string>) {
    match m
    case Done(sets, words, overflows) =>
      parsed.Parsed? && parsed.sets == sets && pos == words && (parsed.rest != [] <==> overflows)
    case Refused(sets) => parsed == Failed(sets)
  }

  /** Splitting and then parsing means what the command line reads, left to right: the same flags set to the
      same values, the same positionals, a leftover argument exactly when a positional found no slot, and the
      same refusals after the same flags. No token after the user's "--" is read as a flag or its value. */
  lemma {:induction false} SplitThenParse<F(!new)>(d: Defs<F>, valued: set<string>, args: seq<string>, free: nat)
    requires WellFormed(d) && Matches(d, valued)
    ensures var h := Split(args, valued, free, false, false);
            Means(Read(d, args, free), Parse(d, h.flags), h.pos)
    ensures var (h, m) := (Split(args, valued, free, false, false), Read(d, args, free));
            match Parse(d, h.flags)
            case Parsed(sets, rest) => m == Done(sets, h.pos, rest != [])
            case Failed(sets) => m == Refused(sets)
    decreases |args|
  {
    if args == [] {
    } else if args[0] == "--" {
      SplitEnded(args[1..], valued, free, false);
    } else if LooksLikeFlag(args[0]) {
      FlagThenRest(d, valued, args, free);
    } else if free == 0 {
    } else {
      SplitThenParse(d, valued, args[1..], if args[0] == "" then free else free - 1);
    }
  }

  lemma FlagThenRest<F(!new)>(d: Defs<F>, valued: set<string>, args: seq<string>, free: nat)
    requires WellFormed(d) && Matches(d, valued) && args != [] && LooksLikeFlag(args[0]) && args[0] != "--"
    ensures var h := Split(args, valued, free, false, false);
            Means(Read(d, args, free), Parse(d, h.flags), h.pos)
    decreases |args|, 0
  {
    var w := Width(args, valued);
    var h := Split(args[w..], valued, free, false, false);
    var flags := args[..w] + h.flags;
    assert flags[0] == args[0];
    var one := ParseOne(d, args[0], NextOf(args));
    if one.Took? {
      SameWidth(d, valued, args);
      assert flags[w..] == h.flags;
      if one.usesNext { assert flags[1] == args[1]; }
      SplitThenParse(d, valued, args[w..], free);
    } else {
      BadStaysBad(d, valued, args, flags);
    }
  }

  /** Argument t is the user's "--": not a flag's value, and the first one. */
  predicate EndsAt(args: seq<string>, valued: set<string>, t: nat)
    decreases t
  {
    if |args| <= t then false
    else if args[0] == "--" then t == 0
    else
      var w := if IsFlagArg(args[0], false) then Width(args, valued) else 1;
      w <= t && EndsAt(args[w..], valued, t - w)
  }

  /** It is a "--", and any before it is the value of a flag that takes one. */
  lemma {:induction false} TheTerminatorIsTheFirst(args: seq<string>, valued: set<string>, t: nat, u: nat)
    requires EndsAt(args, valued, t) && u < t < |args| && args[u] == "--"
    ensures args[t] == "--" && 0 < u && IsFlagArg(args[u - 1], false) && TakesNext(args[u - 1], valued)
    decreases t
  {
    var w := if IsFlagArg(args[0], false) then Width(args, valued) else 1;
    TheTerminatorIsOne(args, valued, t);
    if w <= u {
      TheTerminatorIsTheFirst(args[w..], valued, t - w, u - w);
    }
  }

  lemma {:induction false} TheTerminatorIsOne(args: seq<string>, valued: set<string>, t: nat)
    requires EndsAt(args, valued, t)
    ensures t < |args| && args[t] == "--"
    decreases t
  {
    if args[0] != "--" {
      var w := if IsFlagArg(args[0], false) then Width(args, valued) else 1;
      TheTerminatorIsOne(args[w..], valued, t - w);
    }
  }

  /** A "--" that stands behind no such flag ends the flags, if none before it does. */
  lemma {:induction false} ATerminatorEndsTheFlags(args: seq<string>, valued: set<string>, u: nat) returns (t: nat)
    requires u < |args| && args[u] == "--"
    requires u == 0 || !(IsFlagArg(args[u - 1], false) && TakesNext(args[u - 1], valued))
    ensures t <= u && EndsAt(args, valued, t)
    decreases u
  {
    t := 0;
    if args[0] != "--" {
      var w := if IsFlagArg(args[0], false) then Width(args, valued) else 1;
      t := ATerminatorEndsTheFlags(args[w..], valued, u - w);
      t := t + w;
    }
  }

  /** Whatever follows the user's "--", dashed or not, sets no flag, unsets none and gives none its value. */
  lemma NothingAfterTheTerminatorIsAFlag<F(!new)>(d: Defs<F>, valued: set<string>, args: seq<string>,
                                                                    free: nat, t: nat, tail: seq<string>)
    requires WellFormed(d) && Matches(d, valued) && EndsAt(args, valued, t)
    ensures var other := args[..t + 1] + tail;
            var (mine, theirs) := (Split(args, valued, free, false, false), Split(other, valued, free, false, false));
            Parse(d, mine.flags).sets == Parse(d, theirs.flags).sets
  {
    SplitThenParse(d, valued, args, free);
    SplitThenParse(d, valued, args[..t + 1] + tail, free);
    ReadStopsThere(d, valued, args, free, t, tail);
  }

  lemma {:induction false} ReadStopsThere<F(!new)>(d: Defs<F>, valued: set<string>, args: seq<string>, free: nat,
                                                   t: nat, tail: seq<string>)
    requires WellFormed(d) && Matches(d, valued) && EndsAt(args, valued, t)
    ensures Read(d, args, free).sets == Read(d, args[..t + 1] + tail, free).sets
    decreases t, 1
  {
    var other := args[..t + 1] + tail;
    assert other[0] == args[0];
    if args[0] != "--" {
      if LooksLikeFlag(args[0]) {
        FlagStopsThere(d, valued, args, free, t, tail);
      } else if 0 < free {
        DropFirst(args, 1, t, tail);
        ReadStopsThere(d, valued, args[1..], if args[0] == "" then free else free - 1, t - 1, tail);
      }
    }
  }

  lemma DropFirst(args: seq<string>, w: nat, t: nat, tail: seq<string>)
    requires w <= t < |args|
    ensures (args[..t + 1] + tail)[w..] == args[w..][..t - w + 1] + tail
  {
    assert args[..t + 1][w..] == args[w..][..t - w + 1];
  }

  lemma FlagStopsThere<F(!new)>(d: Defs<F>, valued: set<string>, args: seq<string>, free: nat, t: nat,
                                tail: seq<string>)
    requires WellFormed(d) && Matches(d, valued) && EndsAt(args, valued, t)
    requires args[0] != "--" && LooksLikeFlag(args[0])
    ensures Read(d, args, free).sets == Read(d, args[..t + 1] + tail, free).sets
    decreases t, 0
  {
    var other, w := args[..t + 1] + tail, Width(args, valued);
    assert other[0] == args[0] && 1 < |args| && other[1] == args[1];
    if ParseOne(d, args[0], NextOf(args)).Took? {
      SameWidth(d, valued, args);
      DropFirst(args, w, t, tail);
      ReadStopsThere(d, valued, args[w..], free, t - w, tail);
    }
  }

  // ---- Every argument goes to one place, in order ----

  datatype Place = Slot | Passed | Empty | Terminator

  /** The arguments in one place, in order. */
  function Labelled(args: seq<string>, labels: seq<Place>, kind: Place): (r: seq<string>)
    requires |labels| == |args|
  {
    if args == [] then []
    else (if labels[0] == kind then [args[0]] else []) + Labelled(args[1..], labels[1..], kind)
  }

  /** flags is passed with at most the splitter's own "--" put in. */
  ghost predicate OneFenceAtMost(flags: seq<string>, passed: seq<string>, fenced: bool) {
    flags == passed || (!fenced && exists j: nat :: FencedAt(flags, passed, j))
  }

  predicate FencedAt(flags: seq<string>, passed: seq<string>, j: nat) {
    j <= |passed| && flags == passed[..j] + ["--"] + passed[j..]
  }

  lemma FenceMoves(flags: seq<string>, passed: seq<string>, fenced: bool, front: seq<string>)
    requires OneFenceAtMost(flags, passed, fenced)
    ensures OneFenceAtMost(front + flags, front + passed, fenced)
  {
    if flags != passed {
      var j: nat :| FencedAt(flags, passed, j);
      assert (front + passed)[..|front| + j] == front + passed[..j] && (front + passed)[|front| + j..] == passed[j..];
      assert FencedAt(front + flags, front + passed, |front| + j);
    }
  }

  lemma LabelledJoin(a1: seq<string>, l1: seq<Place>, a2: seq<string>, l2: seq<Place>, kind: Place)
    requires |a1| == |l1| && |a2| == |l2|
    ensures Labelled(a1 + a2, l1 + l2, kind) == Labelled(a1, l1, kind) + Labelled(a2, l2, kind)
  {
    if a1 == [] {
      assert a1 + a2 == a2 && l1 + l2 == l2;
    } else {
      assert (a1 + a2)[1..] == a1[1..] + a2 && (l1 + l2)[1..] == l1[1..] + l2;
      LabelledJoin(a1[1..], l1[1..], a2, l2, kind);
    }
  }

  ghost predicate Placed(args: seq<string>, places: seq<Place>, h: Halves, ended: bool, fenced: bool) {
    && |places| == |args|
    && h.pos == Labelled(args, places, Slot)
    && OneFenceAtMost(h.flags, Labelled(args, places, Passed), fenced)
    && (forall t :: t in Labelled(args, places, Empty) ==> t == "")
    && (Labelled(args, places, Terminator) == [] || (!ended && Labelled(args, places, Terminator) == ["--"]))
  }

  function PassedFront(w: nat): (p: seq<Place>) { if w == 1 then [Passed] else [Passed, Passed] }

  lemma FrontIsPassed(args: seq<string>, w: nat, places: seq<Place>, kind: Place)
    requires 1 <= w <= |args| && w <= 2 && |places| == |args| - w
    ensures Labelled(args, PassedFront(w) + places, kind)
         == (if kind == Passed then args[..w] else []) + Labelled(args[w..], places, kind)
  {
    assert args == args[..w] + args[w..];
    LabelledJoin(args[..w], PassedFront(w), args[w..], places, kind);
  }

  lemma PlacedFlag(args: seq<string>, w: nat, places: seq<Place>, h: Halves, ended: bool, fenced: bool)
    requires 1 <= w <= |args| && w <= 2 && Placed(args[w..], places, h, ended, fenced)
    ensures Placed(args, PassedFront(w) + places, Halves(h.pos, args[..w] + h.flags), ended, fenced)
  {
    FrontIsPassed(args, w, places, Slot);
    FrontIsPassed(args, w, places, Passed);
    FrontIsPassed(args, w, places, Empty);
    FrontIsPassed(args, w, places, Terminator);
    FenceMoves(h.flags, Labelled(args[w..], places, Passed), fenced, args[..w]);
  }

  lemma PlacedOverflow(args: seq<string>, places: seq<Place>, h: Halves, ended: bool, fenced: bool)
    requires args != [] && (fenced ==> ended) && Placed(args[1..], places, h, ended, fenced || ended)
    ensures Placed(args, [Passed] + places, Halves(h.pos, (if ended && !fenced then ["--"]
              else []) + [args[0]] + h.flags), ended, fenced)
  {
    var passed, all := Labelled(args[1..], places, Passed), [Passed] + places;
    assert all[1..] == places;
    if ended && !fenced {
      assert FencedAt(["--"] + [args[0]] + h.flags, [args[0]] + passed, 0);
    } else {
      FenceMoves(h.flags, passed, fenced, [args[0]]);
      assert [] + [args[0]] + h.flags == [args[0]] + h.flags;
    }
  }

  /** The splitter neither invents, loses nor reorders an argument: each fills a slot, is passed on, or is
      dropped; only empty tokens and the user's one "--" are dropped, and only one "--" is added. */
  lemma {:induction false} EveryArgumentHasOnePlace(args: seq<string>, valued: set<string>, free: nat, ended: bool,
                                                    fenced: bool)
      returns (places: seq<Place>)
    requires fenced ==> ended
    ensures |places| == |args| && Placed(args, places, Split(args, valued, free, ended, fenced), ended, fenced)
    decreases |args|
  {
    places := [];
    if args != [] {
      if EndsFlags(args[0], ended) {
        var rest := EveryArgumentHasOnePlace(args[1..], valued, free, true, fenced);
        places := [Terminator] + rest;
        assert places[1..] == rest && [] + Labelled(args[1..], rest, Passed) == Labelled(args[1..], rest, Passed);
      } else if IsFlagArg(args[0], ended) {
        var w := Width(args, valued);
        var rest := EveryArgumentHasOnePlace(args[w..], valued, free, ended, fenced);
        PlacedFlag(args, w, rest, Split(args[w..], valued, free, ended, fenced), ended, fenced);
        places := PassedFront(w) + rest;
      } else if 0 < free {
        var free' := if args[0] == "" then free else free - 1;
        var rest := EveryArgumentHasOnePlace(args[1..], valued, free', ended, fenced);
        places := [if args[0] == "" then Empty else Slot] + rest;
        assert places[1..] == rest && [] + Labelled(args[1..], rest, Passed) == Labelled(args[1..], rest, Passed);
      } else {
        var rest := EveryArgumentHasOnePlace(args[1..], valued, 0, ended, fenced || ended);
        PlacedOverflow(args, rest, Split(args[1..], valued, 0, ended, fenced || ended), ended, fenced);
        places := [Passed] + rest;
      }
    }
  }
}
