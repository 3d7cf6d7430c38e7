/** Go's flag package, as far as the command line needs it: what flag.FlagSet.Parse does with a list of
    arguments. F names the flags of one flag set. */
module Flags {
  import opened Common

  /** named finds a flag by its name; a switch takes no value of its own; accepts is what the flag's Set
      says to a value. */
  datatype Defs<!F> = Defs(named: string -> Option<F>, isSwitch: F -> bool, accepts: (F, string) -> bool)

  datatype Setting<F> = Setting(flag: F, value: string)

  datatype Outcome<F> = Parsed(sets: seq<Setting<F>>, rest: seq<string>) | Failed(sets: seq<Setting<F>>)

  datatype One<F> = Took(setting: Setting<F>, usesNext: bool) | Bad

  /** The names a flag set can define. */
  predicate IsName(s: string) { s != "" && s[0] != '-' && '=' !in s }

  ghost predicate WellFormed<F(!new)>(d: Defs<F>) {
    && (forall s :: d.named(s).Some? ==> IsName(s))
    && (forall f :: d.isSwitch(f) ==> d.accepts(f, "true"))
  }

  predicate LooksLikeFlag(tok: string) { 2 <= |tok| && tok[0] == '-' }

  function NameOf(tok: string): string
    requires LooksLikeFlag(tok)
  {
    if tok[1] == '-' then tok[2..] else tok[1..]
  }

  /** Where the first '=' from i on is; the length if there is none. */
  function EqualsFrom(s: string, i: nat): (at: nat)
    requires i <= |s|
    ensures i <= at <= |s|
    ensures at < |s| ==> s[at] == '='
    ensures forall j :: i <= j < at ==> s[j] != '='
    decreases |s| - i
  {
    if i == |s| || s[i] == '=' then i else EqualsFrom(s, i + 1)
  }

  function Accepted<F>(d: Defs<F>, f: F, value: string, usesNext: bool): One<F> {
    if d.accepts(f, value) then Took(Setting(f, value), usesNext) else Bad
  }

  /** One flag and, where it takes one, its value. */
  function ParseOne<F>(d: Defs<F>, tok: string, next: Option<string>): One<F>
    requires LooksLikeFlag(tok)
  {
    var name := NameOf(tok);
    if name == "" || name[0] == '-' || name[0] == '=' then Bad
    else
      var at := EqualsFrom(name, 1);
      var flag := d.named(name[..at]);
      if flag.None? then Bad
      else if at < |name| then Accepted(d, flag.value, name[at + 1..], false)
      else if d.isSwitch(flag.value) then Took(Setting(flag.value, "true"), false)
      else if next.None? then Bad
      else Accepted(d, flag.value, next.value, true)
  }

  function NextOf(args: seq<string>): Option<string> {
    if 1 < |args| then Some(args[1]) else None
  }

  function Before<F>(s: Setting<F>, r: Outcome<F>): Outcome<F> { r.(sets := [s] + r.sets) }

  /** Flags until the first token that is none, or the "--" that ends them. */
  function Parse<F>(d: Defs<F>, args: seq<string>): Outcome<F>
    decreases |args|
  {
    if args == [] || !LooksLikeFlag(args[0]) then Parsed([], args)
    else if args[0] == "--" then Parsed([], args[1..])
    else
      match ParseOne(d, args[0], NextOf(args))
      case Bad => Failed([])
      case Took(s, usesNext) => Before(s, Parse(d, if usesNext && 1 < |args| then args[2..] else args[1..]))
  }

  /** One or two dashes and a name. */
  predicate Spells(tok: string, name: string) { tok == "-" + name || tok == "--" + name }

  lemma SpelledIsNamed(tok: string, name: string)
    requires Spells(tok, name) && name != "" && name[0] != '-'
    ensures LooksLikeFlag(tok) && NameOf(tok) == name
  {
    if tok == "-" + name { assert tok[1..] == name; } else { assert tok[2..] == name; }
  }

  lemma EqualsIsAt(name: string, value: string, i: nat)
    requires '=' !in name && i <= |name|
    ensures EqualsFrom(name + "=" + value, i) == EqualsFrom(name, i) == |name|
    decreases |name| - i
  {
    assert (name + "=" + value)[|name|] == '=';
    if i < |name| {
      assert (name + "=" + value)[i] == name[i] && name[i] in name;
      EqualsIsAt(name, value, i + 1);
    }
  }

  /** A flag with its value behind '=': a known one takes it, a switch too, if its Set accepts it; any other is
      refused. */
  lemma AnEqualsGivesTheValue<F>(d: Defs<F>, tok: string, name: string, value: string, next: Option<string>)
    requires IsName(name) && Spells(tok, name + "=" + value)
    ensures LooksLikeFlag(tok) && ParseOne(d, tok, next) ==
            match d.named(name)
            case None => Bad
            case Some(f) => if d.accepts(f, value) then Took(Setting(f, value), false) else Bad
  {
    SpelledIsNamed(tok, name + "=" + value);
    EqualsIsAt(name, value, 1);
    assert (name + "=" + value)[..|name|] == name && (name + "=" + value)[|name| + 1..] == value;
  }

  /** A flag alone: a switch is set to true and takes no token; any other known one takes the next, if there is one that
      its Set accepts. */
  lemma AFlagTakesTheNext<F>(d: Defs<F>, tok: string, name: string, next: Option<string>)
    requires IsName(name) && Spells(tok, name)
    ensures LooksLikeFlag(tok) && ParseOne(d, tok, next) ==
            match d.named(name)
            case None => Bad
            case Some(f) =>
              if d.isSwitch(f) then Took(Setting(f, "true"), false)
              else if next.Some? && d.accepts(f, next.value) then Took(Setting(f, next.value), true)
              else Bad
  {
    SpelledIsNamed(tok, name);
    EqualsIsAt(name, "", 1);
    assert name[..|name|] == name;
  }

  // ---- Printing flags that parse back ----

  /** A flag to print: a switch alone, or a flag and its value as two tokens. */
  function Tokens(name: string, value: Option<string>): seq<string> {
    if value.Some? then ["--" + name, value.value] else ["--" + name]
  }

  /** A flag printed as two tokens parses back whatever its value looks like: empty, dashed, even "--". */
  lemma PrintedFlagParses<F>(d: Defs<F>, f: F, name: string, value: Option<string>, rest: seq<string>)
    requires IsName(name) && d.named(name) == Some(f)
    requires value.Some? <==> !d.isSwitch(f)
    requires value.Some? ==> d.accepts(f, value.value)
    ensures Parse(d, Tokens(name, value) + rest)
         == Before(Setting(f, if value.Some? then value.value else "true"), Parse(d, rest))
  {
    var tok, args := "--" + name, Tokens(name, value) + rest;
    assert tok[2..] == name && args[0] == tok;
    assert EqualsFrom(name, 1) == |name| && name[..|name|] == name;
    if value.Some? {
      assert args[1] == value.value && args[2..] == rest;
    } else {
      assert args[1..] == rest;
    }
  }
}
