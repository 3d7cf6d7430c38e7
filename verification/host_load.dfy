/** What a reserve declares of the host's memory, and where it is compared: once, in the grant or after
    the unload. Figures are GiB. */
module HostLoad {
  /** touch is the working set; a commit that is stated is judged against another line than one that only
      stands in for the working set, even when the two are equal. */
  datatype Load = Load(touch: real, commit: real, stated: bool)

  const NOTHING := Load(0.0, 0.0, false)

  predicate Declares(l: Load) { 0.0 < l.touch || 0.0 < l.commit }

  /** The resolved need of a reserve: the operator's figure or an estimate, which may carry a commit of its own. */
  datatype Need = Need(touch: real, commit: real, commitStated: bool)

  datatype Resolved = Declared(load: Load) | RefusedFlag

  /** The declaration: --ram-commit states a commit; else the need's own; else the working set stands in. */
  function Resolve(given: bool, flag: real, need: Need): Resolved {
    if !given then
      if need.commitStated && 0.0 < need.commit && 0.0 < need.touch
      then Declared(Load(need.touch, need.commit, true))
      else Declared(Load(need.touch, need.touch, false))
    else if flag <= 0.0 || need.touch <= 0.0 then RefusedFlag
    else Declared(Load(need.touch, flag, true))
  }

  /** The loads a reserve can declare. */
  predicate WellFormed(l: Load) {
    && 0.0 <= l.touch
    && (if l.stated then 0.0 < l.touch && 0.0 < l.commit else l.commit == l.touch)
  }

  lemma ResolvedIsWellFormed(given: bool, flag: real, need: Need)
    requires 0.0 <= need.touch
    ensures Resolve(given, flag, need).Declared? ==> WellFormed(Resolve(given, flag, need).load)
    ensures Resolve(given, flag, need).Declared? && given ==> Resolve(given, flag, need).load.stated
  {}

  /** What a reserve declares: the flag's commit if one was given, which must be a figure beside a figure; else the
      need's own commit, where it states one beside a working set; else the working set alone, not stated. */
  lemma WhatIsDeclared(given: bool, flag: real, need: Need)
    ensures Resolve(given, flag, need) == RefusedFlag <==> given && (flag <= 0.0 || need.touch <= 0.0)
    ensures Resolve(given, flag, need).Declared? ==>
              var l := Resolve(given, flag, need).load;
              && l.touch == need.touch
              && (l.stated <==> given || (need.commitStated && 0.0 < need.commit && 0.0 < need.touch))
              && l.commit == if given then flag else if l.stated then need.commit else need.touch
  {}

  // ---- The split ----

  /** Both quantities move together: compared in the grant, or asked after the unload. */
  function Split(defers: bool, l: Load): (Load, Load) {
    if defers && Declares(l) then (NOTHING, l) else (l, NOTHING)
  }

  /** What the host answers to a deferred need before anything is taken. */
  datatype Look = Fits | NotYet | CannotRead | Never

  datatype Screened = Plan(gate: Load, later: Load) | Impossible

  /** A need nothing can admit ends the reserve; a host that cannot be read sends it back to the grant. */
  function Screen(gate: Load, later: Load, look: Look): Screened {
    if !Declares(later) then Plan(gate, later)
    else match look
      case Never => Impossible
      case CannotRead => Plan(later, NOTHING)
      case _ => Plan(gate, later)
  }

  /** Only a deferred figure that no state of the host admits ends the reserve; only a host that cannot be read moves
      one back into the grant. */
  lemma OnlyAHopelessFigureEndsIt(defers: bool, l: Load, look: Look)
    ensures var (gate, later) := Split(defers, l);
            var declares := 0.0 < l.touch || 0.0 < l.commit;
            && (Screen(gate, later, look) == Impossible <==> defers && declares && look == Never)
            && (Screen(gate, later, look) == Plan(NOTHING, l) <==>
                  (defers && declares && look in {Fits, NotYet}) || l == NOTHING)
            && (Screen(gate, later, look) == Plan(l, NOTHING) <==> !defers || !declares || look == CannotRead)
  {
    assert look in {Fits, NotYet} <==> look == Fits || look == NotYet;
  }

  // ---- What the lease carries ----

  /** The four figures on the lease's options: a commit of 0 is one not stated. */
  datatype Figures = Figures(ram: real, ramCommit: real, wait: real, waitCommit: real)

  function CommitDeclared(l: Load): real { if l.stated then l.commit else 0.0 }

  function Carry(gate: Load, later: Load): Figures {
    Figures(gate.touch, CommitDeclared(gate), later.touch, CommitDeclared(later))
  }

  /** How the lease library reads a pair of figures back (internal/gpulease/gpulease.go:763-780). */
  function ReadBack(touch: real, commit: real): Load {
    Load(touch, if 0.0 < commit then commit else touch, 0.0 < commit)
  }

  /** From the declaration to the two comparisons: the whole declaration is compared in exactly one of
      them, both figures and the stated bit unchanged, and the other one compares nothing. The wait is run
      exactly when something is left to compare in it. */
  lemma DeclarationIsComparedOnce(defers: bool, l: Load, look: Look)
    requires WellFormed(l)
    ensures var (gate, later) := Split(defers, l);
            var s := Screen(gate, later, look);
            s.Plan? ==>
              var f := Carry(s.gate, s.later);
              var (granted, awaited) := (ReadBack(f.ram, f.ramCommit), ReadBack(f.wait, f.waitCommit));
              && ((granted == l && awaited == NOTHING) || (granted == NOTHING && awaited == l))
              && (Declares(awaited) <==> 0.0 < f.wait)
              && (Declares(awaited) <==> Declares(l) && defers && look in {Fits, NotYet})
  {}

  /** Stating a commit equal to the working set is not the same declaration as stating none, and stays different. */
  lemma AnEqualCommitIsStillStated(touch: real)
    requires 0.0 < touch
    ensures var (a, b) := (Load(touch, touch, true), Load(touch, touch, false));
            && ReadBack(a.touch, CommitDeclared(a)) == a && ReadBack(b.touch, CommitDeclared(b)) == b && a != b
  {}

  /** The encoding loses nothing exactly on the declarations a reserve can make. */
  lemma CarryIsFaithful(l: Load)
    requires 0.0 <= l.touch && 0.0 <= l.commit
    ensures ReadBack(l.touch, CommitDeclared(l)) == l <==> (if l.stated then 0.0 < l.commit else l.commit == l.touch)
  {}
}
