/**
  all_linear_functions_chord_diagram: the set of accumulated costs a diagram reaches
  after exactly a given number of eliminations, trying every turn, then the left and then
  the right side elimination, each on a fresh copy of the diagram it starts from.

  PreAcdReachable and AcdReachable give that set; the two methods, one per kind of
  diagram, grow a result set by it; the lemmas say what every collected cost looks like.
*/
module Search {
  import opened Wrappers
  import opened LinearFunctions
  import opened ChordDiagrams
  import opened PreAcdDiagrams
  import opened PreAcdProperties
  import AcdDiagrams
  import AcdProperties

  // ---------------------------------------------------------------------------
  // Pre-diagrams
  // ---------------------------------------------------------------------------

  /** Every cost reachable from s when the search stops at `moves` eliminations. */
  function PreAcdReachable(s: PreAcdState, moves: int, isLimitCase: bool): set<LinearFunction>
    requires Uniform(s)
    decreases Size(s), 1
  {
    if s.numberOfIncreases == moves then {s.totalIncreaser}
    else
      PossibleTurnsAreTurnIndices(s);
      PreAcdTurnsReachable(s, PossibleTurns(s), 0, moves, isLimitCase)
      + PreAcdSideReachable(s, false, moves, isLimitCase)
      + PreAcdSideReachable(s, true, moves, isLimitCase)
  }

  /** The costs reachable through the turns turns[i..]. */
  function PreAcdTurnsReachable(s: PreAcdState, turns: seq<int>, i: nat, moves: int, isLimitCase: bool): set<LinearFunction>
    requires Uniform(s) && i <= |turns| && forall t :: t in turns ==> IsTurnIndex(s, t)
    decreases Size(s), 0, |turns| - i
  {
    if i == |turns| then {}
    else
      PreAcdReachable(TurnElimination(s, turns[i]), moves, isLimitCase)
      + PreAcdTurnsReachable(s, turns, i + 1, moves, isLimitCase)
  }

  /** The costs reachable through eliminating the outermost letter of one side. */
  function PreAcdSideReachable(s: PreAcdState, isRight: bool, moves: int, isLimitCase: bool): set<LinearFunction>
    requires Uniform(s)
    decreases Size(s), 0, 0
  {
    if |Side(s, isRight)| == 0 then {}
    else PreAcdReachable(SideElimination(s, isRight, isLimitCase).value, moves, isLimitCase)
  }

  /** all_linear_functions_chord_diagram on a pre-diagram: `start` is taken by value, so
      the caller's diagram is unchanged; the result set only grows. */
  method AllLinearFunctionsPreAcd(start: PreAcd, results: set<LinearFunction>, numberOfMoves: int, isLimitCase: bool)
    returns (out: set<LinearFunction>)
    requires start.Valid()
    ensures out == results + PreAcdReachable(start.State(), numberOfMoves, isLimitCase)
    decreases Size(start.State())
  {
    ghost var s := start.State();
    var count := start.base.GetNumberOfIncreases();
    if count == numberOfMoves {
      var f := start.base.GetIncreaser();
      return results + {f};
    }
    var allTurns := start.GetAllPossibleTurns();
    PossibleTurnsAreTurnIndices(s);
    out := AllLinearFunctionsPreAcdTurns(start, allTurns, results, numberOfMoves, isLimitCase);
    out := AllLinearFunctionsPreAcdSide(start, false, out, numberOfMoves, isLimitCase);
    out := AllLinearFunctionsPreAcdSide(start, true, out, numberOfMoves, isLimitCase);
  }

  /** Each turn of `turns` eliminated on its own copy of start, each followed by the
      search from the result. */
  method AllLinearFunctionsPreAcdTurns(start: PreAcd, turns: seq<int>, results: set<LinearFunction>, numberOfMoves: int, isLimitCase: bool)
    returns (out: set<LinearFunction>)
    requires start.Valid() && forall t :: t in turns ==> IsTurnIndex(start.State(), t)
    ensures out == results + PreAcdTurnsReachable(start.State(), turns, 0, numberOfMoves, isLimitCase)
    decreases Size(start.State()), 1
  {
    ghost var s := start.State();
    out := results;
    var i := 0;
    while i < |turns|
      invariant 0 <= i <= |turns| && start.State() == s
      invariant out + PreAcdTurnsReachable(s, turns, i, numberOfMoves, isLimitCase)
        == results + PreAcdTurnsReachable(s, turns, 0, numberOfMoves, isLimitCase)
    {
      ghost var before := out;
      out := AllLinearFunctionsPreAcdTurn(start, turns[i], out, numberOfMoves, isLimitCase);
      PreAcdTurnsAdvance(s, turns, i, numberOfMoves, isLimitCase, before, out,
        results + PreAcdTurnsReachable(s, turns, 0, numberOfMoves, isLimitCase));
      i := i + 1;
    }
  }

  /** One pass of the turn loop: the costs of turn i move from what remains to what is
      collected. */
  lemma PreAcdTurnsAdvance(s: PreAcdState, turns: seq<int>, i: nat, moves: int, isLimitCase: bool,
                           before: set<LinearFunction>, after: set<LinearFunction>, all: set<LinearFunction>)
    requires Uniform(s) && i < |turns| && forall t :: t in turns ==> IsTurnIndex(s, t)
    requires before + PreAcdTurnsReachable(s, turns, i, moves, isLimitCase) == all
    requires after == before + PreAcdReachable(TurnElimination(s, turns[i]), moves, isLimitCase)
    ensures after + PreAcdTurnsReachable(s, turns, i + 1, moves, isLimitCase) == all
  {
  }

  /** One turn eliminated on a copy of start, followed by the search from the result. */
  method AllLinearFunctionsPreAcdTurn(start: PreAcd, index: int, results: set<LinearFunction>, numberOfMoves: int, isLimitCase: bool)
    returns (out: set<LinearFunction>)
    requires start.Valid() && IsTurnIndex(start.State(), index)
    ensures out == results + PreAcdReachable(TurnElimination(start.State(), index), numberOfMoves, isLimitCase)
    decreases Size(start.State()), 0
  {
    var startCopy := new PreAcd.Copy(start);
    var ok := startCopy.EliminateTurn(index);
    out := AllLinearFunctionsPreAcd(startCopy, results, numberOfMoves, isLimitCase);
  }

  /** One side elimination on a copy of start, followed by the search from the result. */
  method AllLinearFunctionsPreAcdSide(start: PreAcd, isRight: bool, results: set<LinearFunction>, numberOfMoves: int, isLimitCase: bool)
    returns (out: set<LinearFunction>)
    requires start.Valid()
    ensures out == results + PreAcdSideReachable(start.State(), isRight, numberOfMoves, isLimitCase)
    decreases Size(start.State()), 0
  {
    var startCopy := new PreAcd.Copy(start);
    var ok := startCopy.EliminateFromSide(isRight, isLimitCase);
    out := results;
    if ok {
      out := AllLinearFunctionsPreAcd(startCopy, out, numberOfMoves, isLimitCase);
    }
  }

  /** The shape every collected cost has: the arity of the starting cost and, from
      non-negative weights, non-negative and at least the starting cost. */
  ghost predicate PreAcdBounded(fs: set<LinearFunction>, s: PreAcdState)
  {
    forall f :: f in fs ==>
      f.Arity() == s.totalIncreaser.Arity()
      && (PreAcdProperties.NonNegativeState(s) ==> NonNegative(f) && Dominates(f, s.totalIncreaser))
  }

  /** Bounds met from a successor r of s are met from s. */
  lemma PreAcdBoundedStep(fs: set<LinearFunction>, s: PreAcdState, r: PreAcdState)
    requires PreAcdBounded(fs, r) && r.totalIncreaser.Arity() == s.totalIncreaser.Arity()
    requires PreAcdProperties.NonNegativeState(s) ==>
      PreAcdProperties.NonNegativeState(r) && Dominates(r.totalIncreaser, s.totalIncreaser)
    ensures PreAcdBounded(fs, s)
  {
    forall f | f in fs && PreAcdProperties.NonNegativeState(s)
      ensures Dominates(f, s.totalIncreaser)
    {
      DominatesTransitive(s.totalIncreaser, r.totalIncreaser, f);
    }
  }

  lemma {:induction false} PreAcdReachableBounds(s: PreAcdState, moves: int, isLimitCase: bool)
    requires Uniform(s)
    ensures PreAcdBounded(PreAcdReachable(s, moves, isLimitCase), s)
    decreases Size(s), 1
  {
    if s.numberOfIncreases != moves {
      PossibleTurnsAreTurnIndices(s);
      PreAcdTurnsReachableBounds(s, PossibleTurns(s), 0, moves, isLimitCase);
      PreAcdSideReachableBounds(s, false, moves, isLimitCase);
      PreAcdSideReachableBounds(s, true, moves, isLimitCase);
    }
  }

  lemma {:induction false} PreAcdTurnsReachableBounds(s: PreAcdState, turns: seq<int>, i: nat, moves: int, isLimitCase: bool)
    requires Uniform(s) && i <= |turns| && forall t :: t in turns ==> IsTurnIndex(s, t)
    ensures PreAcdBounded(PreAcdTurnsReachable(s, turns, i, moves, isLimitCase), s)
    decreases Size(s), 0, |turns| - i
  {
    if i < |turns| {
      var r := TurnElimination(s, turns[i]);
      PreAcdReachableBounds(r, moves, isLimitCase);
      PreAcdTurnsReachableBounds(s, turns, i + 1, moves, isLimitCase);
      if PreAcdProperties.NonNegativeState(s) {
        PreAcdProperties.TurnEliminationGrows(s, turns[i]);
      }
      PreAcdBoundedStep(PreAcdReachable(r, moves, isLimitCase), s, r);
    }
  }

  lemma {:induction false} PreAcdSideReachableBounds(s: PreAcdState, isRight: bool, moves: int, isLimitCase: bool)
    requires Uniform(s)
    ensures PreAcdBounded(PreAcdSideReachable(s, isRight, moves, isLimitCase), s)
    decreases Size(s), 0, 0
  {
    if |Side(s, isRight)| > 0 {
      var r := SideElimination(s, isRight, isLimitCase).value;
      PreAcdReachableBounds(r, moves, isLimitCase);
      if PreAcdProperties.NonNegativeState(s) {
        PreAcdProperties.SideEliminationGrows(s, isRight, isLimitCase);
      }
      PreAcdBoundedStep(PreAcdReachable(r, moves, isLimitCase), s, r);
    }
  }

  /** Every move counts one elimination, so a diagram already past the target collects
      nothing. */
  lemma {:induction false} PreAcdPastTarget(s: PreAcdState, moves: int, isLimitCase: bool)
    requires Uniform(s) && s.numberOfIncreases > moves
    ensures PreAcdReachable(s, moves, isLimitCase) == {}
    decreases Size(s), 1
  {
    PossibleTurnsAreTurnIndices(s);
    PreAcdTurnsPastTarget(s, PossibleTurns(s), 0, moves, isLimitCase);
    PreAcdSidePastTarget(s, false, moves, isLimitCase);
    PreAcdSidePastTarget(s, true, moves, isLimitCase);
  }

  lemma {:induction false} PreAcdTurnsPastTarget(s: PreAcdState, turns: seq<int>, i: nat, moves: int, isLimitCase: bool)
    requires Uniform(s) && s.numberOfIncreases > moves
    requires i <= |turns| && forall t :: t in turns ==> IsTurnIndex(s, t)
    ensures PreAcdTurnsReachable(s, turns, i, moves, isLimitCase) == {}
    decreases Size(s), 0, |turns| - i
  {
    if i < |turns| {
      PreAcdProperties.TurnEliminationCost(s, turns[i]);
      PreAcdPastTarget(TurnElimination(s, turns[i]), moves, isLimitCase);
      PreAcdTurnsPastTarget(s, turns, i + 1, moves, isLimitCase);
    }
  }

  lemma {:induction false} PreAcdSidePastTarget(s: PreAcdState, isRight: bool, moves: int, isLimitCase: bool)
    requires Uniform(s) && s.numberOfIncreases > moves
    ensures PreAcdSideReachable(s, isRight, moves, isLimitCase) == {}
    decreases Size(s), 0, 0
  {
    if |Side(s, isRight)| > 0 {
      PreAcdProperties.SideEliminationCost(s, isRight, isLimitCase);
      PreAcdPastTarget(SideElimination(s, isRight, isLimitCase).value, moves, isLimitCase);
    }
  }

  // ---------------------------------------------------------------------------
  // Cyclic diagrams
  // ---------------------------------------------------------------------------

  /** Every cost reachable from s when the search stops at `moves` eliminations. */
  function AcdReachable(s: AcdDiagrams.AcdState, moves: int, isLimitCase: bool): set<LinearFunction>
    requires AcdDiagrams.Valid(s) && AcdDiagrams.EachTwice(s.chords)
    decreases |s.chords|, 1
  {
    if s.numberOfIncreases == moves then {s.totalIncreaser}
    else
      AcdTurnsReachable(s, AcdDiagrams.PossibleTurns(s), 0, moves, isLimitCase)
      + AcdSideReachable(s, false, moves, isLimitCase)
      + AcdSideReachable(s, true, moves, isLimitCase)
  }

  /** The costs reachable through the turns turns[i..]. */
  function AcdTurnsReachable(s: AcdDiagrams.AcdState, turns: seq<int>, i: nat, moves: int, isLimitCase: bool): set<LinearFunction>
    requires AcdDiagrams.Valid(s) && AcdDiagrams.EachTwice(s.chords)
    requires i <= |turns| && forall t :: t in turns ==> t in AcdDiagrams.PossibleTurns(s)
    decreases |s.chords|, 0, |turns| - i
  {
    if i == |turns| then {}
    else
      AcdProperties.TurnEliminationRemovesChord(s, turns[i]);
      AcdReachable(AcdDiagrams.TurnElimination(s, turns[i]), moves, isLimitCase)
      + AcdTurnsReachable(s, turns, i + 1, moves, isLimitCase)
  }

  /** The costs reachable through eliminating the chord at one end of the sequence. */
  function AcdSideReachable(s: AcdDiagrams.AcdState, isRight: bool, moves: int, isLimitCase: bool): set<LinearFunction>
    requires AcdDiagrams.Valid(s) && AcdDiagrams.EachTwice(s.chords)
    decreases |s.chords|, 0, 0
  {
    if |s.chords| == 0 then {}
    else
      AcdProperties.SideEliminationRemovesChord(s, isRight, isLimitCase);
      AcdReachable(AcdDiagrams.SideElimination(s, isRight, isLimitCase).value, moves, isLimitCase)
  }

  /** all_linear_functions_chord_diagram on a cyclic diagram whose chords all have both
      ends: `start` is taken by value, so the caller's diagram is unchanged. */
  method AllLinearFunctionsAcd(start: AcdDiagrams.Acd, results: set<LinearFunction>, numberOfMoves: int, isLimitCase: bool)
    returns (out: set<LinearFunction>)
    requires start.Inv() && AcdDiagrams.EachTwice(start.chords)
    ensures out == results + AcdReachable(start.State(), numberOfMoves, isLimitCase)
    decreases |start.chords|, 2
  {
    var count := start.base.GetNumberOfIncreases();
    if count == numberOfMoves {
      var f := start.base.GetIncreaser();
      return results + {f};
    }
    var allTurns := start.GetAllPossibleTurns();
    out := AllLinearFunctionsAcdTurns(start, allTurns, results, numberOfMoves, isLimitCase);
    out := AllLinearFunctionsAcdSide(start, false, out, numberOfMoves, isLimitCase);
    out := AllLinearFunctionsAcdSide(start, true, out, numberOfMoves, isLimitCase);
  }

  /** Each turn of `turns` eliminated on its own copy of start. */
  method AllLinearFunctionsAcdTurns(start: AcdDiagrams.Acd, turns: seq<int>, results: set<LinearFunction>, numberOfMoves: int, isLimitCase: bool)
    returns (out: set<LinearFunction>)
    requires start.Inv() && AcdDiagrams.EachTwice(start.chords)
    requires forall t :: t in turns ==> t in AcdDiagrams.PossibleTurns(start.State())
    ensures out == results + AcdTurnsReachable(start.State(), turns, 0, numberOfMoves, isLimitCase)
    decreases |start.chords|, 1
  {
    ghost var s := start.State();
    out := results;
    var i := 0;
    while i < |turns|
      invariant 0 <= i <= |turns| && start.State() == s
      invariant out + AcdTurnsReachable(s, turns, i, numberOfMoves, isLimitCase)
        == results + AcdTurnsReachable(s, turns, 0, numberOfMoves, isLimitCase)
    {
      AcdProperties.TurnEliminationRemovesChord(s, turns[i]);
      ghost var before := out;
      out := AllLinearFunctionsAcdTurn(start, turns[i], out, numberOfMoves, isLimitCase);
      AcdTurnsAdvance(s, turns, i, numberOfMoves, isLimitCase, before, out,
        results + AcdTurnsReachable(s, turns, 0, numberOfMoves, isLimitCase));
      i := i + 1;
    }
  }

  /** One pass of the turn loop: the costs of turn i move from what remains to what is
      collected. */
  lemma AcdTurnsAdvance(s: AcdDiagrams.AcdState, turns: seq<int>, i: nat, moves: int, isLimitCase: bool,
                        before: set<LinearFunction>, after: set<LinearFunction>, all: set<LinearFunction>)
    requires AcdDiagrams.Valid(s) && AcdDiagrams.EachTwice(s.chords)
    requires i < |turns| && forall t :: t in turns ==> t in AcdDiagrams.PossibleTurns(s)
    requires AcdDiagrams.IsTurnName(s, turns[i]) && AcdDiagrams.EachTwice(AcdDiagrams.TurnElimination(s, turns[i]).chords)
    requires before + AcdTurnsReachable(s, turns, i, moves, isLimitCase) == all
    requires after == before + AcdReachable(AcdDiagrams.TurnElimination(s, turns[i]), moves, isLimitCase)
    ensures after + AcdTurnsReachable(s, turns, i + 1, moves, isLimitCase) == all
  {
  }

  /** One turn eliminated on a copy of start, followed by the search from the result. */
  method AllLinearFunctionsAcdTurn(start: AcdDiagrams.Acd, a: int, results: set<LinearFunction>, numberOfMoves: int, isLimitCase: bool)
    returns (out: set<LinearFunction>)
    requires start.Inv() && AcdDiagrams.EachTwice(start.chords) && a in AcdDiagrams.PossibleTurns(start.State())
    requires AcdDiagrams.IsTurnName(start.State(), a)
      && AcdDiagrams.EachTwice(AcdDiagrams.TurnElimination(start.State(), a).chords)
    ensures out == results + AcdReachable(AcdDiagrams.TurnElimination(start.State(), a), numberOfMoves, isLimitCase)
    decreases |start.chords|, 0
  {
    AcdProperties.TurnEliminationRemovesChord(start.State(), a);
    var startCopy := new AcdDiagrams.Acd.Copy(start);
    var ok := startCopy.EliminateTurn(a);
    out := AllLinearFunctionsAcd(startCopy, results, numberOfMoves, isLimitCase);
  }

  /** One end elimination on a copy of start, followed by the search from the result. */
  method AllLinearFunctionsAcdSide(start: AcdDiagrams.Acd, isRight: bool, results: set<LinearFunction>, numberOfMoves: int, isLimitCase: bool)
    returns (out: set<LinearFunction>)
    requires start.Inv() && AcdDiagrams.EachTwice(start.chords)
    ensures out == results + AcdSideReachable(start.State(), isRight, numberOfMoves, isLimitCase)
    decreases |start.chords|, 0
  {
    if |start.chords| > 0 {
      AcdProperties.SideEliminationRemovesChord(start.State(), isRight, isLimitCase);
    } else {
      AcdProperties.EachTwiceHasOtherEnd(start.State(), isRight);
    }
    var startCopy := new AcdDiagrams.Acd.Copy(start);
    var ok := startCopy.EliminateFromSide(isRight, isLimitCase);
    out := results;
    if ok {
      out := AllLinearFunctionsAcd(startCopy, out, numberOfMoves, isLimitCase);
    }
  }

  /** The shape every collected cost has: the arity of the starting cost and, from
      non-negative weights, non-negative and at least the starting cost. */
  ghost predicate AcdBounded(fs: set<LinearFunction>, s: AcdDiagrams.AcdState)
  {
    forall f :: f in fs ==>
      f.Arity() == s.totalIncreaser.Arity()
      && (AcdProperties.NonNegativeState(s) ==> NonNegative(f) && Dominates(f, s.totalIncreaser))
  }

  /** Bounds met from a successor r of s are met from s. */
  lemma AcdBoundedStep(fs: set<LinearFunction>, s: AcdDiagrams.AcdState, r: AcdDiagrams.AcdState)
    requires AcdBounded(fs, r) && r.totalIncreaser.Arity() == s.totalIncreaser.Arity()
    requires AcdProperties.NonNegativeState(s) ==>
      AcdProperties.NonNegativeState(r) && Dominates(r.totalIncreaser, s.totalIncreaser)
    ensures AcdBounded(fs, s)
  {
    forall f | f in fs && AcdProperties.NonNegativeState(s)
      ensures Dominates(f, s.totalIncreaser)
    {
      DominatesTransitive(s.totalIncreaser, r.totalIncreaser, f);
    }
  }

  lemma {:induction false} AcdReachableBounds(s: AcdDiagrams.AcdState, moves: int, isLimitCase: bool)
    requires AcdDiagrams.Valid(s) && AcdDiagrams.EachTwice(s.chords)
    ensures AcdBounded(AcdReachable(s, moves, isLimitCase), s)
    decreases |s.chords|, 1
  {
    if s.numberOfIncreases != moves {
      AcdTurnsReachableBounds(s, AcdDiagrams.PossibleTurns(s), 0, moves, isLimitCase);
      AcdSideReachableBounds(s, false, moves, isLimitCase);
      AcdSideReachableBounds(s, true, moves, isLimitCase);
    }
  }

  lemma {:induction false} AcdTurnsReachableBounds(s: AcdDiagrams.AcdState, turns: seq<int>, i: nat, moves: int, isLimitCase: bool)
    requires AcdDiagrams.Valid(s) && AcdDiagrams.EachTwice(s.chords)
    requires i <= |turns| && forall t :: t in turns ==> t in AcdDiagrams.PossibleTurns(s)
    ensures AcdBounded(AcdTurnsReachable(s, turns, i, moves, isLimitCase), s)
    decreases |s.chords|, 0, |turns| - i
  {
    if i < |turns| {
      AcdProperties.TurnEliminationRemovesChord(s, turns[i]);
      var r := AcdDiagrams.TurnElimination(s, turns[i]);
      AcdReachableBounds(r, moves, isLimitCase);
      AcdTurnsReachableBounds(s, turns, i + 1, moves, isLimitCase);
      if AcdProperties.NonNegativeState(s) {
        AcdProperties.TurnEliminationGrows(s, turns[i]);
      }
      AcdBoundedStep(AcdReachable(r, moves, isLimitCase), s, r);
    }
  }

  lemma {:induction false} AcdSideReachableBounds(s: AcdDiagrams.AcdState, isRight: bool, moves: int, isLimitCase: bool)
    requires AcdDiagrams.Valid(s) && AcdDiagrams.EachTwice(s.chords)
    ensures AcdBounded(AcdSideReachable(s, isRight, moves, isLimitCase), s)
    decreases |s.chords|, 0, 0
  {
    if |s.chords| > 0 {
      AcdProperties.SideEliminationRemovesChord(s, isRight, isLimitCase);
      var r := AcdDiagrams.SideElimination(s, isRight, isLimitCase).value;
      AcdReachableBounds(r, moves, isLimitCase);
      if AcdProperties.NonNegativeState(s) {
        AcdProperties.SideEliminationGrows(s, isRight, isLimitCase);
      }
      AcdBoundedStep(AcdReachable(r, moves, isLimitCase), s, r);
    }
  }

  /** A cyclic diagram already past the target collects nothing. */
  lemma {:induction false} AcdPastTarget(s: AcdDiagrams.AcdState, moves: int, isLimitCase: bool)
    requires AcdDiagrams.Valid(s) && AcdDiagrams.EachTwice(s.chords) && s.numberOfIncreases > moves
    ensures AcdReachable(s, moves, isLimitCase) == {}
    decreases |s.chords|, 1
  {
    AcdTurnsPastTarget(s, AcdDiagrams.PossibleTurns(s), 0, moves, isLimitCase);
    AcdSidePastTarget(s, false, moves, isLimitCase);
    AcdSidePastTarget(s, true, moves, isLimitCase);
  }

  lemma {:induction false} AcdTurnsPastTarget(s: AcdDiagrams.AcdState, turns: seq<int>, i: nat, moves: int, isLimitCase: bool)
    requires AcdDiagrams.Valid(s) && AcdDiagrams.EachTwice(s.chords) && s.numberOfIncreases > moves
    requires i <= |turns| && forall t :: t in turns ==> t in AcdDiagrams.PossibleTurns(s)
    ensures AcdTurnsReachable(s, turns, i, moves, isLimitCase) == {}
    decreases |s.chords|, 0, |turns| - i
  {
    if i < |turns| {
      AcdProperties.TurnEliminationRemovesChord(s, turns[i]);
      AcdProperties.TurnEliminationCost(s, turns[i]);
      AcdPastTarget(AcdDiagrams.TurnElimination(s, turns[i]), moves, isLimitCase);
      AcdTurnsPastTarget(s, turns, i + 1, moves, isLimitCase);
    }
  }

  lemma {:induction false} AcdSidePastTarget(s: AcdDiagrams.AcdState, isRight: bool, moves: int, isLimitCase: bool)
    requires AcdDiagrams.Valid(s) && AcdDiagrams.EachTwice(s.chords) && s.numberOfIncreases > moves
    ensures AcdSideReachable(s, isRight, moves, isLimitCase) == {}
    decreases |s.chords|, 0, 0
  {
    if |s.chords| > 0 {
      AcdProperties.SideEliminationRemovesChord(s, isRight, isLimitCase);
      AcdProperties.SideEliminationCost(s, isRight, isLimitCase);
      AcdPastTarget(AcdDiagrams.SideElimination(s, isRight, isLimitCase).value, moves, isLimitCase);
    }
  }
}
