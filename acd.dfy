/**
  Annotated chord diagrams (class ACD): a cyclic string of chord labels cut open at a
  point, with one weight (a linear function) for each gap between consecutive letters,
  the two outer gaps included. In the diagrams the search starts from, every label
  occurs exactly twice.

  The value-level state machine (AcdState and the functions Initial, LeftElimination,
  RightElimination, SideElimination, TurnElimination, PossibleTurns) specifies the class
  Acd, whose methods change the two lists in place.
*/
module AcdDiagrams {
  import opened Wrappers
  import opened LinearFunctions
  import opened ChordDiagrams
  import opened Sequences

  datatype AcdState = AcdState(
    chords: seq<int>,
    weights: seq<LinearFunction>,
    totalIncreaser: LinearFunction,
    numberOfIncreases: int)

  /** One weight per gap, all of the arity of the accumulated cost. */
  ghost predicate Valid(s: AcdState)
  {
    && |s.weights| == |s.chords| + 1
    && forall i :: 0 <= i < |s.weights| ==> s.weights[i].Arity() == s.totalIncreaser.Arity()
  }

  /** Every label that occurs occurs exactly twice: each chord has both its ends. */
  ghost predicate EachTwice(chords: seq<int>)
  {
    forall x :: x in multiset(chords) ==> multiset(chords)[x] == 2
  }

  /** ACD(chords): the weight of gap j is the unit function x[j + 1] of arity |chords| + 2,
      and the cost starts at zero. */
  function Initial(chords: seq<int>): (s: AcdState)
    requires |chords| + 2 <= Capacity
    ensures Valid(s) && s.chords == chords
  {
    AcdState(chords, seq(|chords| + 1, j requires 0 <= j <= |chords| => Unit(j + 1, 1, |chords| + 2)),
      Zero(|chords| + 2), 0)
  }

  /** What eliminate_from_side needs to find the other end of the outermost chord: when the
      diagram is not empty, that label occurs again further in. */
  predicate HasOtherEnd(s: AcdState, isRight: bool)
  {
    |s.chords| > 0 ==>
      if isRight then s.chords[|s.chords| - 1] in s.chords[..|s.chords| - 1]
      else s.chords[0] in s.chords[1..]
  }

  /** The left branch of eliminate_from_side. The first label a and the first weight p go;
      the new first weight absorbs p; at the first remaining occurrence j of a, the weight
      before it absorbs 2p and the weight after it (plus a crossing), and that weight and
      the occurrence are erased. The cost rises by 2p plus a crossing. */
  function LeftElimination(s: AcdState, isLimitCase: bool): (r: AcdState)
    requires Valid(s) && |s.chords| > 0 && HasOtherEnd(s, false)
    ensures Valid(r) && |r.chords| == |s.chords| - 2
    ensures r.totalIncreaser.Arity() == s.totalIncreaser.Arity()
  {
    var p := s.weights[0];
    var a := s.chords[0];
    var w1 := s.weights[1..];
    var c1 := s.chords[1..];
    var w2 := w1[0 := Add(w1[0], p)];
    var j := FirstIndex(c1, a);
    var w3 := w2[j := AddCrossing(Add(w2[j], Add(Scale(2, p), w2[j + 1])), isLimitCase)];
    AcdState(Remove(c1, j), Remove(w3, j + 1),
      AddCrossing(Add(s.totalIncreaser, Scale(2, p)), isLimitCase), s.numberOfIncreases + 1)
  }

  /** The right branch of eliminate_from_side, read off its reverse iterators: the last
      label a and the last weight p go; the new last weight absorbs p; at the last
      remaining occurrence k of a, the weight after it absorbs 2p and the weight before it
      (plus a crossing), and that weight and the occurrence are erased. */
  function RightElimination(s: AcdState, isLimitCase: bool): (r: AcdState)
    requires Valid(s) && |s.chords| > 0 && HasOtherEnd(s, true)
    ensures Valid(r) && |r.chords| == |s.chords| - 2
    ensures r.totalIncreaser.Arity() == s.totalIncreaser.Arity()
  {
    var m := |s.chords|;
    var p := s.weights[m];
    var a := s.chords[m - 1];
    var w1 := s.weights[..m];
    var c1 := s.chords[..m - 1];
    var w2 := w1[m - 1 := Add(w1[m - 1], p)];
    var k := LastIndex(c1, a);
    var w3 := w2[k + 1 := AddCrossing(Add(w2[k + 1], Add(Scale(2, p), w2[k])), isLimitCase)];
    AcdState(Remove(c1, k), Remove(w3, k),
      AddCrossing(Add(s.totalIncreaser, Scale(2, p)), isLimitCase), s.numberOfIncreases + 1)
  }

  /** eliminate_from_side: None (false) on the empty diagram. */
  function SideElimination(s: AcdState, isRight: bool, isLimitCase: bool): (r: Option<AcdState>)
    requires Valid(s) && HasOtherEnd(s, isRight)
    ensures r.None? <==> |s.chords| == 0
    ensures r.Some? ==> Valid(r.value) && |r.value.chords| == |s.chords| - 2
    ensures r.Some? ==> r.value.totalIncreaser.Arity() == s.totalIncreaser.Arity()
  {
    if |s.chords| == 0 then None
    else if isRight then Some(RightElimination(s, isLimitCase))
    else Some(LeftElimination(s, isLimitCase))
  }

  /** What eliminate_turn(a) needs: a occurs, and not only as the last letter (the code
      erases the occurrence and the letter after it, and the two weights after it). */
  predicate IsTurnName(s: AcdState, a: int)
  {
    a in s.chords && FirstIndex(s.chords, a) + 1 < |s.chords|
  }

  /** eliminate_turn(a): with i the first occurrence of a, the letters at i and i + 1 go;
      the cost rises by the weight between them, and the weight before them absorbs it and
      the weight after them, both of which are erased. */
  function TurnElimination(s: AcdState, a: int): (r: AcdState)
    requires Valid(s) && IsTurnName(s, a)
    ensures Valid(r) && |r.chords| == |s.chords| - 2
    ensures r.totalIncreaser.Arity() == s.totalIncreaser.Arity()
  {
    var i := FirstIndex(s.chords, a);
    var w := s.weights;
    var w1 := w[i := Add(w[i], Add(w[i + 1], w[i + 2]))];
    AcdState(s.chords[..i] + s.chords[i + 2..], w1[..i + 1] + w1[i + 3..],
      Add(s.totalIncreaser, w[i + 1]), s.numberOfIncreases + 1)
  }

  /** Positions i - 1 and i hold the same label: the two ends of a chord. The cut point
      does not count, so the last and first letter never form a turn. */
  predicate TurnAt(chords: seq<int>, i: int)
  {
    1 <= i < |chords| && chords[i] == chords[i - 1]
  }

  /** The turns among positions 1 .. n - 1, in increasing position. */
  function TurnsUpTo(chords: seq<int>, n: nat): (turns: seq<int>)
    requires n <= |chords|
    ensures forall t :: t in turns <==> exists i :: TurnAt(chords, i) && i < n && chords[i] == t
  {
    if n <= 1 then []
    else
      var rest := TurnsUpTo(chords, n - 1);
      var here := if chords[n - 1] == chords[n - 2] then [chords[n - 1]] else [];
      assert TurnAt(chords, n - 1) ==> chords[n - 1] in here;
      rest + here
  }

  /** get_all_possible_turns: the label of every turn, scanning from the front. */
  function PossibleTurns(s: AcdState): (turns: seq<int>)
    ensures forall t :: t in turns <==> exists i :: TurnAt(s.chords, i) && s.chords[i] == t
  {
    TurnsUpTo(s.chords, |s.chords|)
  }

  // ---------------------------------------------------------------------------
  // The class
  // ---------------------------------------------------------------------------

  class Acd {
    const base: ChordDiagramBase
    /** The labels in cyclic order, cut open at the basepoint. */
    var chords: seq<int>
    /** weights[i] sits before chords[i]; the last weight sits after the last letter. */
    var weights: seq<LinearFunction>

    function State(): AcdState
      reads this, base
    {
      AcdState(chords, weights, base.totalIncreaser, base.numberOfIncreases)
    }

    /** The object holds a valid cyclic diagram. */
    ghost predicate Inv()
      reads this, base
    {
      Valid(State())
    }

    /** ACD(chords). */
    constructor (chords: seq<int>)
      requires |chords| + 2 <= Capacity
      ensures State() == Initial(chords) && Inv() && fresh(base)
    {
      base := new ChordDiagramBase(|chords| + 2);
      var labels: seq<int> := [];
      var gaps: seq<LinearFunction> := [];
      var counter := 0;
      while counter < |chords|
        invariant 0 <= counter <= |chords|
        invariant labels == chords[..counter] && |gaps| == counter
        invariant forall j :: 0 <= j < counter ==> gaps[j] == Unit(j + 1, 1, |chords| + 2)
      {
        labels := labels + [chords[counter]];
        counter := counter + 1;
        gaps := gaps + [Unit(counter, 1, |chords| + 2)];
      }
      counter := counter + 1;
      gaps := gaps + [Unit(counter, 1, |chords| + 2)];
      this.chords := labels;
      weights := gaps;
    }

    /** The copy made whenever a diagram is passed or assigned by value. */
    constructor Copy(other: Acd)
      ensures State() == other.State() && fresh(base)
    {
      base := new ChordDiagramBase.Copy(other.base);
      chords := other.chords;
      weights := other.weights;
    }

    /** get_all_possible_turns. */
    method GetAllPossibleTurns() returns (results: seq<int>)
      ensures results == PossibleTurns(State())
    {
      results := [];
      if |chords| == 0 {
        return;
      }
      var i := 1;
      while i < |chords|
        invariant 1 <= i <= |chords|
        invariant results == TurnsUpTo(chords, i)
      {
        if chords[i] == chords[i - 1] {
          results := results + [chords[i]];
        }
        i := i + 1;
      }
    }

    /** The search loop of the left branch: the first position of a. */
    static method FindForward(labels: seq<int>, a: int) returns (j: nat)
      requires a in labels
      ensures j == FirstIndex(labels, a)
    {
      j := 0;
      while labels[j] != a
        invariant j < |labels| && a !in labels[..j]
        decreases |labels| - j
      {
        assert labels[..j + 1] == labels[..j] + [labels[j]];
        j := j + 1;
      }
      FirstIndexUnique(labels, a, j);
    }

    /** The search loop of the right branch: the last position of a. */
    static method FindBackward(labels: seq<int>, a: int) returns (k: nat)
      requires a in labels
      ensures k == LastIndex(labels, a)
    {
      k := |labels| - 1;
      while labels[k] != a
        invariant k < |labels| && a !in labels[k + 1..]
        decreases k
      {
        assert labels[k..] == [labels[k]] + labels[k + 1..];
        k := k - 1;
      }
      LastIndexUnique(labels, a, k);
    }

    /** The list surgery of the left branch; returns the removed weight p. */
    method EliminateFirst(ghost s: AcdState, isLimitCase: bool) returns (p: LinearFunction)
      requires Valid(s) && s.chords == chords && s.weights == weights
      requires |chords| > 0 && HasOtherEnd(s, false)
      modifies this
      ensures p == s.weights[0]
      ensures chords == LeftElimination(s, isLimitCase).chords
      ensures weights == LeftElimination(s, isLimitCase).weights
    {
      p := weights[0];
      var a := chords[0];
      weights := weights[1..];
      chords := chords[1..];
      weights := weights[0 := Add(weights[0], p)];
      var j := FindForward(chords, a);
      var f := Add(weights[j], Add(Scale(2, p), weights[j + 1]));
      if !isLimitCase {
        f := AddConstant(f, 1);
      }
      weights := Remove(weights[j := f], j + 1);
      chords := Remove(chords, j);
    }

    /** The list surgery of the right branch; returns the removed weight p. */
    method EliminateLast(ghost s: AcdState, isLimitCase: bool) returns (p: LinearFunction)
      requires Valid(s) && s.chords == chords && s.weights == weights
      requires |chords| > 0 && HasOtherEnd(s, true)
      modifies this
      ensures p == s.weights[|s.chords|]
      ensures chords == RightElimination(s, isLimitCase).chords
      ensures weights == RightElimination(s, isLimitCase).weights
    {
      var m := |chords|;
      p := weights[m];
      var a := chords[m - 1];
      var gaps := weights[..m];
      var labels := chords[..m - 1];
      gaps := gaps[m - 1 := Add(gaps[m - 1], p)];
      var k := FindBackward(labels, a);
      var f := Add(gaps[k + 1], Add(Scale(2, p), gaps[k]));
      if !isLimitCase {
        f := AddConstant(f, 1);
      }
      weights := Remove(gaps[k + 1 := f], k);
      chords := Remove(labels, k);
    }

    /** eliminate_from_side: false, changing nothing, on the empty diagram. */
    method EliminateFromSide(isRight: bool, isLimitCase: bool) returns (ok: bool)
      requires Inv() && HasOtherEnd(State(), isRight)
      modifies this, base
      ensures Inv()
      ensures ok <==> |old(chords)| > 0
      ensures State() == if ok then SideElimination(old(State()), isRight, isLimitCase).value else old(State())
    {
      if |chords| == 0 {
        return false;
      }
      ghost var s := State();
      ghost var r := SideElimination(s, isRight, isLimitCase).value;
      base.numberOfIncreases := base.numberOfIncreases + 1;
      var p: LinearFunction;
      if !isRight {
        p := EliminateFirst(s, isLimitCase);
      } else {
        p := EliminateLast(s, isLimitCase);
      }
      var f := Add(base.totalIncreaser, Scale(2, p));
      if !isLimitCase {
        f := AddConstant(f, 1);
      }
      assert f == r.totalIncreaser;
      base.totalIncreaser := f;
      ok := true;
    }

    /** eliminate_turn(a): always succeeds on a name get_all_possible_turns returns. */
    method EliminateTurn(a: int) returns (ok: bool)
      requires Inv() && IsTurnName(State(), a)
      modifies this, base
      ensures Inv() && ok
      ensures State() == TurnElimination(old(State()), a)
    {
      base.numberOfIncreases := base.numberOfIncreases + 1;
      var i := FindForward(chords, a);
      base.totalIncreaser := Add(base.totalIncreaser, weights[i + 1]);
      weights := weights[i := Add(weights[i], Add(weights[i + 1], weights[i + 2]))];
      weights := weights[..i + 1] + weights[i + 3..];
      chords := chords[..i] + chords[i + 2..];
      ok := true;
    }
  }
}
