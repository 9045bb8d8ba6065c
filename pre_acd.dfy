/**
  Pre-diagrams (class pre_ACD): an annotated chord diagram with a distinguished basepoint,
  kept as two stacks of letters, one on each side of the basepoint. In each stack the
  letter closest to the basepoint has the largest index.

  The value-level state machine (PreAcdState and the functions Initial, SideElimination,
  TurnElimination, PossibleTurns) specifies the class PreAcd, whose methods change the
  two sides in place.
*/
module PreAcdDiagrams {
  import opened Wrappers
  import opened LinearFunctions
  import opened ChordDiagrams

  /** A letter of the alpha-string: its chord label, a unique id and its weight
      (the linear function associated with the letter). */
  datatype Letter = Letter(alphaNumber: int, id: int, weight: LinearFunction)

  /** letter(num, id, n): the weight is the unit function x[id] of arity n. */
  function NewLetter(num: int, id: nat, numOfVariables: nat): Letter
    requires id < Capacity && numOfVariables <= Capacity
  {
    Letter(num, id, Unit(id, 1, numOfVariables))
  }

  /** letter::operator+=: the weight absorbs the other letter's weight. */
  function Absorb(l: Letter, other: Letter): Letter
    requires l.weight.Arity() == other.weight.Arity()
  {
    l.(weight := Add(l.weight, other.weight))
  }

  datatype PreAcdState = PreAcdState(
    lhs: seq<Letter>,
    rhs: seq<Letter>,
    totalIncreaser: LinearFunction,
    numberOfIncreases: int)

  function Side(s: PreAcdState, isRight: bool): seq<Letter>
  {
    if isRight then s.rhs else s.lhs
  }

  function WithSide(s: PreAcdState, isRight: bool, side: seq<Letter>): PreAcdState
  {
    if isRight then s.(rhs := side) else s.(lhs := side)
  }

  /** The number of letters left. */
  function Size(s: PreAcdState): nat
  {
    |s.lhs| + |s.rhs|
  }

  ghost predicate SameArity(side: seq<Letter>, n: nat)
  {
    forall i :: 0 <= i < |side| ==> side[i].weight.Arity() == n
  }

  /** Every weight has the arity of the accumulated cost, so all additions are defined. */
  ghost predicate Uniform(s: PreAcdState)
  {
    SameArity(s.lhs, s.totalIncreaser.Arity()) && SameArity(s.rhs, s.totalIncreaser.Arity())
  }

  /** The state built by pre_ACD(chords): lhs[i] carries chords[i], rhs[i] carries
      chords[2h-1-i]; the ids are 1..2h and every weight is the unit x[id]. */
  function Initial(chords: seq<int>): (s: PreAcdState)
    requires |chords| % 2 == 0 && |chords| + 1 <= Capacity
    ensures Uniform(s)
  {
    var h := |chords| / 2;
    var left := seq(h, i requires 0 <= i < h => NewLetter(chords[i], 1 + i, 2 * h + 1));
    var right := seq(h, i requires 0 <= i < h => NewLetter(chords[2 * h - 1 - i], 1 + i + h, 2 * h + 1));
    assert 2 * h + 1 == |chords| + 1;
    assert SameArity(left, |chords| + 1) && SameArity(right, |chords| + 1);
    PreAcdState(left, right, Zero(|chords| + 1), 0)
  }

  // ---------------------------------------------------------------------------
  // find_letter
  // ---------------------------------------------------------------------------

  /** The other endpoint of a chord: the same label under a different id. */
  predicate IsPartner(l: Letter, pairLetter: Letter)
  {
    l.alphaNumber == pairLetter.alphaNumber && l.id != pairLetter.id
  }

  /** Index of the first partner of pairLetter in side, or |side| when there is none. */
  function FirstPartner(side: seq<Letter>, pairLetter: Letter): (k: nat)
    ensures k <= |side|
    ensures k < |side| ==> IsPartner(side[k], pairLetter)
    ensures forall j :: 0 <= j < k ==> !IsPartner(side[j], pairLetter)
    decreases |side|
  {
    if |side| == 0 then 0
    else if IsPartner(side[0], pairLetter) then 0
    else 1 + FirstPartner(side[1..], pairLetter)
  }

  datatype Location = Nowhere | At(onRight: bool, index: nat)

  /** Where find_letter finds the partner: the first one in lhs, else the first in rhs. */
  function Partner(lhs: seq<Letter>, rhs: seq<Letter>, pairLetter: Letter): (loc: Location)
    ensures loc.At? && !loc.onRight ==>
      loc.index < |lhs| && IsPartner(lhs[loc.index], pairLetter)
      && forall j :: 0 <= j < loc.index ==> !IsPartner(lhs[j], pairLetter)
    ensures loc.At? && loc.onRight ==>
      loc.index < |rhs| && IsPartner(rhs[loc.index], pairLetter)
      && (forall j :: 0 <= j < loc.index ==> !IsPartner(rhs[j], pairLetter))
      && (forall j :: 0 <= j < |lhs| ==> !IsPartner(lhs[j], pairLetter))
    ensures loc.Nowhere? ==>
      (forall j :: 0 <= j < |lhs| ==> !IsPartner(lhs[j], pairLetter))
      && (forall j :: 0 <= j < |rhs| ==> !IsPartner(rhs[j], pairLetter))
  {
    var i := FirstPartner(lhs, pairLetter);
    if i < |lhs| then At(false, i)
    else
      var j := FirstPartner(rhs, pairLetter);
      if j < |rhs| then At(true, j) else Nowhere
  }

  // ---------------------------------------------------------------------------
  // The moves
  // ---------------------------------------------------------------------------

  /** The partner part of eliminate_from_side: when the removed letter has a partner, the
      partner's predecessor (if any) absorbs the partner's weight plus twice the removed
      weight (plus a crossing), and the partner is erased. */
  function RemovePartner(s: PreAcdState, removed: Letter, isLimitCase: bool): (r: PreAcdState)
    requires Uniform(s) && removed.weight.Arity() == s.totalIncreaser.Arity()
    ensures Uniform(r) && r.totalIncreaser == s.totalIncreaser
    ensures r.numberOfIncreases == s.numberOfIncreases
    ensures Size(r) == Size(s) - (if Partner(s.lhs, s.rhs, removed).At? then 1 else 0)
    ensures forall b: bool :: (|Side(r, b)| == |Side(s, b)|
      - (if Partner(s.lhs, s.rhs, removed).At? && Partner(s.lhs, s.rhs, removed).onRight == b then 1 else 0))
  {
    match Partner(s.lhs, s.rhs, removed)
    case Nowhere => s
    case At(onRight, k) =>
      var pl := Side(s, onRight);
      var pl1 := if k > 0 then
          pl[k - 1 := pl[k - 1].(weight := AddCrossing(
            Add(pl[k - 1].weight, Add(pl[k].weight, Scale(2, removed.weight))), isLimitCase))]
        else pl;
      assert SameArity(pl1, s.totalIncreaser.Arity());
      assert SameArity(pl1[..k] + pl1[k + 1..], s.totalIncreaser.Arity());
      WithSide(s, onRight, pl1[..k] + pl1[k + 1..])
  }

  /** The cost part of eliminate_from_side: one more elimination, costing twice the
      outermost weight on the chosen side plus a crossing. */
  function ChargeOutermost(s: PreAcdState, isRight: bool, isLimitCase: bool): (r: PreAcdState)
    requires Uniform(s) && |Side(s, isRight)| > 0
    ensures Uniform(r) && r.lhs == s.lhs && r.rhs == s.rhs
    ensures r.totalIncreaser.Arity() == s.totalIncreaser.Arity()
  {
    var side := Side(s, isRight);
    s.(totalIncreaser := AddCrossing(Add(s.totalIncreaser, Scale(2, side[|side| - 1].weight)), isLimitCase),
       numberOfIncreases := s.numberOfIncreases + 1)
  }

  /** The neighbour part of eliminate_from_side: the next letter on the same side (if
      any) absorbs the outermost weight. */
  function AbsorbOutermost(s: PreAcdState, isRight: bool): (r: PreAcdState)
    requires Uniform(s) && |Side(s, isRight)| > 0
    ensures Uniform(r) && r.totalIncreaser == s.totalIncreaser && r.numberOfIncreases == s.numberOfIncreases
    ensures Side(r, !isRight) == Side(s, !isRight)
    ensures |Side(r, isRight)| == |Side(s, isRight)|
    ensures Side(r, isRight)[|Side(s, isRight)| - 1] == Side(s, isRight)[|Side(s, isRight)| - 1]
  {
    var side := Side(s, isRight);
    var n := |side|;
    if n != 1 then WithSide(s, isRight, side[n - 2 := Absorb(side[n - 2], side[n - 1])]) else s
  }

  /** The final pop_back of eliminate_from_side. */
  function PopOutermost(s: PreAcdState, isRight: bool): (r: PreAcdState)
    requires Uniform(s) && |Side(s, isRight)| > 0
    ensures Uniform(r) && r.totalIncreaser == s.totalIncreaser && r.numberOfIncreases == s.numberOfIncreases
    ensures Size(r) == Size(s) - 1
  {
    var side := Side(s, isRight);
    WithSide(s, isRight, side[..|side| - 1])
  }

  /** eliminate_from_side: None when the chosen side is empty. Otherwise the outermost
      letter (weight w) goes, the counter rises, the cost rises by 2w plus a crossing, the
      next letter on the same side absorbs w, and then the partner is dealt with. */
  function SideElimination(s: PreAcdState, isRight: bool, isLimitCase: bool): (r: Option<PreAcdState>)
    requires Uniform(s)
    ensures r.None? <==> |Side(s, isRight)| == 0
    ensures r.Some? ==> Uniform(r.value) && r.value.totalIncreaser.Arity() == s.totalIncreaser.Arity()
    ensures r.Some? ==> Size(r.value) < Size(s)
  {
    var side := Side(s, isRight);
    if |side| == 0 then None
    else
      var n := |side|;
      var s1 := AbsorbOutermost(ChargeOutermost(s, isRight, isLimitCase), isRight);
      var s2 := RemovePartner(s1, side[n - 1], isLimitCase);
      Some(PopOutermost(s2, isRight))
  }

  /** A position eliminate_turn can be called with: a non-zero index whose absolute value
      i has letters at i - 1 and i on its side (negative: left side, positive: right). */
  predicate IsTurnIndex(s: PreAcdState, index: int)
  {
    index != 0 && (if index > 0 then index < |s.rhs| else -index < |s.lhs|)
  }

  /** eliminate_turn: the letters at i - 1 and i go; the cost rises by the weight at i - 1,
      and the letter at i - 2 (if any) absorbs both removed weights. */
  function TurnElimination(s: PreAcdState, index: int): (r: PreAcdState)
    requires Uniform(s) && IsTurnIndex(s, index)
    ensures Uniform(r) && r.totalIncreaser.Arity() == s.totalIncreaser.Arity()
    ensures Size(r) == Size(s) - 2
  {
    var isRight := index > 0;
    var side := Side(s, isRight);
    var ind := if index > 0 then index else -index;
    var side1 := if ind > 1 then
        side[ind - 2 := side[ind - 2].(weight := Add(side[ind - 2].weight, Add(side[ind - 1].weight, side[ind].weight)))]
      else side;
    WithSide(s, isRight, side1[..ind - 1] + side1[ind + 1..]).(
      totalIncreaser := Add(s.totalIncreaser, side[ind - 1].weight),
      numberOfIncreases := s.numberOfIncreases + 1)
  }

  function Abs(t: int): nat
  {
    if t < 0 then -t else t
  }

  /** Positions j - 1 and j of a side carry the same chord: the two ends of a chord that
      meet without anything between them. */
  predicate Adjacent(side: seq<Letter>, j: int)
  {
    1 <= j < |side| && side[j].alphaNumber == side[j - 1].alphaNumber
  }

  /** A turn: a non-zero index whose sign picks the side (negative: left, positive:
      right) and whose absolute value is an adjacency on that side. */
  predicate IsTurn(s: PreAcdState, t: int)
  {
    t != 0 && Adjacent(Side(s, t > 0), Abs(t))
  }

  /** The turns of one side, scanning indices i down to 1: j for every adjacency j,
      negated on the left side. */
  function SideTurns(side: seq<Letter>, i: int, isRight: bool): (turns: seq<int>)
    requires i < |side|
    ensures forall t :: t in turns <==>
      t != 0 && (t > 0 <==> isRight) && Abs(t) <= i && Adjacent(side, Abs(t))
    decreases i
  {
    if i <= 0 then []
    else
      var head := if side[i].alphaNumber == side[i - 1].alphaNumber then [if isRight then i else -i] else [];
      var tail := SideTurns(side, i - 1, isRight);
      assert forall t :: t in head <==> t != 0 && (t > 0 <==> isRight) && Abs(t) == i && Adjacent(side, Abs(t));
      head + tail
  }

  /** get_all_possible_turns: -i for each left adjacency i, then +i for each right one. */
  function PossibleTurns(s: PreAcdState): (turns: seq<int>)
    ensures forall t :: t in turns <==> IsTurn(s, t)
  {
    var left := SideTurns(s.lhs, |s.lhs| - 1, false);
    var right := SideTurns(s.rhs, |s.rhs| - 1, true);
    assert forall t :: t in left <==> t < 0 && IsTurn(s, t);
    assert forall t :: t in right <==> t > 0 && IsTurn(s, t);
    left + right
  }


  /** One scan of get_all_possible_turns: the adjacencies of one side, from the basepoint
      outward, appended to what was found before. */
  method AppendSideTurns(prefix: seq<int>, side: seq<Letter>, isRight: bool) returns (indices: seq<int>)
    ensures indices == prefix + SideTurns(side, |side| - 1, isRight)
  {
    indices := prefix;
    var i := |side| - 1;
    while i > 0
      invariant -1 <= i < |side|
      invariant prefix + SideTurns(side, |side| - 1, isRight) == indices + SideTurns(side, i, isRight)
    {
      ghost var before := indices;
      if side[i].alphaNumber == side[i - 1].alphaNumber {
        indices := indices + [if isRight then i else -i];
      }
      SideTurnsAdvance(side, i, isRight, before, indices, prefix + SideTurns(side, |side| - 1, isRight));
      i := i - 1;
    }
    assert SideTurns(side, i, isRight) == [];
  }

  /** One pass of the scan: the turn at i, if any, moves from what remains to what is found. */
  lemma SideTurnsAdvance(side: seq<Letter>, i: int, isRight: bool, before: seq<int>, after: seq<int>, all: seq<int>)
    requires 0 < i < |side|
    requires before + SideTurns(side, i, isRight) == all
    requires after == before + (if side[i].alphaNumber == side[i - 1].alphaNumber then [if isRight then i else -i] else [])
    ensures after + SideTurns(side, i - 1, isRight) == all
  {
    var head := if side[i].alphaNumber == side[i - 1].alphaNumber then [if isRight then i else -i] else [];
    assert SideTurns(side, i, isRight) == head + SideTurns(side, i - 1, isRight);
    assert before + (head + SideTurns(side, i - 1, isRight)) == (before + head) + SideTurns(side, i - 1, isRight);
  }

  /** The loop of pre_ACD(chords): the letter with id 1 + i goes to lhs[i] with label
      chords[i], the one with id 1 + h + i to rhs[i] with label chords[2h - 1 - i]. */
  method InitialSides(chords: seq<int>) returns (left: seq<Letter>, right: seq<Letter>)
    requires |chords| % 2 == 0 && |chords| + 1 <= Capacity
    ensures left == Initial(chords).lhs && right == Initial(chords).rhs
  {
    var halfSize := |chords| / 2;
    left, right := [], [];
    for idCounter := 0 to halfSize
      invariant left == Initial(chords).lhs[..idCounter] && right == Initial(chords).rhs[..idCounter]
    {
      InitialSidesStep(chords, halfSize, idCounter);
      left := left + [NewLetter(chords[idCounter], 1 + idCounter, 2 * halfSize + 1)];
      right := right + [NewLetter(chords[2 * halfSize - 1 - idCounter], 1 + idCounter + halfSize, 2 * halfSize + 1)];
    }
    assert Initial(chords).lhs[..halfSize] == Initial(chords).lhs;
    assert Initial(chords).rhs[..halfSize] == Initial(chords).rhs;
  }

  lemma InitialSidesStep(chords: seq<int>, halfSize: nat, i: nat)
    requires |chords| % 2 == 0 && |chords| + 1 <= Capacity && halfSize == |chords| / 2 && i < halfSize
    ensures Initial(chords).lhs[..i + 1]
      == Initial(chords).lhs[..i] + [NewLetter(chords[i], 1 + i, 2 * halfSize + 1)]
    ensures Initial(chords).rhs[..i + 1]
      == Initial(chords).rhs[..i] + [NewLetter(chords[2 * halfSize - 1 - i], 1 + i + halfSize, 2 * halfSize + 1)]
  {
    var s := Initial(chords);
    assert s.lhs[..i + 1] == s.lhs[..i] + [s.lhs[i]];
    assert s.rhs[..i + 1] == s.rhs[..i] + [s.rhs[i]];
  }

  // ---------------------------------------------------------------------------
  // The class
  // ---------------------------------------------------------------------------

  class PreAcd {
    const base: ChordDiagramBase
    /** Letters on the left of the basepoint curve J; the closest has the largest index. */
    var lhs: seq<Letter>
    /** Letters on the right of J; the closest has the largest index. */
    var rhs: seq<Letter>

    function State(): PreAcdState
      reads this, base
    {
      PreAcdState(lhs, rhs, base.totalIncreaser, base.numberOfIncreases)
    }

    ghost predicate Valid()
      reads this, base
    {
      Uniform(State())
    }

    /** pre_ACD(chords); the input has even length (the enumerator always passes 2k labels). */
    constructor (chords: seq<int>)
      requires |chords| % 2 == 0 && |chords| + 1 <= Capacity
      ensures State() == Initial(chords) && Valid() && fresh(base)
    {
      base := new ChordDiagramBase(|chords| + 1);
      var left, right := InitialSides(chords);
      lhs := left;
      rhs := right;
    }

    /** The copy made whenever a pre-diagram is passed or assigned by value. */
    constructor Copy(other: PreAcd)
      ensures State() == other.State() && fresh(base)
    {
      base := new ChordDiagramBase.Copy(other.base);
      lhs := other.lhs;
      rhs := other.rhs;
    }

    /** find_letter: searches lhs, then rhs, for the first partner of pairLetter. */
    method FindLetter(pairLetter: Letter) returns (loc: Location)
      ensures loc == Partner(lhs, rhs, pairLetter)
    {
      for i := 0 to |lhs|
        invariant forall j :: 0 <= j < i ==> !IsPartner(lhs[j], pairLetter)
      {
        if IsPartner(lhs[i], pairLetter) {
          return At(false, i);
        }
      }
      for i := 0 to |rhs|
        invariant forall j :: 0 <= j < i ==> !IsPartner(rhs[j], pairLetter)
      {
        if IsPartner(rhs[i], pairLetter) {
          return At(true, i);
        }
      }
      return Nowhere;
    }

    method SetSide(isRight: bool, side: seq<Letter>)
      modifies this
      ensures lhs == (if isRight then old(lhs) else side)
      ensures rhs == (if isRight then side else old(rhs))
    {
      if isRight {
        rhs := side;
      } else {
        lhs := side;
      }
    }

    /** The partner part of eliminate_from_side, on the two sides in place. */
    method RemovePartnerInPlace(removed: Letter, isLimitCase: bool)
      requires Valid() && removed.weight.Arity() == base.totalIncreaser.Arity()
      modifies this
      ensures State() == RemovePartner(old(State()), removed, isLimitCase)
    {
      var loc := FindLetter(removed);
      if loc.At? {
        var pl := if loc.onRight then rhs else lhs;
        var k := loc.index;
        if k > 0 {
          var f := Add(pl[k - 1].weight, Add(pl[k].weight, Scale(2, removed.weight)));
          if !isLimitCase {
            f := AddConstant(f, 1);
          }
          pl := pl[k - 1 := pl[k - 1].(weight := f)];
        }
        SetSide(loc.onRight, pl[..k] + pl[k + 1..]);
      }
    }

    /** The cost part of eliminate_from_side, on the base in place. */
    method ChargeOutermostInPlace(isRight: bool, isLimitCase: bool)
      requires Valid() && |Side(State(), isRight)| > 0
      modifies base
      ensures State() == ChargeOutermost(old(State()), isRight, isLimitCase)
    {
      var side := if isRight then rhs else lhs;
      base.numberOfIncreases := base.numberOfIncreases + 1;
      base.totalIncreaser := Add(base.totalIncreaser, Scale(2, side[|side| - 1].weight));
      if !isLimitCase {
        base.totalIncreaser := AddConstant(base.totalIncreaser, 1);
      }
    }

    /** The neighbour part of eliminate_from_side, on the chosen side in place. */
    method AbsorbOutermostInPlace(isRight: bool)
      requires Valid() && |Side(State(), isRight)| > 0
      modifies this
      ensures State() == AbsorbOutermost(old(State()), isRight)
    {
      var side := if isRight then rhs else lhs;
      var n := |side|;
      if n != 1 {
        SetSide(isRight, side[n - 2 := Absorb(side[n - 2], side[n - 1])]);
      }
    }

    /** The final pop_back of eliminate_from_side. */
    method PopOutermostInPlace(isRight: bool)
      requires Valid() && |Side(State(), isRight)| > 0
      modifies this
      ensures State() == PopOutermost(old(State()), isRight)
    {
      var side := if isRight then rhs else lhs;
      SetSide(isRight, side[..|side| - 1]);
    }

    /** eliminate_from_side: false, changing nothing, when the side is empty. */
    method EliminateFromSide(isRight: bool, isLimitCase: bool) returns (ok: bool)
      requires Valid()
      modifies this, base
      ensures Valid()
      ensures ok <==> |Side(old(State()), isRight)| > 0
      ensures State() == if ok then SideElimination(old(State()), isRight, isLimitCase).value else old(State())
    {
      var side := if isRight then rhs else lhs;
      if |side| == 0 {
        return false;
      }
      ghost var s := State();
      var n := |side|;
      ChargeOutermostInPlace(isRight, isLimitCase);
      AbsorbOutermostInPlace(isRight);
      ghost var s1 := State();
      var current := if isRight then rhs else lhs;
      var removed := current[n - 1];
      assert removed == side[n - 1];
      RemovePartnerInPlace(removed, isLimitCase);
      ghost var s2 := State();
      assert s2 == RemovePartner(s1, side[n - 1], isLimitCase);
      assert SideElimination(s, isRight, isLimitCase) == Some(PopOutermost(s2, isRight));
      PopOutermostInPlace(isRight);
      ok := true;
    }

    /** eliminate_turn: the index must be one get_all_possible_turns can return (only its
        bounds matter to the code, which checks nothing); always succeeds. */
    method EliminateTurn(index: int) returns (ok: bool)
      requires Valid() && IsTurnIndex(State(), index)
      modifies this, base
      ensures State() == TurnElimination(old(State()), index)
      ensures Valid() && ok
    {
      ghost var target := TurnElimination(State(), index);
      var isRight := index > 0;
      var side := if isRight then rhs else lhs;
      var ind := if index > 0 then index else -index;
      base.totalIncreaser := Add(base.totalIncreaser, side[ind - 1].weight);
      base.numberOfIncreases := base.numberOfIncreases + 1;
      if ind > 1 {
        side := side[ind - 2 := side[ind - 2].(weight := Add(side[ind - 2].weight, Add(side[ind - 1].weight, side[ind].weight)))];
      }
      SetSide(isRight, side[..ind - 1] + side[ind + 1..]);
      assert State() == target;
      ok := true;
    }

    /** get_all_possible_turns: reads both sides from the basepoint outward. */
    method GetAllPossibleTurns() returns (indices: seq<int>)
      ensures indices == PossibleTurns(State())
    {
      indices := AppendSideTurns([], lhs, false);
      assert indices == SideTurns(lhs, |lhs| - 1, false);
      indices := AppendSideTurns(indices, rhs, true);
    }
  }
}
