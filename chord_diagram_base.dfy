/**
  The state shared by both kinds of annotated chord diagram (class chord_diagram_base):
  the sum of the costs of the eliminations made so far and their number.

  The two derived kinds, PreAcd and Acd, each own one ChordDiagramBase object (the base
  subobject) and update its fields in place. The abstract move interface is not a type
  here: each derived class declares its own EliminateFromSide, EliminateTurn and
  GetAllPossibleTurns, and the search is written once per kind.
*/
module ChordDiagrams {
  import opened LinearFunctions

  /** `f` plus one crossing (the constant 1), except in the limit case, where a single
      crossing is insignificant. Every cost update of a side elimination ends with this. */
  function AddCrossing(f: LinearFunction, isLimitCase: bool): (g: LinearFunction)
    ensures g.Arity() == f.Arity()
  {
    if isLimitCase then f else AddConstant(f, 1)
  }

  /** A crossing never lowers a cost and keeps it non-negative. */
  lemma AddCrossingGrows(f: LinearFunction, isLimitCase: bool)
    ensures Dominates(AddCrossing(f, isLimitCase), f)
    ensures NonNegative(f) ==> NonNegative(AddCrossing(f, isLimitCase))
  {
    if !isLimitCase {
      AddConstantNonNegative(f, 1);
    }
  }

  /** The cost of a side elimination, total + 2p plus a crossing, never lowers a
      non-negative cost and stays non-negative. */
  lemma ChargeGrows(total: LinearFunction, p: LinearFunction, isLimitCase: bool)
    requires NonNegative(total) && NonNegative(p) && p.Arity() == total.Arity()
    ensures NonNegative(AddCrossing(Add(total, Scale(2, p)), isLimitCase))
    ensures Dominates(AddCrossing(Add(total, Scale(2, p)), isLimitCase), total)
  {
    var charged := Add(total, Scale(2, p));
    ScaleNonNegative(2, p);
    AddNonNegative(total, Scale(2, p));
    AddCrossingGrows(charged, isLimitCase);
    DominatesTransitive(total, charged, AddCrossing(charged, isLimitCase));
  }

  /** The weight that absorbs a removed chord end, a + (2p + b) plus a crossing, is
      non-negative when its parts are. */
  lemma MergeNonNegative(a: LinearFunction, p: LinearFunction, b: LinearFunction, isLimitCase: bool)
    requires NonNegative(a) && NonNegative(p) && NonNegative(b)
    requires a.Arity() == p.Arity() == b.Arity()
    ensures NonNegative(AddCrossing(Add(a, Add(Scale(2, p), b)), isLimitCase))
  {
    ScaleNonNegative(2, p);
    AddNonNegative(Scale(2, p), b);
    AddNonNegative(a, Add(Scale(2, p), b));
    AddCrossingGrows(Add(a, Add(Scale(2, p), b)), isLimitCase);
  }

  class ChordDiagramBase {
    /** Sum of the linear functions added by every elimination so far. */
    var totalIncreaser: LinearFunction
    /** Number of chords eliminated so far. */
    var numberOfIncreases: int

    /** A fresh diagram has cost zero (of the given arity) and no eliminations. */
    constructor (numOfVariables: nat)
      requires numOfVariables <= Capacity
      ensures totalIncreaser == Zero(numOfVariables)
      ensures numberOfIncreases == 0
    {
      totalIncreaser := Unit(0, 0, numOfVariables);
      numberOfIncreases := 0;
    }

    /** The copy made whenever a diagram is copied. */
    constructor Copy(other: ChordDiagramBase)
      ensures totalIncreaser == other.totalIncreaser
      ensures numberOfIncreases == other.numberOfIncreases
    {
      totalIncreaser := other.totalIncreaser;
      numberOfIncreases := other.numberOfIncreases;
    }

    /** get_increaser: reads the accumulated cost and changes nothing. */
    method GetIncreaser() returns (f: LinearFunction)
      ensures f == totalIncreaser
    {
      f := totalIncreaser;
    }

    /** get_number_of_increases: reads the counter and changes nothing. */
    method GetNumberOfIncreases() returns (n: int)
      ensures n == numberOfIncreases
    {
      n := numberOfIncreases;
    }
  }
}
