/**
  Multivariable affine functions with integer coefficients (class linear_function).

  A function is stored as its coefficient sequence: index 0 is the constant term and
  index i > 0 the coefficient of the variable x[i]. The arity is the length of the
  sequence. The type is a value type, as in the C++ program, where every function is
  copied on assignment; the compound assignments `*=` and `+=` are methods that take the
  old value and return the new one, updating one coefficient per loop iteration.
*/
module LinearFunctions {

  /** Largest number of chords the program is built for. */
  const NMax: nat := 6
  /** Number of coefficient slots in the fixed storage of one function. */
  const Capacity: nat := 3 + 2 * NMax

  datatype LinearFunction = LinearFunction(coefs: seq<int>) {
    /** The number of coefficients in use (get_number_of_variables). */
    function Arity(): nat { |coefs| }

    /** get_coef_under_variable: only slots below the arity are ever read. */
    function Coef(n: nat): int
      requires n < Arity()
    {
      coefs[n]
    }
  }

  /** linear_function(variable, value, n): arity n, `value` at index `variable`, 0 elsewhere.
      A variable at or above the arity is stored outside the used slots and is invisible. */
  function Unit(variable: nat, value: int, numOfVariables: nat): (f: LinearFunction)
    requires variable < Capacity && numOfVariables <= Capacity
    ensures f.Arity() == numOfVariables
    ensures forall i :: 0 <= i < numOfVariables ==> f.coefs[i] == (if i == variable then value else 0)
  {
    var zeros := seq(numOfVariables, _ => 0);
    LinearFunction(if variable < numOfVariables then zeros[variable := value] else zeros)
  }

  /** The zero function of a given arity, linear_function(0, 0, n). */
  function Zero(numOfVariables: nat): (f: LinearFunction)
    requires numOfVariables <= Capacity
    ensures f.Arity() == numOfVariables
    ensures forall i :: 0 <= i < numOfVariables ==> f.coefs[i] == 0
  {
    Unit(0, 0, numOfVariables)
  }

  /** operator+(p, q): coefficientwise sum over the arity of p. */
  function Add(p: LinearFunction, q: LinearFunction): LinearFunction
    requires p.Arity() == q.Arity()
  {
    LinearFunction(seq(p.Arity(), i requires 0 <= i < p.Arity() => p.coefs[i] + q.coefs[i]))
  }

  /** operator*(k, p): every coefficient multiplied by k. */
  function Scale(k: int, p: LinearFunction): LinearFunction
  {
    LinearFunction(seq(p.Arity(), i requires 0 <= i < p.Arity() => k * p.coefs[i]))
  }

  /** operator+(p, int) and `+= int`: only the constant slot changes. */
  function AddConstant(p: LinearFunction, coef: int): LinearFunction
  {
    if p.Arity() == 0 then p else LinearFunction(p.coefs[0 := p.coefs[0] + coef])
  }

  /** Strict lexicographic order of two coefficient sequences, from index 0 upward. */
  predicate LexLess(x: seq<int>, y: seq<int>)
    requires |x| == |y|
  {
    |x| > 0 && (x[0] < y[0] || (x[0] == y[0] && LexLess(x[1..], y[1..])))
  }

  /** Every coefficient is non-negative. */
  ghost predicate NonNegative(f: LinearFunction)
  {
    forall i :: 0 <= i < |f.coefs| ==> f.coefs[i] >= 0
  }

  /** g is coefficientwise at least f (same arity). */
  ghost predicate Dominates(g: LinearFunction, f: LinearFunction)
  {
    |g.coefs| == |f.coefs| && forall i :: 0 <= i < |f.coefs| ==> g.coefs[i] >= f.coefs[i]
  }

  // ---------------------------------------------------------------------------
  // The operators with loops
  // ---------------------------------------------------------------------------

  /** operator*=(mult): scales the coefficients below the arity one at a time. */
  method MulAssign(p: LinearFunction, mult: int) returns (r: LinearFunction)
    ensures r == Scale(mult, p)
  {
    var c := p.coefs;
    for i := 0 to |c|
      invariant |c| == |p.coefs|
      invariant forall j :: 0 <= j < i ==> c[j] == mult * p.coefs[j]
      invariant forall j :: i <= j < |c| ==> c[j] == p.coefs[j]
    {
      c := c[i := c[i] * mult];
    }
    r := LinearFunction(c);
  }

  /** operator+=(q): adds q coefficientwise over the receiver's arity. */
  method AddAssign(p: LinearFunction, q: LinearFunction) returns (r: LinearFunction)
    requires p.Arity() == q.Arity()
    ensures r == Add(p, q)
  {
    var c := p.coefs;
    for i := 0 to |c|
      invariant |c| == |p.coefs|
      invariant forall j :: 0 <= j < i ==> c[j] == p.coefs[j] + q.coefs[j]
      invariant forall j :: i <= j < |c| ==> c[j] == p.coefs[j]
    {
      c := c[i := c[i] + q.coefs[i]];
    }
    r := LinearFunction(c);
  }

  /** operator==: compares the coefficients below the arity, stopping at the first difference. */
  method Equals(a: LinearFunction, b: LinearFunction) returns (eq: bool)
    requires a.Arity() == b.Arity()
    ensures eq <==> a == b
  {
    for i := 0 to a.Arity()
      invariant a.coefs[..i] == b.coefs[..i]
    {
      if a.coefs[i] != b.coefs[i] {
        return false;
      }
    }
    assert a.coefs == a.coefs[..a.Arity()] && b.coefs == b.coefs[..b.Arity()];
    return true;
  }

  /** operator>=: decided at the first differing coefficient; equal functions compare true. */
  method GreaterOrEqual(a: LinearFunction, b: LinearFunction) returns (ge: bool)
    requires a.Arity() == b.Arity()
    ensures ge <==> !LexLess(a.coefs, b.coefs)
  {
    for i := 0 to a.Arity()
      invariant LexLess(a.coefs, b.coefs) == LexLess(a.coefs[i..], b.coefs[i..])
    {
      assert a.coefs[i..][1..] == a.coefs[i + 1..] && b.coefs[i..][1..] == b.coefs[i + 1..];
      if a.coefs[i] < b.coefs[i] {
        return false;
      }
      if a.coefs[i] > b.coefs[i] {
        return true;
      }
    }
    return true;
  }

  /** operator<=: defined as `b >= a`. */
  method LessOrEqual(a: LinearFunction, b: LinearFunction) returns (le: bool)
    requires a.Arity() == b.Arity()
    ensures le <==> !LexLess(b.coefs, a.coefs)
  {
    le := GreaterOrEqual(b, a);
  }

  /** operator<: compares the slots below arity - 1 with early exit, then the last slot
      strictly. The last slot is read unconditionally, so the arity must be positive. */
  method LessThan(a: LinearFunction, b: LinearFunction) returns (lt: bool)
    requires a.Arity() == b.Arity() && a.Arity() >= 1
    ensures lt <==> LexLess(a.coefs, b.coefs)
  {
    var n := a.Arity();
    for i := 0 to n - 1
      invariant LexLess(a.coefs, b.coefs) == LexLess(a.coefs[i..], b.coefs[i..])
    {
      assert a.coefs[i..][1..] == a.coefs[i + 1..] && b.coefs[i..][1..] == b.coefs[i + 1..];
      if a.coefs[i] < b.coefs[i] {
        return true;
      }
      if a.coefs[i] > b.coefs[i] {
        return false;
      }
    }
    assert a.coefs[n - 1..][1..] == [] && b.coefs[n - 1..][1..] == [];
    return a.coefs[n - 1] < b.coefs[n - 1];
  }

  /** operator>: defined as `b < a`. */
  method GreaterThan(a: LinearFunction, b: LinearFunction) returns (gt: bool)
    requires a.Arity() == b.Arity() && a.Arity() >= 1
    ensures gt <==> LexLess(b.coefs, a.coefs)
  {
    gt := LessThan(b, a);
  }

  // ---------------------------------------------------------------------------
  // Algebra
  // ---------------------------------------------------------------------------

  lemma AddPreservesArity(p: LinearFunction, q: LinearFunction)
    requires p.Arity() == q.Arity()
    ensures Add(p, q).Arity() == p.Arity()
    ensures forall i :: 0 <= i < p.Arity() ==> Add(p, q).coefs[i] == p.coefs[i] + q.coefs[i]
  {
  }

  lemma AddCommutes(p: LinearFunction, q: LinearFunction)
    requires p.Arity() == q.Arity()
    ensures Add(p, q) == Add(q, p)
  {
    assert Add(p, q).coefs == Add(q, p).coefs;
  }

  lemma AddAssociates(p: LinearFunction, q: LinearFunction, r: LinearFunction)
    requires p.Arity() == q.Arity() == r.Arity()
    ensures Add(Add(p, q), r) == Add(p, Add(q, r))
  {
    assert Add(Add(p, q), r).coefs == Add(p, Add(q, r)).coefs;
  }

  lemma ZeroIsAddIdentity(p: LinearFunction)
    requires p.Arity() <= Capacity
    ensures Add(p, Zero(p.Arity())) == p
  {
    assert Add(p, Zero(p.Arity())).coefs == p.coefs;
  }

  lemma DoubleIsSelfSum(p: LinearFunction)
    ensures Scale(2, p) == Add(p, p)
  {
    assert Scale(2, p).coefs == Add(p, p).coefs;
  }

  lemma SubtractUndoesAdd(a: LinearFunction, b: LinearFunction)
    requires a.Arity() == b.Arity()
    ensures Add(Add(a, b), Scale(-1, b)) == a
  {
    assert Add(Add(a, b), Scale(-1, b)).coefs == a.coefs;
  }

  lemma AddConstantTouchesOnlyConstant(p: LinearFunction, coef: int)
    requires p.Arity() >= 1
    ensures AddConstant(p, coef).Arity() == p.Arity()
    ensures AddConstant(p, coef).coefs[0] == p.coefs[0] + coef
    ensures forall i :: 1 <= i < p.Arity() ==> AddConstant(p, coef).coefs[i] == p.coefs[i]
  {
  }

  // ---------------------------------------------------------------------------
  // The order used by std::set
  // ---------------------------------------------------------------------------

  lemma {:induction false} LexLessIrreflexive(x: seq<int>)
    ensures !LexLess(x, x)
  {
    if |x| > 0 {
      LexLessIrreflexive(x[1..]);
    }
  }

  lemma {:induction false} LexLessTransitive(x: seq<int>, y: seq<int>, z: seq<int>)
    requires |x| == |y| == |z|
    requires LexLess(x, y) && LexLess(y, z)
    ensures LexLess(x, z)
  {
    if x[0] == y[0] == z[0] {
      LexLessTransitive(x[1..], y[1..], z[1..]);
    }
  }

  /** For equal arity exactly one of x < y, x == y, y < x holds. */
  lemma {:induction false} LexLessTrichotomy(x: seq<int>, y: seq<int>)
    requires |x| == |y|
    ensures LexLess(x, y) || x == y || LexLess(y, x)
    ensures !(LexLess(x, y) && LexLess(y, x))
    ensures x == y ==> !LexLess(x, y)
  {
    if |x| > 0 {
      LexLessTrichotomy(x[1..], y[1..]);
      if x[0] == y[0] && x[1..] == y[1..] {
        assert x == [x[0]] + x[1..] && y == [y[0]] + y[1..];
      }
    }
  }

  /** Two functions are equivalent for std::set (neither precedes the other) exactly when
      they are equal, so deduplication by the order is deduplication by ==. */
  lemma SetEquivalenceIsEquality(a: LinearFunction, b: LinearFunction)
    requires a.Arity() == b.Arity()
    ensures (!LexLess(a.coefs, b.coefs) && !LexLess(b.coefs, a.coefs)) <==> a == b
  {
    LexLessTrichotomy(a.coefs, b.coefs);
  }

  // ---------------------------------------------------------------------------
  // Non-negative functions only grow under the additions the diagrams perform
  // ---------------------------------------------------------------------------

  lemma AddNonNegative(p: LinearFunction, q: LinearFunction)
    requires p.Arity() == q.Arity() && NonNegative(q)
    ensures Dominates(Add(p, q), p)
    ensures NonNegative(p) ==> NonNegative(Add(p, q))
  {
  }

  lemma ScaleNonNegative(k: int, p: LinearFunction)
    requires k >= 0 && NonNegative(p)
    ensures NonNegative(Scale(k, p)) && Scale(k, p).Arity() == p.Arity()
  {
  }

  lemma AddConstantNonNegative(p: LinearFunction, coef: int)
    requires coef >= 0
    ensures Dominates(AddConstant(p, coef), p)
    ensures NonNegative(p) ==> NonNegative(AddConstant(p, coef))
  {
  }

  lemma DominatesTransitive(f: LinearFunction, g: LinearFunction, h: LinearFunction)
    requires Dominates(h, g) && Dominates(g, f)
    ensures Dominates(h, f)
  {
  }
}
