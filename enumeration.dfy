/**
  The brute-force enumeration: a diagram is grown one label at a time from the empty
  sequence, a branch is cut as soon as the sequence cannot lead to a large estimate
  (not_interesting), and every completed sequence of 2 * length labels is turned into a
  pre-diagram or a cyclic diagram whose cost set is handed to the solver.
*/
module Enumeration {
  import opened LinearFunctions
  import PreAcdDiagrams
  import PreAcdProperties
  import AcdDiagrams
  import AcdProperties
  import opened Search

  /** Which kind of diagram the template parameter chord_like_type stands for. */
  datatype Variant = PreAcdVariant | AcdVariant

  // ---------------------------------------------------------------------------
  // not_interesting
  // ---------------------------------------------------------------------------

  /** Positions i - 1 and i carry the same label, a chord of length one. In a pre-diagram
      built from 2k labels the positions k - 1 and k are the tops of the two stacks and
      do not form such a chord. */
  ghost predicate ShortChordAt(v: Variant, chords: seq<int>, requiredK: int, i: int)
  {
    1 <= i < |chords| && chords[i] == chords[i - 1] && (v == AcdVariant || i != requiredK)
  }

  ghost predicate Distinct(q: seq<int>)
  {
    forall i, j :: 0 <= i < j < |q| ==> q[i] != q[j]
  }

  /** A sequence whose completions all give small estimates: with at least four chords,
      either some chord has length one, or (with more than five chords) the last
      requiredK labels are pairwise different. */
  ghost predicate Uninteresting(v: Variant, chords: seq<int>, requiredK: int)
  {
    requiredK >= 4
    && ((exists i :: ShortChordAt(v, chords, requiredK, i))
      || (requiredK > 5 && |chords| >= requiredK && Distinct(chords[|chords| - requiredK..])))
  }

  /** The set of labels occurring in q. */
  function Elements(q: seq<int>): (r: set<int>)
    ensures forall x :: x in r <==> x in q
  {
    if |q| == 0 then {} else {q[0]} + Elements(q[1..])
  }

  /** A sequence has as many different labels as positions exactly when its labels are
      pairwise different. */
  lemma {:induction false} ElementsCount(q: seq<int>)
    ensures |Elements(q)| <= |q|
    ensures |Elements(q)| == |q| <==> Distinct(q)
  {
    if |q| > 0 {
      ElementsCount(q[1..]);
      if q[0] in q[1..] {
        RepeatedHead(q);
      } else {
        NewHead(q);
      }
    }
  }

  /** A first label that occurs again adds no element and breaks distinctness. */
  lemma RepeatedHead(q: seq<int>)
    requires |q| > 0 && q[0] in q[1..]
    ensures Elements(q) == Elements(q[1..]) && !Distinct(q)
  {
    var tail := q[1..];
    var j :| 0 <= j < |tail| && tail[j] == q[0];
    assert q[0] == q[j + 1];
  }

  /** A first label that does not occur again adds one element and keeps distinctness. */
  lemma NewHead(q: seq<int>)
    requires |q| > 0 && q[0] !in q[1..]
    ensures |Elements(q)| == |Elements(q[1..])| + 1
    ensures Distinct(q) <==> Distinct(q[1..])
  {
    var tail := q[1..];
    assert Elements(q) == {q[0]} + Elements(tail);
    assert q[0] !in Elements(tail);
    if Distinct(tail) {
      DistinctCons(q);
    }
    if Distinct(q) {
      DistinctTail(q);
    }
  }

  lemma DistinctCons(q: seq<int>)
    requires |q| > 0 && q[0] !in q[1..] && Distinct(q[1..])
    ensures Distinct(q)
  {
    var tail := q[1..];
    forall i, j | 0 <= i < j < |q|
      ensures q[i] != q[j]
    {
      assert q[j] == tail[j - 1];
      if i > 0 {
        assert q[i] == tail[i - 1];
      }
    }
  }

  lemma DistinctTail(q: seq<int>)
    requires |q| > 0 && Distinct(q)
    ensures Distinct(q[1..])
  {
    var tail := q[1..];
    forall i, j | 0 <= i < j < |tail|
      ensures tail[i] != tail[j]
    {
      assert tail[i] == q[i + 1] && tail[j] == q[j + 1];
    }
  }

  /** Without a chord of length one only the test on the last requiredK labels is left. */
  lemma NoShortChord(v: Variant, chords: seq<int>, requiredK: int)
    requires requiredK >= 4 && forall j :: 1 <= j < |chords| ==> !ShortChordAt(v, chords, requiredK, j)
    ensures Uninteresting(v, chords, requiredK)
      == (requiredK > 5 && |chords| >= requiredK && Distinct(chords[|chords| - requiredK..]))
  {
  }

  /** not_interesting<T>(chords, required_k). */
  method NotInteresting(v: Variant, chords: seq<int>, requiredK: int) returns (r: bool)
    ensures r == Uninteresting(v, chords, requiredK)
  {
    if requiredK < 4 {
      return false;
    }
    var i := 1;
    while i < |chords|
      invariant 1 <= i
      invariant forall j :: 1 <= j < i ==> !ShortChordAt(v, chords, requiredK, j)
    {
      if chords[i] == chords[i - 1] && (v == AcdVariant || i != requiredK) {
        assert ShortChordAt(v, chords, requiredK, i);
        return true;
      }
      i := i + 1;
    }
    NoShortChord(v, chords, requiredK);
    if requiredK > 5 && |chords| >= requiredK {
      var names := LastLabels(chords, requiredK);
      ElementsCount(chords[|chords| - requiredK..]);
      return |names| == requiredK;
    }
    return false;
  }

  /** The chords_names set of not_interesting: the labels among the last k positions. */
  method LastLabels(chords: seq<int>, k: int) returns (names: set<int>)
    requires 0 <= k <= |chords|
    ensures names == Elements(chords[|chords| - k..])
  {
    names := {};
    var j := 0;
    while j < k
      invariant 0 <= j <= k
      invariant names == Elements(chords[|chords| - j..])
    {
      assert chords[|chords| - (j + 1)..] == [chords[|chords| - j - 1]] + chords[|chords| - j..];
      names := names + {chords[|chords| - j - 1]};
      j := j + 1;
    }
  }

  // ---------------------------------------------------------------------------
  // The labels that may follow a sequence
  // ---------------------------------------------------------------------------

  /** std::max on int. */
  function MaxOf(a: int, b: int): (m: int)
    ensures a <= m && b <= m && (m == a || m == b)
  {
    if a < b then b else a
  }

  /** The largest label of q, starting from -1 as the source does. */
  function MaxLabel(q: seq<int>): (m: int)
    ensures -1 <= m && (m == -1 || m in q)
    ensures forall i :: 0 <= i < |q| ==> q[i] <= m
  {
    if |q| == 0 then -1
    else
      var front := q[..|q| - 1];
      var m := MaxOf(q[|q| - 1], MaxLabel(front));
      assert forall i :: 0 <= i < |q| - 1 ==> q[i] == front[i];
      m
  }

  /** The labels used an odd number of times: the chords still waiting for their second
      end. */
  function OddLabels(q: seq<int>): set<int>
  {
    set x | x in q && multiset(q)[x] % 2 == 1
  }

  /** possible_values: every open chord may be closed; a new label may be opened if the
      variant is a pre-diagram or fewer than `length` labels are in use. */
  function Candidates(v: Variant, q: seq<int>, length: int): set<int>
  {
    OddLabels(q) + (if MaxLabel(q) < length || v == PreAcdVariant then {MaxLabel(q) + 1} else {})
  }

  /** Appending one label toggles its membership in the set of open chords. */
  lemma OddLabelsStep(q: seq<int>, i: nat)
    requires i < |q|
    ensures OddLabels(q[..i + 1])
      == if q[i] in OddLabels(q[..i]) then OddLabels(q[..i]) - {q[i]} else OddLabels(q[..i]) + {q[i]}
  {
    var p := q[..i];
    var p' := q[..i + 1];
    assert p' == p + [q[i]];
    assert multiset(p') == multiset(p) + multiset{q[i]};
    forall x
      ensures x in OddLabels(p') <==> x in (if q[i] in OddLabels(p) then OddLabels(p) - {q[i]} else OddLabels(p) + {q[i]})
    {
      assert x in p' <==> x in p || x == q[i];
    }
  }

  /** The loop of walk_trough_all_diagrams that collects possible_values and max_v. */
  method PossibleValues(v: Variant, rhsLhs: seq<int>, length: int) returns (possible: set<int>)
    ensures possible == Candidates(v, rhsLhs, length)
  {
    possible := {};
    var maxV := -1;
    var i := 0;
    while i < |rhsLhs|
      invariant 0 <= i <= |rhsLhs|
      invariant possible == OddLabels(rhsLhs[..i]) && maxV == MaxLabel(rhsLhs[..i])
    {
      var c := rhsLhs[i];
      OddLabelsStep(rhsLhs, i);
      if c !in possible {
        possible := possible + {c};
      } else {
        possible := possible - {c};
      }
      maxV := MaxOf(c, maxV);
      assert rhsLhs[..i + 1][..i] == rhsLhs[..i];
      i := i + 1;
    }
    assert rhsLhs[..|rhsLhs|] == rhsLhs;
    if maxV < length || v == PreAcdVariant {
      possible := possible + {maxV + 1};
    }
  }

  // ---------------------------------------------------------------------------
  // The shape of the sequences the walk builds
  // ---------------------------------------------------------------------------

  /** Labels are 1..MaxLabel(q) without gaps, no label is used more than twice, and a
      cyclic diagram uses at most `length` labels. */
  ghost predicate Shape(v: Variant, q: seq<int>, length: int)
  {
    (forall i :: 0 <= i < |q| ==> 1 <= q[i])
    && (forall x :: 1 <= x <= MaxLabel(q) ==> x in q)
    && (forall x :: multiset(q)[x] <= 2)
    && (v == AcdVariant ==> MaxLabel(q) <= length)
  }

  lemma MaxLabelAppend(q: seq<int>, c: int)
    ensures MaxLabel(q + [c]) == MaxOf(c, MaxLabel(q))
  {
    assert (q + [c])[..|q|] == q;
  }

  /** Every candidate label keeps the shape. */
  lemma CandidateKeepsShape(v: Variant, q: seq<int>, length: int, c: int)
    requires |q| > 0 && Shape(v, q, length) && c in Candidates(v, q, length)
    ensures Shape(v, q + [c], length)
  {
    var m := MaxLabel(q);
    var q' := q + [c];
    MaxLabelAppend(q, c);
    assert multiset(q') == multiset(q) + multiset{c};
    assert 1 <= q[0] <= m;
    forall x | 1 <= x <= MaxLabel(q')
      ensures x in q'
    {
      if x <= m {
        assert x in q;
      } else {
        assert q'[|q|] == x;
      }
    }
    if c in OddLabels(q) {
      assert c <= m;
    } else {
      assert c == m + 1;
      assert c !in q;
    }
  }

  /** The number of elements of m lying in [lo, hi), counted value by value. */
  ghost function CountBetween(m: multiset<int>, lo: int, hi: int): nat
    decreases hi - lo
  {
    if hi <= lo then 0 else m[lo] + CountBetween(m, lo + 1, hi)
  }

  lemma {:induction false} CountBetweenAdd(m: multiset<int>, x: int, lo: int, hi: int)
    ensures CountBetween(m + multiset{x}, lo, hi) == CountBetween(m, lo, hi) + (if lo <= x < hi then 1 else 0)
    decreases hi - lo
  {
    if lo < hi {
      CountBetweenAdd(m, x, lo + 1, hi);
    }
  }

  /** When every element lies in [lo, hi), counting value by value counts them all. */
  lemma {:induction false} CountBetweenAll(q: seq<int>, lo: int, hi: int)
    requires forall i :: 0 <= i < |q| ==> lo <= q[i] < hi
    ensures CountBetween(multiset(q), lo, hi) == |q|
    decreases |q|
  {
    if |q| > 0 {
      var front := q[..|q| - 1];
      assert q == front + [q[|q| - 1]];
      assert forall i :: 0 <= i < |front| ==> front[i] == q[i];
      CountBetweenAll(front, lo, hi);
      CountBetweenAdd(multiset(front), q[|q| - 1], lo, hi);
    } else {
      CountBetweenEmpty(lo, hi);
    }
  }

  lemma {:induction false} CountBetweenEmpty(lo: int, hi: int)
    ensures CountBetween(multiset{}, lo, hi) == 0
    decreases hi - lo
  {
    if lo < hi {
      CountBetweenEmpty(lo + 1, hi);
    }
  }

  /** At most two of each value: at most twice the width, and exactly twice only when
      every value is there twice. */
  lemma {:induction false} CountBetweenBound(m: multiset<int>, lo: int, hi: int)
    requires lo <= hi && forall x :: m[x] <= 2
    ensures CountBetween(m, lo, hi) <= 2 * (hi - lo)
    ensures CountBetween(m, lo, hi) == 2 * (hi - lo) ==> forall x :: lo <= x < hi ==> m[x] == 2
    decreases hi - lo
  {
    if lo < hi {
      CountBetweenBound(m, lo + 1, hi);
    }
  }

  /** A completed cyclic sequence of 2 * length labels uses each of 1..length exactly
      twice and nothing else. */
  lemma CompletedShape(q: seq<int>, length: int)
    requires Shape(AcdVariant, q, length) && |q| == 2 * length
    ensures forall i :: 0 <= i < |q| ==> 1 <= q[i] <= length
    ensures forall x :: 1 <= x <= length ==> multiset(q)[x] == 2
    ensures AcdDiagrams.EachTwice(q)
  {
    var m := MaxLabel(q);
    if |q| == 0 {
      return;
    }
    assert 1 <= q[0] <= m;
    CountBetweenAll(q, 1, m + 1);
    CountBetweenBound(multiset(q), 1, m + 1);
    assert m == length;
  }

  // ---------------------------------------------------------------------------
  // The diagrams the walk completes
  // ---------------------------------------------------------------------------

  /** The completed sequences walk_trough_all_diagrams reaches from prefix after pushing
      newV: nothing once the sequence is not interesting, the sequence itself once it has
      2 * length labels, and otherwise whatever every candidate label leads to. */
  ghost function Diagrams(v: Variant, prefix: seq<int>, length: int, newV: int): set<seq<int>>
    requires |prefix| < 2 * length
    decreases 2 * length - |prefix|, 0
  {
    var q := prefix + [newV];
    if Uninteresting(v, q, length) then {}
    else if |q| == 2 * length then {q}
    else ChildDiagrams(v, q, length, Candidates(v, q, length))
  }

  lemma NonEmptyHasElement(cs: set<int>)
    requires cs != {}
    ensures exists c :: c in cs
  {
    if forall c :: c !in cs {
      assert false;
    }
  }

  /** What the walk reaches from q through the labels of cs, in any order. */
  ghost function ChildDiagrams(v: Variant, q: seq<int>, length: int, cs: set<int>): set<seq<int>>
    requires |q| < 2 * length
    decreases 2 * length - |q|, 1, |cs|
  {
    if cs == {} then {}
    else
      NonEmptyHasElement(cs);
      var c :| c in cs;
      Diagrams(v, q, length, c) + ChildDiagrams(v, q, length, cs - {c})
  }

  lemma UnionRegroup<T>(a: set<T>, b: set<T>, c: set<T>)
    ensures a + (b + c) == b + (a + c)
  {
  }

  /** The order in which the candidates are visited does not matter. */
  lemma {:induction false} ChildDiagramsPick(v: Variant, q: seq<int>, length: int, cs: set<int>, c: int)
    requires |q| < 2 * length && c in cs
    ensures ChildDiagrams(v, q, length, cs) == Diagrams(v, q, length, c) + ChildDiagrams(v, q, length, cs - {c})
    decreases |cs|
  {
    var c0 :| c0 in cs && ChildDiagrams(v, q, length, cs)
      == Diagrams(v, q, length, c0) + ChildDiagrams(v, q, length, cs - {c0});
    if c0 != c {
      var rest := cs - {c0} - {c};
      assert cs - {c} - {c0} == rest;
      ChildDiagramsPick(v, q, length, cs - {c0}, c);
      ChildDiagramsPick(v, q, length, cs - {c}, c0);
      UnionRegroup(Diagrams(v, q, length, c0), Diagrams(v, q, length, c), ChildDiagrams(v, q, length, rest));
    }
  }

  /** A completed sequence d is reached from prefix and newV: it extends prefix + [newV]
      to 2 * length labels, none of its prefixes from prefix + [newV] on is cut, and each
      label after that one is a candidate for the labels before it. */
  ghost predicate Walkable(v: Variant, prefix: seq<int>, length: int, newV: int, d: seq<int>)
  {
    |prefix| < |d| == 2 * length && d[..|prefix| + 1] == prefix + [newV]
    && (forall m :: |prefix| + 1 <= m <= 2 * length ==> !Uninteresting(v, d[..m], length))
    && (forall m :: |prefix| + 1 <= m < 2 * length ==> d[m] in Candidates(v, d[..m], length))
  }

  lemma {:induction false} ChildDiagramsMember(v: Variant, q: seq<int>, length: int, cs: set<int>, d: seq<int>)
    requires |q| < 2 * length
    ensures d in ChildDiagrams(v, q, length, cs) <==> exists c :: c in cs && d in Diagrams(v, q, length, c)
    decreases |cs|
  {
    if cs != {} {
      NonEmptyHasElement(cs);
      var c :| c in cs;
      ChildDiagramsPick(v, q, length, cs, c);
      ChildDiagramsMember(v, q, length, cs - {c}, d);
    }
  }

  /** A walkable sequence continues with a candidate label. */
  lemma WalkableForward(v: Variant, prefix: seq<int>, length: int, newV: int, d: seq<int>)
    requires |prefix| + 1 < 2 * length && Walkable(v, prefix, length, newV, d)
    ensures d[|prefix| + 1] in Candidates(v, prefix + [newV], length)
    ensures Walkable(v, prefix + [newV], length, d[|prefix| + 1], d)
  {
    var q := prefix + [newV];
    var n := |q|;
    assert d[..n] == q;
    assert d[..n + 1] == d[..n] + [d[n]];
  }

  /** A sequence walkable after a candidate label is walkable before it. */
  lemma WalkableBackward(v: Variant, prefix: seq<int>, length: int, newV: int, c: int, d: seq<int>)
    requires |prefix| + 1 < 2 * length && !Uninteresting(v, prefix + [newV], length)
    requires c in Candidates(v, prefix + [newV], length) && Walkable(v, prefix + [newV], length, c, d)
    ensures Walkable(v, prefix, length, newV, d)
  {
    var q := prefix + [newV];
    var n := |q|;
    assert d[..n] == d[..n + 1][..n];
    assert d[..n] == q;
    assert d[..|prefix| + 1] == q;
    forall m | |prefix| + 1 <= m <= 2 * length
      ensures !Uninteresting(v, d[..m], length)
    {
      if m == n {
        assert d[..m] == q;
      }
    }
    forall m | |prefix| + 1 <= m < 2 * length
      ensures d[m] in Candidates(v, d[..m], length)
    {
      if m == |prefix| + 1 {
        assert d[..m] == q && d[m] == c;
      }
    }
  }

  lemma WalkableStep(v: Variant, prefix: seq<int>, length: int, newV: int, d: seq<int>)
    requires |prefix| + 1 < 2 * length
    requires !Uninteresting(v, prefix + [newV], length)
    ensures Walkable(v, prefix, length, newV, d)
      <==> exists c :: c in Candidates(v, prefix + [newV], length) && Walkable(v, prefix + [newV], length, c, d)
  {
    var q := prefix + [newV];
    if Walkable(v, prefix, length, newV, d) {
      WalkableForward(v, prefix, length, newV, d);
    }
    if exists c :: c in Candidates(v, q, length) && Walkable(v, q, length, c, d) {
      var c :| c in Candidates(v, q, length) && Walkable(v, q, length, c, d);
      WalkableBackward(v, prefix, length, newV, c, d);
    }
  }

  /** The walk reaches exactly the walkable sequences. */
  lemma {:induction false} DiagramsWalkable(v: Variant, prefix: seq<int>, length: int, newV: int, d: seq<int>)
    requires |prefix| < 2 * length
    ensures d in Diagrams(v, prefix, length, newV) <==> Walkable(v, prefix, length, newV, d)
    decreases 2 * length - |prefix|
  {
    var q := prefix + [newV];
    if Uninteresting(v, q, length) {
    } else if |q| == 2 * length {
      if Walkable(v, prefix, length, newV, d) {
        assert d == d[..|prefix| + 1];
      }
      if d == q {
        assert d[..|q|] == q;
      }
    } else {
      ChildDiagramsMember(v, q, length, Candidates(v, q, length), d);
      WalkableStep(v, prefix, length, newV, d);
      forall c | c in Candidates(v, q, length)
        ensures d in Diagrams(v, q, length, c) <==> Walkable(v, q, length, c, d)
      {
        DiagramsWalkable(v, q, length, c, d);
      }
    }
  }

  /** Every sequence the walk reaches from prefix + [newV] starts with it and has its
      label newV at position |prefix|. */
  lemma DiagramsHead(v: Variant, prefix: seq<int>, length: int, newV: int, d: seq<int>)
    requires |prefix| < 2 * length && d in Diagrams(v, prefix, length, newV)
    ensures |prefix| < |d| == 2 * length && d[..|prefix|] == prefix && d[|prefix|] == newV
  {
    DiagramsWalkable(v, prefix, length, newV, d);
    assert d[..|prefix|] == d[..|prefix| + 1][..|prefix|];
    assert d[|prefix|] == d[..|prefix| + 1][|prefix|];
  }

  /** Every sequence the walk reaches from a well-shaped start keeps the shape. */
  lemma {:induction false} DiagramsShape(v: Variant, prefix: seq<int>, length: int, newV: int, d: seq<int>)
    requires |prefix| < 2 * length && Shape(v, prefix + [newV], length)
    requires d in Diagrams(v, prefix, length, newV)
    ensures Shape(v, d, length)
    decreases 2 * length - |prefix|
  {
    var q := prefix + [newV];
    if !Uninteresting(v, q, length) && |q| != 2 * length {
      ChildDiagramsMember(v, q, length, Candidates(v, q, length), d);
      var c :| c in Candidates(v, q, length) && d in Diagrams(v, q, length, c);
      CandidateKeepsShape(v, q, length, c);
      DiagramsShape(v, q, length, c, d);
    }
  }

  // ---------------------------------------------------------------------------
  // The estimate of one completed diagram
  // ---------------------------------------------------------------------------

  /** The fixed storage of a linear function holds the 2 * length + 1 variables of a
      pre-diagram and the 2 * length + 2 of a cyclic diagram. */
  ghost predicate Fits(v: Variant, length: int)
  {
    1 <= length && (if v == PreAcdVariant then 2 * length + 1 <= Capacity else 2 * length + 2 <= Capacity)
  }

  /** A sequence the constructor of the variant accepts and the search can run on. */
  ghost predicate Completed(v: Variant, d: seq<int>, length: int)
  {
    Fits(v, length) && |d| == 2 * length && (v == AcdVariant ==> AcdDiagrams.EachTwice(d))
  }

  /** Every completed sequence the walk reaches from a well-shaped start is one. */
  lemma WalkCompletes(v: Variant, prefix: seq<int>, length: int, newV: int, d: seq<int>)
    requires Fits(v, length) && |prefix| < 2 * length
    requires v == AcdVariant ==> Shape(v, prefix + [newV], length)
    requires d in Diagrams(v, prefix, length, newV)
    ensures Completed(v, d, length)
  {
    DiagramsHead(v, prefix, length, newV, d);
    if v == AcdVariant {
      DiagramsShape(v, prefix, length, newV, d);
      CompletedShape(d, length);
    }
  }

  /** The set of linear functions handed to the solver for the diagram built from d. */
  function Costs(v: Variant, d: seq<int>, length: int, isLimitCase: bool): set<LinearFunction>
    requires Completed(v, d, length)
  {
    if v == PreAcdVariant then PreAcdReachable(PreAcdDiagrams.Initial(d), length, isLimitCase)
    else AcdReachable(AcdDiagrams.Initial(d), length, isLimitCase)
  }

  /** The solver's answer for the diagram built from d. */
  function Estimate(v: Variant, d: seq<int>, length: int, isLimitCase: bool,
                    solve: (set<LinearFunction>, bool) -> real): real
    requires Completed(v, d, length)
  {
    solve(Costs(v, d, length, isLimitCase), isLimitCase)
  }

  /** Every linear function handed to the solver has one variable per letter plus the
      constant (and, for a cyclic diagram, one for the gap that closes the circle), and
      no negative coefficient. */
  lemma CostsShape(v: Variant, d: seq<int>, length: int, isLimitCase: bool)
    requires Completed(v, d, length)
    ensures forall f :: f in Costs(v, d, length, isLimitCase) ==>
      f.Arity() == (if v == PreAcdVariant then |d| + 1 else |d| + 2) && NonNegative(f)
  {
    if v == PreAcdVariant {
      PreAcdProperties.InitialNonNegative(d);
      PreAcdReachableBounds(PreAcdDiagrams.Initial(d), length, isLimitCase);
    } else {
      AcdProperties.InitialNonNegative(d);
      AcdReachableBounds(AcdDiagrams.Initial(d), length, isLimitCase);
    }
  }

  /** get_estimates_for_one_chord_diagram on a pre-diagram. */
  method GetEstimatesPreAcd(s: PreAcdDiagrams.PreAcd, numOfEliminations: int, isLimitCase: bool,
                            solve: (set<LinearFunction>, bool) -> real) returns (e: real)
    requires s.Valid()
    ensures e == solve(PreAcdReachable(s.State(), numOfEliminations, isLimitCase), isLimitCase)
  {
    var results := AllLinearFunctionsPreAcd(s, {}, numOfEliminations, isLimitCase);
    assert results == PreAcdReachable(s.State(), numOfEliminations, isLimitCase);
    e := solve(results, isLimitCase);
  }

  /** get_estimates_for_one_chord_diagram on a cyclic diagram. */
  method GetEstimatesAcd(s: AcdDiagrams.Acd, numOfEliminations: int, isLimitCase: bool,
                         solve: (set<LinearFunction>, bool) -> real) returns (e: real)
    requires s.Inv() && AcdDiagrams.EachTwice(s.chords)
    ensures e == solve(AcdReachable(s.State(), numOfEliminations, isLimitCase), isLimitCase)
  {
    var results := AllLinearFunctionsAcd(s, {}, numOfEliminations, isLimitCase);
    assert results == AcdReachable(s.State(), numOfEliminations, isLimitCase);
    e := solve(results, isLimitCase);
  }

  /** The two estimates of one completed sequence: build the diagram of the variant and
      solve what its eliminations reach, without and with the limit case. */
  method EstimateDiagram(v: Variant, d: seq<int>, length: int, solve: (set<LinearFunction>, bool) -> real)
    returns (e8: real, eLimit: real)
    requires Completed(v, d, length)
    ensures e8 == Estimate(v, d, length, false, solve)
    ensures eLimit == Estimate(v, d, length, true, solve)
  {
    if v == PreAcdVariant {
      var diagram := new PreAcdDiagrams.PreAcd(d);
      e8 := GetEstimatesPreAcd(diagram, length, false, solve);
      eLimit := GetEstimatesPreAcd(diagram, length, true, solve);
    } else {
      var diagram := new AcdDiagrams.Acd(d);
      e8 := GetEstimatesAcd(diagram, length, false, solve);
      eLimit := GetEstimatesAcd(diagram, length, true, solve);
    }
  }

  // ---------------------------------------------------------------------------
  // The running maxima
  // ---------------------------------------------------------------------------

  /** std::max on double. */
  function MaxReal(a: real, b: real): (m: real)
    ensures a <= m && b <= m && (m == a || m == b)
  {
    if a < b then b else a
  }

  /** value is the maximum of start and of the estimates of the completed diagrams in ds. */
  ghost predicate IsBest(value: real, start: real, v: Variant, ds: set<seq<int>>, length: int,
                         isLimitCase: bool, solve: (set<LinearFunction>, bool) -> real)
  {
    start <= value
    && (forall d :: d in ds && Completed(v, d, length) ==> Estimate(v, d, length, isLimitCase, solve) <= value)
    && (value == start
      || exists d :: d in ds && Completed(v, d, length) && value == Estimate(v, d, length, isLimitCase, solve))
  }

  /** Folding one more diagram into the maximum. */
  lemma IsBestLeaf(start: real, v: Variant, d: seq<int>, length: int, isLimitCase: bool,
                   solve: (set<LinearFunction>, bool) -> real)
    requires Completed(v, d, length)
    ensures IsBest(MaxReal(start, Estimate(v, d, length, isLimitCase, solve)), start, v, {d}, length, isLimitCase, solve)
  {
  }

  /** Taking the maximum over one set and then over another is taking it over both. */
  lemma IsBestChain(a: real, b: real, c: real, v: Variant, ds: set<seq<int>>, es: set<seq<int>>, length: int,
                    isLimitCase: bool, solve: (set<LinearFunction>, bool) -> real)
    requires IsBest(b, a, v, ds, length, isLimitCase, solve) && IsBest(c, b, v, es, length, isLimitCase, solve)
    ensures IsBest(c, a, v, ds + es, length, isLimitCase, solve)
  {
    if c != a && c == b {
      var d :| d in ds && Completed(v, d, length) && b == Estimate(v, d, length, isLimitCase, solve);
      assert d in ds + es;
    } else if c != b {
      var d :| d in es && Completed(v, d, length) && c == Estimate(v, d, length, isLimitCase, solve);
      assert d in ds + es;
    }
  }

  lemma DisjointUnionSize(a: set<seq<int>>, b: set<seq<int>>)
    requires a !! b
    ensures |a + b| == |a| + |b|
  {
    assert a * b == {};
  }

  // ---------------------------------------------------------------------------
  // walk_trough_all_diagrams
  // ---------------------------------------------------------------------------

  /** The state walk_trough_all_diagrams shares by reference across its recursion: the
      sequence being built, the two running maxima and the number of completed diagrams. */
  class DiagramWalk {
    var rhsLhs: seq<int>
    var value8: real
    var valueLimit: real
    var numberOfDiag: int

    constructor (rhsLhs: seq<int>, value8: real, valueLimit: real)
      ensures this.rhsLhs == rhsLhs && this.value8 == value8 && this.valueLimit == valueLimit
      ensures numberOfDiag == 0
    {
      this.rhsLhs := rhsLhs;
      this.value8 := value8;
      this.valueLimit := valueLimit;
      numberOfDiag := 0;
    }

    /** Push newV, cut, complete or branch over the candidates, and pop again: rhsLhs is
        restored, every reached diagram is counted once, and both maxima take in the
        estimates of exactly the reached diagrams. */
    method Walk(v: Variant, length: int, newV: int, solve: (set<LinearFunction>, bool) -> real)
      requires Fits(v, length) && |rhsLhs| < 2 * length
      requires v == AcdVariant ==> Shape(v, rhsLhs + [newV], length)
      modifies this
      ensures rhsLhs == old(rhsLhs)
      ensures numberOfDiag == old(numberOfDiag) + |Diagrams(v, old(rhsLhs), length, newV)|
      ensures IsBest(value8, old(value8), v, Diagrams(v, old(rhsLhs), length, newV), length, false, solve)
      ensures IsBest(valueLimit, old(valueLimit), v, Diagrams(v, old(rhsLhs), length, newV), length, true, solve)
      decreases 2 * length - |rhsLhs|, 0
    {
      ghost var prefix := rhsLhs;
      rhsLhs := rhsLhs + [newV];
      var skip := NotInteresting(v, rhsLhs, length);
      if skip {
        rhsLhs := rhsLhs[..|rhsLhs| - 1];
        assert rhsLhs == prefix;
        return;
      }
      if |rhsLhs| == 2 * length {
        assert Diagrams(v, prefix, length, newV) == {rhsLhs};
        WalkCompletes(v, prefix, length, newV, rhsLhs);
        IsBestLeaf(value8, v, rhsLhs, length, false, solve);
        IsBestLeaf(valueLimit, v, rhsLhs, length, true, solve);
        Complete(v, length, solve);
        rhsLhs := rhsLhs[..|rhsLhs| - 1];
        assert rhsLhs == prefix;
        return;
      }
      var possible := PossibleValues(v, rhsLhs, length);
      WalkCandidates(v, length, possible, solve);
      rhsLhs := rhsLhs[..|rhsLhs| - 1];
      assert rhsLhs == prefix;
    }

    /** A completed sequence: build the diagram, count it and fold both of its estimates
        into the maxima. */
    method Complete(v: Variant, length: int, solve: (set<LinearFunction>, bool) -> real)
      requires Completed(v, rhsLhs, length)
      modifies this
      ensures rhsLhs == old(rhsLhs) && numberOfDiag == old(numberOfDiag) + 1
      ensures value8 == MaxReal(old(value8), Estimate(v, rhsLhs, length, false, solve))
      ensures valueLimit == MaxReal(old(valueLimit), Estimate(v, rhsLhs, length, true, solve))
    {
      var e8, eLimit := EstimateDiagram(v, rhsLhs, length, solve);
      numberOfDiag := numberOfDiag + 1;
      value8 := MaxReal(value8, e8);
      valueLimit := MaxReal(valueLimit, eLimit);
    }

    /** The loop over possible_values, in whatever order the unordered set yields them. */
    method WalkCandidates(v: Variant, length: int, possible: set<int>, solve: (set<LinearFunction>, bool) -> real)
      requires Fits(v, length) && 0 < |rhsLhs| < 2 * length
      requires v == AcdVariant ==> Shape(v, rhsLhs, length)
      requires possible <= Candidates(v, rhsLhs, length)
      modifies this
      ensures rhsLhs == old(rhsLhs)
      ensures numberOfDiag == old(numberOfDiag) + |ChildDiagrams(v, old(rhsLhs), length, possible)|
      ensures IsBest(value8, old(value8), v, ChildDiagrams(v, old(rhsLhs), length, possible), length, false, solve)
      ensures IsBest(valueLimit, old(valueLimit), v, ChildDiagrams(v, old(rhsLhs), length, possible), length, true, solve)
      decreases 2 * length - |rhsLhs|, 1
    {
      ghost var q := rhsLhs;
      ghost var done: set<seq<int>> := {};
      var remaining := possible;
      while remaining != {}
        invariant rhsLhs == q && remaining <= possible
        invariant done + ChildDiagrams(v, q, length, remaining) == ChildDiagrams(v, q, length, possible)
        invariant done !! ChildDiagrams(v, q, length, remaining)
        invariant numberOfDiag == old(numberOfDiag) + |done|
        invariant IsBest(value8, old(value8), v, done, length, false, solve)
        invariant IsBest(valueLimit, old(valueLimit), v, done, length, true, solve)
        decreases remaining
      {
        var c :| c in remaining;
        ghost var reached := Diagrams(v, q, length, c);
        CandidateStep(v, q, length, possible, remaining, c, done);
        if v == AcdVariant {
          CandidateKeepsShape(v, q, length, c);
        }
        ghost var before8, beforeLimit := value8, valueLimit;
        assert |rhsLhs| == |q|;
        Walk(v, length, c, solve);
        IsBestChain(old(value8), before8, value8, v, done, reached, length, false, solve);
        IsBestChain(old(valueLimit), beforeLimit, valueLimit, v, done, reached, length, true, solve);
        done := done + reached;
        remaining := remaining - {c};
      }
    }
  }

  /** The bookkeeping of one pass of the candidate loop: what is done and what remains
      still split the reachable diagrams without overlap. */
  lemma CandidateStep(v: Variant, q: seq<int>, length: int, possible: set<int>, remaining: set<int>, c: int,
                      done: set<seq<int>>)
    requires |q| < 2 * length && c in remaining
    requires done + ChildDiagrams(v, q, length, remaining) == ChildDiagrams(v, q, length, possible)
    requires done !! ChildDiagrams(v, q, length, remaining)
    ensures var reached := Diagrams(v, q, length, c);
      && (done + reached) + ChildDiagrams(v, q, length, remaining - {c}) == ChildDiagrams(v, q, length, possible)
      && (done + reached) !! ChildDiagrams(v, q, length, remaining - {c})
      && |done + reached| == |done| + |reached|
  {
    var rest := remaining - {c};
    var reached := Diagrams(v, q, length, c);
    var later := ChildDiagrams(v, q, length, rest);
    ChildDiagramsPick(v, q, length, remaining, c);
    ChildDiagramsHeads(v, q, length, rest);
    forall d | d in reached
      ensures d !in later
    {
      DiagramsHead(v, q, length, c, d);
    }
    SplitStep(done, ChildDiagrams(v, q, length, remaining), reached, later, ChildDiagrams(v, q, length, possible));
  }

  /** Moving one part of the remainder over to what is done. */
  lemma SplitStep(done: set<seq<int>>, remainder: set<seq<int>>, reached: set<seq<int>>, later: set<seq<int>>,
                  all: set<seq<int>>)
    requires done + remainder == all && done !! remainder
    requires remainder == reached + later && reached !! later
    ensures (done + reached) + later == all && (done + reached) !! later
    ensures |done + reached| == |done| + |reached|
  {
    DisjointUnionSize(done, reached);
  }

  /** Every sequence reached through the labels of cs carries one of them at position |q|. */
  lemma ChildDiagramsHeads(v: Variant, q: seq<int>, length: int, cs: set<int>)
    requires |q| < 2 * length
    ensures forall d :: d in ChildDiagrams(v, q, length, cs) ==> |q| < |d| && d[|q|] in cs
  {
    forall d | d in ChildDiagrams(v, q, length, cs)
      ensures |q| < |d| && d[|q|] in cs
    {
      ChildDiagramsMember(v, q, length, cs, d);
      var c :| c in cs && d in Diagrams(v, q, length, c);
      DiagramsHead(v, q, length, c, d);
    }
  }

  // ---------------------------------------------------------------------------
  // calculate_estimate
  // ---------------------------------------------------------------------------

  /** The number of walks calculate_estimate runs side by side when length >= 6. */
  const NumberOfThreads: nat := 11

  /** The sequence each of those walks starts from (lhs_rhs) and the label it pushes
      first (last_elements). */
  const ThreadPrefixes: seq<seq<int>> := [[1, 2, 3, 4, 5], [1, 2, 3, 4, 5], [1, 2, 3, 4, 5], [1, 2, 3, 4, 5],
    [1, 2, 3, 4, 5], [1, 2, 3, 4], [1, 2, 3, 4], [1, 2, 3, 4], [1, 2, 3], [1, 2, 3], [1, 2]]
  const LastElements: seq<int> := [6, 4, 3, 2, 1, 3, 2, 1, 2, 1, 1]

  /** Each starting sequence is 1, 2, ..., n for some n from 2 to 5, and its first label
      lies in 1 .. n + 1; only walk 0 opens a new chord with it. */
  lemma ThreadStart(j: nat)
    requires j < NumberOfThreads
    ensures 2 <= |ThreadPrefixes[j]| <= 5
    ensures ThreadPrefixes[j] == PreAcdProperties.Range(1, |ThreadPrefixes[j]| + 1)
    ensures 1 <= LastElements[j] <= |ThreadPrefixes[j]| + 1
    ensures LastElements[j] == |ThreadPrefixes[j]| + 1 <==> j == 0
  {
    assert PreAcdProperties.Range(1, 6) == [1, 2, 3, 4, 5];
    assert PreAcdProperties.Range(1, 5) == [1, 2, 3, 4];
    assert PreAcdProperties.Range(1, 4) == [1, 2, 3];
    assert PreAcdProperties.Range(1, 3) == [1, 2];
  }

  /** The labels 1 .. n followed by a label c <= n + 1 form a sequence the walk may start
      from: no gaps, no label three times, at most n + 1 labels in use. */
  lemma StartShape(v: Variant, n: nat, c: int, length: int)
    requires 1 <= n && 1 <= c <= n + 1 && n + 1 <= length
    ensures Shape(v, PreAcdProperties.Range(1, n + 1) + [c], length)
  {
    var p := PreAcdProperties.Range(1, n + 1);
    var q := p + [c];
    assert p[n - 1] == n;
    assert MaxLabel(p) == n;
    MaxLabelAppend(p, c);
    forall x | 1 <= x <= MaxLabel(q)
      ensures x in q
    {
      if x <= n {
        assert q[x - 1] == x;
      } else {
        assert q[n] == x;
      }
    }
    forall x
      ensures multiset(q)[x] <= 2
    {
      PreAcdProperties.RangeCount(1, n + 1, x);
      assert multiset(q) == multiset(p) + multiset{c};
    }
  }

  /** What walk j reaches. */
  ghost function ThreadDiagrams(v: Variant, length: int, j: nat): set<seq<int>>
    requires 6 <= length && j < NumberOfThreads
  {
    ThreadStart(j);
    Diagrams(v, ThreadPrefixes[j], length, LastElements[j])
  }

  /** What walks 0 .. n - 1 reach together. */
  ghost function ThreadsDiagrams(v: Variant, length: int, n: nat): set<seq<int>>
    requires 6 <= length && n <= NumberOfThreads
  {
    if n == 0 then {} else ThreadsDiagrams(v, length, n - 1) + ThreadDiagrams(v, length, n - 1)
  }

  /** The sum of the counts of walks 0 .. n - 1. */
  ghost function ThreadsCount(v: Variant, length: int, n: nat): int
    requires 6 <= length && n <= NumberOfThreads
  {
    if n == 0 then 0 else ThreadsCount(v, length, n - 1) + |ThreadDiagrams(v, length, n - 1)|
  }

  /** The running maximum after merging walks 0 .. n - 1 into start: start itself before
      the first merge, and afterwards the maximum over -1 (every walk starts from -1),
      start and the estimates of everything those walks reached. */
  ghost predicate MergedBest(value: real, start: real, v: Variant, length: int, n: nat, isLimitCase: bool,
                             solve: (set<LinearFunction>, bool) -> real)
    requires 6 <= length && n <= NumberOfThreads
  {
    if n == 0 then value == start
    else IsBest(value, MaxReal(start, -1.0), v, ThreadsDiagrams(v, length, n), length, isLimitCase, solve)
  }

  /** Merging the first walk, which started from -1. */
  lemma MergeFirst(start: real, e: real, v: Variant, es: set<seq<int>>, length: int, isLimitCase: bool,
                   solve: (set<LinearFunction>, bool) -> real)
    requires IsBest(e, -1.0, v, es, length, isLimitCase, solve)
    ensures IsBest(MaxReal(start, e), MaxReal(start, -1.0), v, es, length, isLimitCase, solve)
  {
  }

  /** Merging a further walk, which started from -1, into a maximum that is at least -1. */
  lemma MergeNext(acc: real, start: real, e: real, v: Variant, ds: set<seq<int>>, es: set<seq<int>>, length: int,
                  isLimitCase: bool, solve: (set<LinearFunction>, bool) -> real)
    requires -1.0 <= start
    requires IsBest(acc, start, v, ds, length, isLimitCase, solve)
    requires IsBest(e, -1.0, v, es, length, isLimitCase, solve)
    ensures IsBest(MaxReal(acc, e), start, v, ds + es, length, isLimitCase, solve)
  {
    var m := MaxReal(acc, e);
    if m != start && m == acc {
      var d :| d in ds && Completed(v, d, length) && acc == Estimate(v, d, length, isLimitCase, solve);
      assert d in ds + es;
    } else if m != start {
      var d :| d in es && Completed(v, d, length) && e == Estimate(v, d, length, isLimitCase, solve);
      assert d in ds + es;
    }
  }

  /** One pass of the merge loop. */
  lemma MergeStep(acc: real, start: real, e: real, v: Variant, length: int, n: nat, isLimitCase: bool,
                  solve: (set<LinearFunction>, bool) -> real)
    requires 6 <= length && n < NumberOfThreads
    requires MergedBest(acc, start, v, length, n, isLimitCase, solve)
    requires IsBest(e, -1.0, v, ThreadDiagrams(v, length, n), length, isLimitCase, solve)
    ensures MergedBest(MaxReal(acc, e), start, v, length, n + 1, isLimitCase, solve)
  {
    var es := ThreadDiagrams(v, length, n);
    var ds := ThreadsDiagrams(v, length, n);
    ThreadsDiagramsStep(v, length, n);
    if n == 0 {
      MergeFirst(start, e, v, es, length, isLimitCase, solve);
    } else {
      MergeNext(acc, MaxReal(start, -1.0), e, v, ds, es, length, isLimitCase, solve);
    }
  }

  lemma ThreadsDiagramsStep(v: Variant, length: int, n: nat)
    requires 6 <= length && n < NumberOfThreads
    ensures ThreadsDiagrams(v, length, n + 1) == ThreadsDiagrams(v, length, n) + ThreadDiagrams(v, length, n)
    ensures n == 0 ==> ThreadsDiagrams(v, length, n + 1) == ThreadDiagrams(v, length, n)
  {
  }

  /** What walk j hands back: the number of diagrams it reached and the maxima of their
      estimates, both starting from -1. */
  ghost predicate ThreadResult(v: Variant, length: int, j: nat, count: int, e8: real, eLimit: real,
                               solve: (set<LinearFunction>, bool) -> real)
    requires 6 <= length && j < NumberOfThreads
  {
    && count == |ThreadDiagrams(v, length, j)|
    && IsBest(e8, -1.0, v, ThreadDiagrams(v, length, j), length, false, solve)
    && IsBest(eLimit, -1.0, v, ThreadDiagrams(v, length, j), length, true, solve)
  }

  /** Walks 0 .. |counts| - 1 have handed back the entries of the three sequences. */
  ghost predicate ThreadsDone(v: Variant, length: int, counts: seq<int>, e8s: seq<real>, eLimits: seq<real>,
                              solve: (set<LinearFunction>, bool) -> real)
    requires 6 <= length
  {
    && |counts| <= NumberOfThreads && |e8s| == |counts| && |eLimits| == |counts|
    && forall j :: 0 <= j < |counts| ==> ThreadResult(v, length, j, counts[j], e8s[j], eLimits[j], solve)
  }

  lemma ThreadsDoneAppend(v: Variant, length: int, counts: seq<int>, e8s: seq<real>, eLimits: seq<real>,
                          c: int, e8: real, eLimit: real, solve: (set<LinearFunction>, bool) -> real)
    requires 6 <= length && ThreadsDone(v, length, counts, e8s, eLimits, solve) && |counts| < NumberOfThreads
    requires ThreadResult(v, length, |counts|, c, e8, eLimit, solve)
    ensures ThreadsDone(v, length, counts + [c], e8s + [e8], eLimits + [eLimit], solve)
  {
  }

  /** The body of one thread: a walk of its own from prefix and first label, with its
      own count and with maxima starting at -1. */
  method RunWalk(v: Variant, length: int, prefix: seq<int>, first: int, solve: (set<LinearFunction>, bool) -> real)
    returns (count: int, e8: real, eLimit: real)
    requires Fits(v, length) && |prefix| < 2 * length
    requires v == AcdVariant ==> Shape(v, prefix + [first], length)
    ensures count == |Diagrams(v, prefix, length, first)|
    ensures IsBest(e8, -1.0, v, Diagrams(v, prefix, length, first), length, false, solve)
    ensures IsBest(eLimit, -1.0, v, Diagrams(v, prefix, length, first), length, true, solve)
  {
    var walk := new DiagramWalk(prefix, -1.0, -1.0);
    walk.Walk(v, length, first, solve);
    return walk.numberOfDiag, walk.value8, walk.valueLimit;
  }

  /** Thread j walks from its own starting sequence and label. */
  method RunThread(v: Variant, length: int, j: nat, solve: (set<LinearFunction>, bool) -> real)
    returns (count: int, e8: real, eLimit: real)
    requires Fits(v, length) && 6 <= length && j < NumberOfThreads
    ensures ThreadResult(v, length, j, count, e8, eLimit, solve)
  {
    ThreadStart(j);
    StartShape(v, |ThreadPrefixes[j]|, LastElements[j], length);
    count, e8, eLimit := RunWalk(v, length, ThreadPrefixes[j], LastElements[j], solve);
  }

  lemma ThreadsDoneAt(v: Variant, length: int, counts: seq<int>, e8s: seq<real>, eLimits: seq<real>, j: nat,
                      solve: (set<LinearFunction>, bool) -> real)
    requires 6 <= length && ThreadsDone(v, length, counts, e8s, eLimits, solve) && j < |counts|
    ensures ThreadResult(v, length, j, counts[j], e8s[j], eLimits[j], solve)
  {
  }

  /** Merging walk n: its count joins the sum and its maxima join the running ones. */
  lemma MergeThread(v: Variant, length: int, n: nat, c: int, e8: real, eLimit: real,
                    total: int, value8: real, valueLimit: real, maxValue8: real, maxValueLimit: real,
                    solve: (set<LinearFunction>, bool) -> real)
    requires 6 <= length && n < NumberOfThreads && ThreadResult(v, length, n, c, e8, eLimit, solve)
    requires total == ThreadsCount(v, length, n)
    requires MergedBest(value8, maxValue8, v, length, n, false, solve)
    requires MergedBest(valueLimit, maxValueLimit, v, length, n, true, solve)
    ensures total + c == ThreadsCount(v, length, n + 1)
    ensures MergedBest(MaxReal(value8, e8), maxValue8, v, length, n + 1, false, solve)
    ensures MergedBest(MaxReal(valueLimit, eLimit), maxValueLimit, v, length, n + 1, true, solve)
  {
    MergeStep(value8, maxValue8, e8, v, length, n, false, solve);
    MergeStep(valueLimit, maxValueLimit, eLimit, v, length, n, true, solve);
  }

  // ---------------------------------------------------------------------------
  // The eleven walks reach what the single walk reaches
  // ---------------------------------------------------------------------------

  /** The labels lo .. hi - 1. */
  function Between(lo: int, hi: int): (r: set<int>)
    ensures forall x :: x in r <==> lo <= x < hi
    decreases hi - lo
  {
    if hi <= lo then {} else Between(lo, hi - 1) + {hi - 1}
  }

  /** The diagrams reached from q through the labels lo .. hi - 1. */
  ghost function DiagramsBetween(v: Variant, q: seq<int>, length: int, lo: int, hi: int): set<seq<int>>
    requires |q| < 2 * length
    decreases hi - lo
  {
    if hi <= lo then {} else DiagramsBetween(v, q, length, lo, hi - 1) + Diagrams(v, q, length, hi - 1)
  }

  lemma {:induction false} ChildDiagramsBetween(v: Variant, q: seq<int>, length: int, lo: int, hi: int)
    requires |q| < 2 * length && lo <= hi
    ensures ChildDiagrams(v, q, length, Between(lo, hi)) == DiagramsBetween(v, q, length, lo, hi)
    decreases hi - lo
  {
    var cs := Between(lo, hi);
    if lo < hi {
      ChildDiagramsPick(v, q, length, cs, hi - 1);
      assert cs - {hi - 1} == Between(lo, hi - 1);
      ChildDiagramsBetween(v, q, length, lo, hi - 1);
    } else {
      assert cs == {};
    }
  }

  /** After 1, 2, ..., n every label up to n + 1 is a candidate, and nothing else. */
  lemma RangeCandidates(v: Variant, n: nat, length: int)
    requires 1 <= n < length
    ensures Candidates(v, PreAcdProperties.Range(1, n + 1), length) == Between(1, n + 2)
  {
    var q := PreAcdProperties.Range(1, n + 1);
    assert q[n - 1] == n;
    assert MaxLabel(q) == n;
    forall x
      ensures x in OddLabels(q) <==> 1 <= x <= n
    {
      PreAcdProperties.RangeCount(1, n + 1, x);
      if 1 <= x <= n {
        assert q[x - 1] == x;
      }
    }
  }

  /** 1, 2, ..., n with n < length is never cut: no two neighbours agree and it is too
      short for the test on the last length labels. */
  lemma RangeInteresting(v: Variant, n: nat, length: int)
    requires n < length
    ensures !Uninteresting(v, PreAcdProperties.Range(1, n + 1), length)
  {
    var q := PreAcdProperties.Range(1, n + 1);
    forall i | ShortChordAt(v, q, length, i)
      ensures false
    {
    }
  }

  /** Repeating the last label of 1, 2, ..., n closes a chord of length one: cut. */
  lemma RepeatCut(v: Variant, n: nat, length: int)
    requires 1 <= n < length && 4 <= length
    ensures Diagrams(v, PreAcdProperties.Range(1, n + 1), length, n) == {}
  {
    var q := PreAcdProperties.Range(1, n + 1) + [n];
    assert q[n] == n && q[n - 1] == n;
    assert ShortChordAt(v, q, length, n);
  }

  /** Walking on from 1, 2, ..., n - 1 with label n: every smaller label and n + 1 are
      tried after 1, 2, ..., n. */
  lemma LevelSplit(v: Variant, n: nat, length: int)
    requires 1 <= n < length && 4 <= length
    ensures Diagrams(v, PreAcdProperties.Range(1, n), length, n)
      == DiagramsBetween(v, PreAcdProperties.Range(1, n + 1), length, 1, n)
      + Diagrams(v, PreAcdProperties.Range(1, n + 1), length, n + 1)
  {
    var q := PreAcdProperties.Range(1, n + 1);
    assert PreAcdProperties.Range(1, n) + [n] == q;
    RangeInteresting(v, n, length);
    RangeCandidates(v, n, length);
    ChildDiagramsBetween(v, q, length, 1, n + 2);
    RepeatCut(v, n, length);
  }

  /** Walk j in terms of its starting length n and first label c. */
  lemma ThreadIs(v: Variant, length: int, j: nat, n: nat, c: int)
    requires 6 <= length && j < NumberOfThreads && |ThreadPrefixes[j]| == n && LastElements[j] == c
    ensures ThreadDiagrams(v, length, j) == Diagrams(v, PreAcdProperties.Range(1, n + 1), length, c)
  {
    ThreadStart(j);
  }

  /** Walks 0 .. 4 start after 1, 2, 3, 4, 5 with the labels 6, 4, 3, 2 and 1. */
  lemma ThreadsFirstFive(v: Variant, length: int)
    requires 6 <= length
    ensures var q := PreAcdProperties.Range(1, 6);
      ThreadsDiagrams(v, length, 5) == Diagrams(v, q, length, 6) + Diagrams(v, q, length, 4)
        + Diagrams(v, q, length, 3) + Diagrams(v, q, length, 2) + Diagrams(v, q, length, 1)
  {
    ThreadsDiagramsStep(v, length, 0);
    ThreadsDiagramsStep(v, length, 1);
    ThreadsDiagramsStep(v, length, 2);
    ThreadsDiagramsStep(v, length, 3);
    ThreadsDiagramsStep(v, length, 4);
    ThreadIs(v, length, 0, 5, 6);
    ThreadIs(v, length, 1, 5, 4);
    ThreadIs(v, length, 2, 5, 3);
    ThreadIs(v, length, 3, 5, 2);
    ThreadIs(v, length, 4, 5, 1);
  }

  /** Walks 0 .. 4 together reach what walking on from 1, 2, 3, 4 with label 5 reaches. */
  lemma ThreadsLevelFive(v: Variant, length: int)
    requires 6 <= length
    ensures ThreadsDiagrams(v, length, 5) == Diagrams(v, PreAcdProperties.Range(1, 5), length, 5)
  {
    var q := PreAcdProperties.Range(1, 6);
    ThreadsFirstFive(v, length);
    var d1, d2, d3, d4 := Diagrams(v, q, length, 1), Diagrams(v, q, length, 2),
      Diagrams(v, q, length, 3), Diagrams(v, q, length, 4);
    assert DiagramsBetween(v, q, length, 1, 5) == d1 + d2 + d3 + d4;
    LevelSplit(v, 5, length);
  }

  /** Walks 0 .. 7 together reach what walking on from 1, 2, 3 with label 4 reaches. */
  lemma ThreadsLevelFour(v: Variant, length: int)
    requires 6 <= length
    ensures ThreadsDiagrams(v, length, 8) == Diagrams(v, PreAcdProperties.Range(1, 4), length, 4)
  {
    var q := PreAcdProperties.Range(1, 5);
    ThreadsLevelFive(v, length);
    ThreadsDiagramsStep(v, length, 5);
    ThreadsDiagramsStep(v, length, 6);
    ThreadsDiagramsStep(v, length, 7);
    ThreadIs(v, length, 5, 4, 3);
    ThreadIs(v, length, 6, 4, 2);
    ThreadIs(v, length, 7, 4, 1);
    LevelSplit(v, 4, length);
    assert DiagramsBetween(v, q, length, 1, 4)
      == Diagrams(v, q, length, 1) + Diagrams(v, q, length, 2) + Diagrams(v, q, length, 3);
  }

  /** Walks 0 .. 9 together reach what walking on from 1, 2 with label 3 reaches. */
  lemma ThreadsLevelThree(v: Variant, length: int)
    requires 6 <= length
    ensures ThreadsDiagrams(v, length, 10) == Diagrams(v, PreAcdProperties.Range(1, 3), length, 3)
  {
    var q := PreAcdProperties.Range(1, 4);
    ThreadsLevelFour(v, length);
    ThreadsDiagramsStep(v, length, 8);
    ThreadsDiagramsStep(v, length, 9);
    ThreadIs(v, length, 8, 3, 2);
    ThreadIs(v, length, 9, 3, 1);
    LevelSplit(v, 3, length);
    assert DiagramsBetween(v, q, length, 1, 3) == Diagrams(v, q, length, 1) + Diagrams(v, q, length, 2);
  }

  /** The eleven walks together reach exactly what the single walk from label 1 reaches. */
  lemma ThreadsCover(v: Variant, length: int)
    requires 6 <= length
    ensures ThreadsDiagrams(v, length, NumberOfThreads) == Diagrams(v, [], length, 1)
  {
    var q := PreAcdProperties.Range(1, 3);
    ThreadsLevelThree(v, length);
    ThreadsDiagramsStep(v, length, 10);
    ThreadIs(v, length, 10, 2, 1);
    LevelSplit(v, 2, length);
    assert DiagramsBetween(v, q, length, 1, 2) == Diagrams(v, q, length, 1);
    LevelSplit(v, 1, length);
    assert PreAcdProperties.Range(1, 1) == [];
    assert DiagramsBetween(v, PreAcdProperties.Range(1, 2), length, 1, 1) == {};
  }

  /** Walk i starts after a longer prefix than walk j, or after the same prefix with a
      larger label. */
  ghost predicate StartsBefore(i: nat, j: nat)
    requires i < NumberOfThreads && j < NumberOfThreads
  {
    |ThreadPrefixes[i]| > |ThreadPrefixes[j]|
    || (|ThreadPrefixes[i]| == |ThreadPrefixes[j]| && LastElements[i] > LastElements[j])
  }

  lemma StartsBeforeNext(k: nat)
    requires k + 1 < NumberOfThreads
    ensures StartsBefore(k, k + 1)
  {
    if k == 0 {
    } else if k == 1 {
    } else if k == 2 {
    } else if k == 3 {
    } else if k == 4 {
    } else if k == 5 {
    } else if k == 6 {
    } else if k == 7 {
    } else if k == 8 {
    } else {
      assert k == 9;
    }
  }

  /** The starting points are listed in strictly decreasing order. */
  lemma {:induction false} StartsOrdered(i: nat, j: nat)
    requires i < j < NumberOfThreads
    ensures StartsBefore(i, j)
    decreases j - i
  {
    StartsBeforeNext(j - 1);
    if i < j - 1 {
      StartsOrdered(i, j - 1);
    }
  }

  /** Every diagram reached from prefix with label c begins with prefix + [c]. */
  lemma DiagramsStart(v: Variant, prefix: seq<int>, length: int, c: int, d: seq<int>)
    requires |prefix| < 2 * length
    ensures d in Diagrams(v, prefix, length, c) ==> |d| == 2 * length && d[..|prefix| + 1] == prefix + [c]
  {
    if d in Diagrams(v, prefix, length, c) {
      DiagramsHead(v, prefix, length, c, d);
      assert d[..|prefix| + 1] == d[..|prefix|] + [d[|prefix|]];
    }
  }

  /** Walk j begins every diagram it reaches with its prefix and its first label. */
  lemma ThreadHead(v: Variant, length: int, j: nat, d: seq<int>)
    requires 6 <= length && j < NumberOfThreads
    ensures d in ThreadDiagrams(v, length, j) ==>
      |d| == 2 * length && d[..|ThreadPrefixes[j]| + 1] == ThreadPrefixes[j] + [LastElements[j]]
  {
    ThreadStart(j);
    DiagramsStart(v, ThreadPrefixes[j], length, LastElements[j], d);
  }

  /** No sequence of six or more labels begins with two different starting points. */
  lemma StartsExclusive(i: nat, j: nat, d: seq<int>)
    requires i < j < NumberOfThreads && 6 <= |d|
    ensures d[..|ThreadPrefixes[i]| + 1] != ThreadPrefixes[i] + [LastElements[i]]
      || d[..|ThreadPrefixes[j]| + 1] != ThreadPrefixes[j] + [LastElements[j]]
  {
    ThreadStart(i);
    ThreadStart(j);
    StartsOrdered(i, j);
    var si, sj := ThreadPrefixes[i] + [LastElements[i]], ThreadPrefixes[j] + [LastElements[j]];
    var k := |ThreadPrefixes[j]|;
    if |ThreadPrefixes[i]| > k {
      assert si[k] == ThreadPrefixes[i][k] == k + 1;
    }
    assert si[k] != sj[k];
    assert d[..|si|][k] == d[k] && d[..|sj|][k] == d[k];
  }

  /** Two different walks never reach the same diagram. */
  lemma ThreadsDisjoint(v: Variant, length: int, i: nat, j: nat)
    requires 6 <= length && i < j < NumberOfThreads
    ensures ThreadDiagrams(v, length, i) !! ThreadDiagrams(v, length, j)
  {
    forall d | d in ThreadDiagrams(v, length, i)
      ensures d !in ThreadDiagrams(v, length, j)
    {
      ThreadHead(v, length, i, d);
      StartsExclusive(i, j, d);
      ThreadHead(v, length, j, d);
    }
  }

  /** Whatever walks 0 .. n - 1 reach, one of them reaches. */
  lemma {:induction false} ThreadsMember(v: Variant, length: int, n: nat, d: seq<int>)
    requires 6 <= length && n <= NumberOfThreads && d in ThreadsDiagrams(v, length, n)
    ensures exists i :: 0 <= i < n && d in ThreadDiagrams(v, length, i)
  {
    if d !in ThreadDiagrams(v, length, n - 1) {
      ThreadsMember(v, length, n - 1, d);
    }
  }

  /** Because no diagram is reached twice, the summed counts are the size of the union. */
  lemma {:induction false} ThreadsCountSize(v: Variant, length: int, n: nat)
    requires 6 <= length && n <= NumberOfThreads
    ensures ThreadsCount(v, length, n) == |ThreadsDiagrams(v, length, n)|
  {
    if n > 0 {
      ThreadsCountSize(v, length, n - 1);
      var done, reached := ThreadsDiagrams(v, length, n - 1), ThreadDiagrams(v, length, n - 1);
      forall d | d in done && d in reached
        ensures false
      {
        ThreadsMember(v, length, n - 1, d);
        var i :| 0 <= i < n - 1 && d in ThreadDiagrams(v, length, i);
        ThreadsDisjoint(v, length, i, n - 1);
      }
      DisjointUnionSize(done, reached);
    }
  }

  /** The value a maximum starts from: the given one for the single walk, and the larger
      of it and -1 for the eleven walks, whose own maxima start at -1. */
  function StartValue(given: real, length: int): (r: real)
    ensures length < 6 ==> r == given
    ensures 6 <= length ==> r >= given && r >= -1.0 && (r == given || r == -1.0)
  {
    if length < 6 then given else MaxReal(given, -1.0)
  }

  /** calculate_estimate. Below length 6 one walk starts from the empty sequence with
      label 1. From length 6 on, eleven walks start from the sequences and labels above,
      each with its own count and with maxima starting at -1; they are run one after
      another here, and their counts are summed and their maxima merged into the given
      ones afterwards. Either way the count is the number of diagrams the single walk
      reaches and the maxima are taken over exactly those diagrams. */
  method CalculateEstimate(v: Variant, length: int, maxValue8: real, maxValueLimit: real,
                           solve: (set<LinearFunction>, bool) -> real)
    returns (numberOfDiag: int, value8: real, valueLimit: real)
    requires Fits(v, length)
    ensures numberOfDiag == |Diagrams(v, [], length, 1)|
    ensures IsBest(value8, StartValue(maxValue8, length), v, Diagrams(v, [], length, 1), length, false, solve)
    ensures IsBest(valueLimit, StartValue(maxValueLimit, length), v, Diagrams(v, [], length, 1), length, true, solve)
  {
    if length < 6 {
      var walk := new DiagramWalk([], maxValue8, maxValueLimit);
      assert [] + [1] == [1];
      walk.Walk(v, length, 1, solve);
      return walk.numberOfDiag, walk.value8, walk.valueLimit;
    }
    var counted, best8, bestLimit := RunThreads(v, length, solve);
    numberOfDiag, value8, valueLimit := MergeThreads(v, length, counted, best8, bestLimit, maxValue8, maxValueLimit, solve);
    ThreadsCover(v, length);
    ThreadsCountSize(v, length, NumberOfThreads);
  }

  /** Start the eleven walks and wait for them: each records its count and its two
      maxima in its own slot (number_of_diag[i], estimate_8[i], estimate_limit[i]),
      initialised to 0, -1 and -1. */
  method RunThreads(v: Variant, length: int, solve: (set<LinearFunction>, bool) -> real)
    returns (counted: seq<int>, best8: seq<real>, bestLimit: seq<real>)
    requires Fits(v, length) && 6 <= length
    ensures |counted| == NumberOfThreads && ThreadsDone(v, length, counted, best8, bestLimit, solve)
  {
    var slots := new (int, real, real)[NumberOfThreads](_ => (0, -1.0, -1.0));
    for i := 0 to NumberOfThreads
      invariant SlotsDone(v, length, slots[..i], solve)
    {
      ghost var before := slots[..i];
      var c, e8, eLimit := RunThread(v, length, i, solve);
      slots[i] := (c, e8, eLimit);
      assert slots[..i + 1] == before + [(c, e8, eLimit)];
      SlotsDoneAppend(v, length, before, (c, e8, eLimit), solve);
    }
    assert slots[..] == slots[..NumberOfThreads];
    counted, best8, bestLimit := Firsts(slots[..]), Seconds(slots[..]), Thirds(slots[..]);
  }

  function Firsts(q: seq<(int, real, real)>): (r: seq<int>)
    ensures |r| == |q| && forall j :: 0 <= j < |q| ==> r[j] == q[j].0
  {
    seq(|q|, j requires 0 <= j < |q| => q[j].0)
  }

  function Seconds(q: seq<(int, real, real)>): (r: seq<real>)
    ensures |r| == |q| && forall j :: 0 <= j < |q| ==> r[j] == q[j].1
  {
    seq(|q|, j requires 0 <= j < |q| => q[j].1)
  }

  function Thirds(q: seq<(int, real, real)>): (r: seq<real>)
    ensures |r| == |q| && forall j :: 0 <= j < |q| ==> r[j] == q[j].2
  {
    seq(|q|, j requires 0 <= j < |q| => q[j].2)
  }

  lemma ProjectionsAppend(slots: seq<(int, real, real)>, slot: (int, real, real))
    ensures Firsts(slots + [slot]) == Firsts(slots) + [slot.0]
    ensures Seconds(slots + [slot]) == Seconds(slots) + [slot.1]
    ensures Thirds(slots + [slot]) == Thirds(slots) + [slot.2]
  {
  }

  /** The first |slots| walks have handed back their slots. */
  ghost predicate SlotsDone(v: Variant, length: int, slots: seq<(int, real, real)>,
                            solve: (set<LinearFunction>, bool) -> real)
    requires 6 <= length
  {
    ThreadsDone(v, length, Firsts(slots), Seconds(slots), Thirds(slots), solve)
  }

  lemma SlotsDoneAppend(v: Variant, length: int, slots: seq<(int, real, real)>, slot: (int, real, real),
                        solve: (set<LinearFunction>, bool) -> real)
    requires 6 <= length && SlotsDone(v, length, slots, solve) && |slots| < NumberOfThreads
    requires ThreadResult(v, length, |slots|, slot.0, slot.1, slot.2, solve)
    ensures SlotsDone(v, length, slots + [slot], solve)
  {
    ProjectionsAppend(slots, slot);
    ThreadsDoneAppend(v, length, Firsts(slots), Seconds(slots), Thirds(slots), slot.0, slot.1, slot.2, solve);
  }

  /** Merge the results of the walks: sum the counts and fold each walk's maxima into the
      given ones. */
  method MergeThreads(v: Variant, length: int, counted: seq<int>, best8: seq<real>, bestLimit: seq<real>,
                      maxValue8: real, maxValueLimit: real, solve: (set<LinearFunction>, bool) -> real)
    returns (total: int, value8: real, valueLimit: real)
    requires 6 <= length && |counted| == NumberOfThreads && ThreadsDone(v, length, counted, best8, bestLimit, solve)
    ensures total == ThreadsCount(v, length, NumberOfThreads)
    ensures IsBest(value8, MaxReal(maxValue8, -1.0), v, ThreadsDiagrams(v, length, NumberOfThreads), length, false, solve)
    ensures IsBest(valueLimit, MaxReal(maxValueLimit, -1.0), v,
      ThreadsDiagrams(v, length, NumberOfThreads), length, true, solve)
  {
    total, value8, valueLimit := 0, maxValue8, maxValueLimit;
    for i := 0 to NumberOfThreads
      invariant total == ThreadsCount(v, length, i)
      invariant MergedBest(value8, maxValue8, v, length, i, false, solve)
      invariant MergedBest(valueLimit, maxValueLimit, v, length, i, true, solve)
    {
      ThreadsDoneAt(v, length, counted, best8, bestLimit, i, solve);
      MergeThread(v, length, i, counted[i], best8[i], bestLimit[i], total, value8, valueLimit,
        maxValue8, maxValueLimit, solve);
      value8 := MaxReal(value8, best8[i]);
      valueLimit := MaxReal(valueLimit, bestLimit[i]);
      total := total + counted[i];
    }
  }

  /** Started from the empty sequence with label 1, every completed cyclic sequence uses
      each of 1..length exactly twice. */
  lemma AcdDiagramsUseEachLabelTwice(length: int, d: seq<int>)
    requires 1 <= length && d in Diagrams(AcdVariant, [], length, 1)
    ensures |d| == 2 * length && forall i :: 0 <= i < |d| ==> 1 <= d[i] <= length
    ensures forall x :: 1 <= x <= length ==> multiset(d)[x] == 2
  {
    assert [] + [1] == [1];
    DiagramsHead(AcdVariant, [], length, 1, d);
    DiagramsShape(AcdVariant, [], length, 1, d);
    CompletedShape(d, length);
  }

  /** A pre-diagram may use a label once: with length 1 the walk completes [1, 2], which
      the cyclic walk does not. */
  lemma PreAcdAdmitsSingleLabels()
    ensures [1, 2] in Diagrams(PreAcdVariant, [], 1, 1)
    ensures [1, 2] !in Diagrams(AcdVariant, [], 1, 1)
  {
    var d := [1, 2];
    assert [] + [1] == [1] && d[..1] == [1] && d[..2] == d;
    assert MaxLabel([1]) == 1;
    assert 2 in Candidates(PreAcdVariant, d[..1], 1);
    DiagramsWalkable(PreAcdVariant, [], 1, 1, d);
    assert 2 !in OddLabels(d[..1]);
    assert 2 !in Candidates(AcdVariant, d[..1], 1);
    DiagramsWalkable(AcdVariant, [], 1, 1, d);
  }
}
