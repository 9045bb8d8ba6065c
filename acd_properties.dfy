/**
  What the moves of a cyclic diagram do: the right side elimination is the mirror image
  of the left one, both side eliminations and the turn eliminations remove one whole
  chord and keep every other chord's two ends, every reported turn can be eliminated,
  and the cost only grows.
*/
module AcdProperties {
  import opened Wrappers
  import opened LinearFunctions
  import opened ChordDiagrams
  import opened Sequences
  import opened AcdDiagrams

  // ---------------------------------------------------------------------------
  // The construction
  // ---------------------------------------------------------------------------

  /** ACD(chords) gives gap j the unit function of variable j + 1, so the |chords| + 1
      gaps use variables 1 .. |chords| + 1, and starts with cost zero. */
  lemma InitialWeights(chords: seq<int>)
    requires |chords| + 2 <= Capacity
    ensures var s := Initial(chords);
      && s.totalIncreaser == Zero(|chords| + 2) && s.numberOfIncreases == 0
      && forall j :: 0 <= j <= |chords| ==>
        s.weights[j].Arity() == |chords| + 2
        && forall v :: 0 <= v < |chords| + 2 ==> s.weights[j].coefs[v] == (if v == j + 1 then 1 else 0)
  {
    var s := Initial(chords);
    forall j | 0 <= j <= |chords|
      ensures s.weights[j] == Unit(j + 1, 1, |chords| + 2)
    {
    }
  }

  // ---------------------------------------------------------------------------
  // Mirror image
  // ---------------------------------------------------------------------------

  /** The diagram read from the other end. */
  function Mirror(s: AcdState): (m: AcdState)
    ensures |m.chords| == |s.chords| && |m.weights| == |s.weights|
  {
    AcdState(Reverse(s.chords), Reverse(s.weights), s.totalIncreaser, s.numberOfIncreases)
  }

  lemma MirrorMirror(s: AcdState)
    ensures Mirror(Mirror(s)) == s
  {
    ReverseReverse(s.chords);
    ReverseReverse(s.weights);
  }

  lemma MirrorValid(s: AcdState)
    requires Valid(s)
    ensures Valid(Mirror(s))
  {
  }

  /** The other end of the last chord, seen from the front of the mirror image. */
  lemma MirrorHasOtherEnd(s: AcdState)
    requires HasOtherEnd(s, true)
    ensures HasOtherEnd(Mirror(s), false)
  {
    var m := |s.chords|;
    if m > 0 {
      ReverseDropFirst(s.chords);
      ReverseMultiset(s.chords[..m - 1]);
      assert s.chords[m - 1] in multiset(Reverse(s.chords[..m - 1]));
    }
  }

  /** The first later occurrence of the first label of the reversal mirrors the last
      earlier occurrence of the last label. */
  lemma ReverseFirstIndex(c: seq<int>)
    requires |c| > 0 && c[|c| - 1] in c[..|c| - 1]
    ensures var r := Reverse(c);
      && r[0] == c[|c| - 1] && r[0] in r[1..]
      && FirstIndex(r[1..], r[0]) == |c| - 2 - LastIndex(c[..|c| - 1], c[|c| - 1])
  {
    var c1 := c[..|c| - 1];
    ReverseDropFirst(c);
    FirstIndexReverse(c1, c[|c| - 1]);
  }

  /** Erasing the last label and its last earlier occurrence, read backwards, is erasing
      the first label of the reversal and its first later occurrence. */
  lemma ReverseEraseEnds(c: seq<int>)
    requires |c| > 0 && c[|c| - 1] in c[..|c| - 1]
    ensures var r := Reverse(c);
      && r[0] in r[1..]
      && Remove(r[1..], FirstIndex(r[1..], r[0]))
         == Reverse(Remove(c[..|c| - 1], LastIndex(c[..|c| - 1], c[|c| - 1])))
  {
    var m := |c|;
    var c1 := c[..m - 1];
    var k := LastIndex(c1, c[m - 1]);
    ReverseFirstIndex(c);
    ReverseDropFirst(c);
    ReverseRemove(c1, m - 2 - k);
  }

  /** The left branch on the chords: both ends of the first chord go. With i the first
      later occurrence of the first label, the labels strictly between the two ends are
      followed by the labels after the partner. */
  lemma LeftEliminationErases(s: AcdState, isLimitCase: bool, i: nat)
    requires Valid(s) && |s.chords| > 0 && HasOtherEnd(s, false)
    requires 1 <= i < |s.chords| && s.chords[i] == s.chords[0] && s.chords[0] !in s.chords[1..i]
    ensures LeftElimination(s, isLimitCase).chords == s.chords[1..i] + s.chords[i + 1..]
  {
    var c1 := s.chords[1..];
    assert c1[..i - 1] == s.chords[1..i];
    FirstIndexUnique(c1, s.chords[0], i - 1);
  }

  /** The right branch on the chords: both ends of the last chord go. With k the last
      earlier occurrence of the last label, the labels before the partner are followed
      by the labels strictly between the two ends. */
  lemma RightEliminationErases(s: AcdState, isLimitCase: bool, k: nat)
    requires Valid(s) && |s.chords| > 0 && HasOtherEnd(s, true)
    requires var m := |s.chords|;
      k < m - 1 && s.chords[k] == s.chords[m - 1] && s.chords[m - 1] !in s.chords[k + 1..m - 1]
    ensures var m := |s.chords|;
      RightElimination(s, isLimitCase).chords == s.chords[..k] + s.chords[k + 1..m - 1]
  {
    var m := |s.chords|;
    var c1 := s.chords[..m - 1];
    assert c1[k + 1..] == s.chords[k + 1..m - 1];
    LastIndexUnique(c1, s.chords[m - 1], k);
  }

  /** The chords after the right branch, read backwards, are the chords after the left
      branch on the mirror image. */
  lemma MirroredLeftChords(s: AcdState, isLimitCase: bool)
    requires Valid(s) && |s.chords| > 0 && HasOtherEnd(s, true)
    ensures Valid(Mirror(s)) && HasOtherEnd(Mirror(s), false)
    ensures LeftElimination(Mirror(s), isLimitCase).chords == Reverse(RightElimination(s, isLimitCase).chords)
  {
    MirrorValid(s);
    MirrorHasOtherEnd(s);
    ReverseEraseEnds(s.chords);
  }

  /** The weights of the left branch on the mirror image, before the erasures, are the
      weights of the right branch read backwards. */
  lemma MirroredAbsorb(s: AcdState)
    requires Valid(s) && |s.chords| > 0
    ensures var m := |s.chords|; var w1 := s.weights[..m];
      var w1' := Reverse(s.weights)[1..];
      w1'[0 := Add(w1'[0], s.weights[m])] == Reverse(w1[m - 1 := Add(w1[m - 1], s.weights[m])])
  {
    var m := |s.chords|;
    ReverseDropFirst(s.weights);
    ReverseUpdate(s.weights[..m], 0, Add(s.weights[m - 1], s.weights[m]));
  }

  /** The left branch on the weights of the |chords| + 1 gaps, with i the partner's
      position as in LeftEliminationErases and p the first weight: gap 1 absorbs p;
      the gap before the partner then absorbs 2p and the gap after the partner (plus a
      crossing); gaps 0 and i + 1 go and every other gap keeps its weight. */
  lemma LeftEliminationWeights(s: AcdState, isLimitCase: bool, i: nat)
    requires Valid(s) && |s.chords| > 0 && HasOtherEnd(s, false)
    requires 1 <= i < |s.chords| && s.chords[i] == s.chords[0] && s.chords[0] !in s.chords[1..i]
    ensures var w := s.weights; var p := w[0]; var r := LeftElimination(s, isLimitCase).weights;
      && |r| == |w| - 2
      && (i > 1 ==> r[0] == Add(w[1], p) && r[1..i - 1] == w[2..i])
      && r[i - 1] == AddCrossing(Add(if i == 1 then Add(w[1], p) else w[i], Add(Scale(2, p), w[i + 1])), isLimitCase)
      && r[i..] == w[i + 2..]
  {
    var w := s.weights;
    var c1 := s.chords[1..];
    assert c1[..i - 1] == s.chords[1..i];
    FirstIndexUnique(c1, s.chords[0], i - 1);
    LeftWeightsUnfold(s, isLimitCase);
    LeftWeightsSeq(w, i, isLimitCase);
  }

  /** LeftElimination's weight update on a plain sequence of weights. */
  lemma LeftWeightsSeq(w: seq<LinearFunction>, i: nat, isLimitCase: bool)
    requires 1 <= i && i + 1 < |w| && forall g :: 0 <= g < |w| ==> w[g].Arity() == w[0].Arity()
    ensures var p := w[0]; var w1 := w[1..]; var w2 := w1[0 := Add(w1[0], p)];
      var r := Remove(w2[i - 1 := AddCrossing(Add(w2[i - 1], Add(Scale(2, p), w2[i])), isLimitCase)], i);
      && |r| == |w| - 2
      && (i > 1 ==> r[0] == Add(w[1], p) && r[1..i - 1] == w[2..i])
      && r[i - 1] == AddCrossing(Add(if i == 1 then Add(w[1], p) else w[i], Add(Scale(2, p), w[i + 1])), isLimitCase)
      && r[i..] == w[i + 2..]
  {
    var p := w[0];
    var w1 := w[1..];
    var w2 := w1[0 := Add(w1[0], p)];
    var w3 := w2[i - 1 := AddCrossing(Add(w2[i - 1], Add(Scale(2, p), w2[i])), isLimitCase)];
    var r := Remove(w3, i);
    assert r[i..] == w3[i + 1..];
    if i > 1 {
      assert r[1..i - 1] == w3[1..i - 1];
    }
  }

  /** The right branch on the weights, with k the partner's position as in
      RightEliminationErases and p the last weight (m chords, so gaps 0 .. m): gap m - 1
      absorbs p; the gap after the partner then absorbs 2p and the gap before the
      partner (plus a crossing); gaps k and m go and every other gap keeps its weight. */
  lemma RightEliminationWeights(s: AcdState, isLimitCase: bool, k: nat)
    requires Valid(s) && |s.chords| > 0 && HasOtherEnd(s, true)
    requires var m := |s.chords|;
      k < m - 1 && s.chords[k] == s.chords[m - 1] && s.chords[m - 1] !in s.chords[k + 1..m - 1]
    ensures var m := |s.chords|; var w := s.weights; var p := w[m]; var r := RightElimination(s, isLimitCase).weights;
      && |r| == |w| - 2
      && r[..k] == w[..k]
      && r[k] == AddCrossing(Add(if k == m - 2 then Add(w[m - 1], p) else w[k + 1], Add(Scale(2, p), w[k])), isLimitCase)
      && (k < m - 2 ==> r[k + 1..m - 2] == w[k + 2..m - 1] && r[m - 2] == Add(w[m - 1], p))
  {
    var m := |s.chords|;
    var w := s.weights;
    var c1 := s.chords[..m - 1];
    assert c1[k + 1..] == s.chords[k + 1..m - 1];
    LastIndexUnique(c1, s.chords[m - 1], k);
    RightWeightsUnfold(s, isLimitCase);
    RightWeightsSeq(w, w[m], k, isLimitCase);
  }

  /** RightElimination's weight update on a plain sequence of m + 1 weights. */
  lemma RightWeightsSeq(w: seq<LinearFunction>, p: LinearFunction, k: nat, isLimitCase: bool)
    requires |w| >= 3 && k < |w| - 2 && forall i :: 0 <= i < |w| ==> w[i].Arity() == p.Arity()
    ensures var m := |w| - 1; var w1 := w[..m]; var w2 := w1[m - 1 := Add(w1[m - 1], p)];
      var r := Remove(w2[k + 1 := AddCrossing(Add(w2[k + 1], Add(Scale(2, p), w2[k])), isLimitCase)], k);
      && |r| == |w| - 2
      && r[..k] == w[..k]
      && r[k] == AddCrossing(Add(if k == m - 2 then Add(w[m - 1], p) else w[k + 1], Add(Scale(2, p), w[k])), isLimitCase)
      && (k < m - 2 ==> r[k + 1..m - 2] == w[k + 2..m - 1] && r[m - 2] == Add(w[m - 1], p))
  {
    var m := |w| - 1;
    var w1 := w[..m];
    var w2 := w1[m - 1 := Add(w1[m - 1], p)];
    var w3 := w2[k + 1 := AddCrossing(Add(w2[k + 1], Add(Scale(2, p), w2[k])), isLimitCase)];
    var r := Remove(w3, k);
    assert r[..k] == w3[..k];
    if k < m - 2 {
      assert r[k + 1..m - 2] == w3[k + 2..m - 1];
    }
  }

  /** The right branch is the left branch on the mirror image, read backwards: the same
      cost, and chords and weights in reverse order. */
  lemma MirroredLeftElimination(s: AcdState, isLimitCase: bool)
    requires Valid(s) && |s.chords| > 0 && HasOtherEnd(s, true)
    ensures Valid(Mirror(s)) && HasOtherEnd(Mirror(s), false)
    ensures LeftElimination(Mirror(s), isLimitCase) == Mirror(RightElimination(s, isLimitCase))
  {
    MirroredLeftChords(s, isLimitCase);
    MirroredLeftWeights(s, isLimitCase);
    MirroredLeftCost(s, isLimitCase);
  }

  lemma MirroredLeftCost(s: AcdState, isLimitCase: bool)
    requires Valid(s) && |s.chords| > 0 && HasOtherEnd(s, true)
    ensures Valid(Mirror(s)) && HasOtherEnd(Mirror(s), false)
    ensures LeftElimination(Mirror(s), isLimitCase).totalIncreaser == RightElimination(s, isLimitCase).totalIncreaser
    ensures LeftElimination(Mirror(s), isLimitCase).numberOfIncreases == RightElimination(s, isLimitCase).numberOfIncreases
  {
    MirrorValid(s);
    MirrorHasOtherEnd(s);
    assert Mirror(s).weights[0] == s.weights[|s.chords|];
  }

  lemma MirroredLeftWeights(s: AcdState, isLimitCase: bool)
    requires Valid(s) && |s.chords| > 0 && HasOtherEnd(s, true)
    ensures Valid(Mirror(s)) && HasOtherEnd(Mirror(s), false)
    ensures LeftElimination(Mirror(s), isLimitCase).weights == Reverse(RightElimination(s, isLimitCase).weights)
  {
    MirrorValid(s);
    MirrorHasOtherEnd(s);
    var m := |s.chords|;
    var p := s.weights[m];
    var w1 := s.weights[..m];
    var w2 := w1[m - 1 := Add(w1[m - 1], p)];
    var k := LastIndex(s.chords[..m - 1], s.chords[m - 1]);
    var w3 := w2[k + 1 := AddCrossing(Add(w2[k + 1], Add(Scale(2, p), w2[k])), isLimitCase)];
    var t := Mirror(s);
    var w2' := t.weights[1..][0 := Add(t.weights[1..][0], p)];
    MirroredAbsorb(s);
    ReverseFirstIndex(s.chords);
    var j := FirstIndex(t.chords[1..], t.chords[0]);
    RightWeightsUnfold(s, isLimitCase);
    LeftWeightsUnfold(t, isLimitCase);
    MirroredErase(w2, w2', p, k, j, isLimitCase);
  }

  /** LeftElimination's weights, as the proof of MirroredLeftWeights uses them. */
  lemma LeftWeightsUnfold(s: AcdState, isLimitCase: bool)
    requires Valid(s) && |s.chords| > 0 && HasOtherEnd(s, false)
    ensures var p := s.weights[0]; var w1 := s.weights[1..]; var w2 := w1[0 := Add(w1[0], p)];
      var j := FirstIndex(s.chords[1..], s.chords[0]);
      LeftElimination(s, isLimitCase).weights
        == Remove(w2[j := AddCrossing(Add(w2[j], Add(Scale(2, p), w2[j + 1])), isLimitCase)], j + 1)
  {
  }

  /** RightElimination's weights, as the proof of MirroredLeftWeights uses them. */
  lemma RightWeightsUnfold(s: AcdState, isLimitCase: bool)
    requires Valid(s) && |s.chords| > 0 && HasOtherEnd(s, true)
    ensures var m := |s.chords|; var p := s.weights[m]; var w1 := s.weights[..m];
      var w2 := w1[m - 1 := Add(w1[m - 1], p)];
      var k := LastIndex(s.chords[..m - 1], s.chords[m - 1]);
      RightElimination(s, isLimitCase).weights
        == Remove(w2[k + 1 := AddCrossing(Add(w2[k + 1], Add(Scale(2, p), w2[k])), isLimitCase)], k)
  {
  }

  /** The partner step of the two branches, on weights alone. */
  lemma MirroredErase(w2: seq<LinearFunction>, w2': seq<LinearFunction>, p: LinearFunction, k: nat, j: nat,
                      isLimitCase: bool)
    requires k + 1 < |w2| && j == |w2| - 2 - k && w2' == Reverse(w2)
    requires w2[k].Arity() == w2[k + 1].Arity() == p.Arity()
    ensures Remove(w2'[j := AddCrossing(Add(w2'[j], Add(Scale(2, p), w2'[j + 1])), isLimitCase)], j + 1)
      == Reverse(Remove(w2[k + 1 := AddCrossing(Add(w2[k + 1], Add(Scale(2, p), w2[k])), isLimitCase)], k))
  {
    var v := AddCrossing(Add(w2[k + 1], Add(Scale(2, p), w2[k])), isLimitCase);
    assert w2'[j] == w2[k + 1] && w2'[j + 1] == w2[k];
    ReverseUpdate(w2, j, v);
    ReverseRemove(w2[k + 1 := v], j + 1);
  }

  // ---------------------------------------------------------------------------
  // Chords
  // ---------------------------------------------------------------------------

  /** When every chord has both ends, eliminate_from_side always finds the other end. */
  lemma EachTwiceHasOtherEnd(s: AcdState, isRight: bool)
    requires EachTwice(s.chords)
    ensures HasOtherEnd(s, isRight)
  {
    var c := s.chords;
    var m := |c|;
    if m > 0 {
      if isRight {
        DropLastMultiset(c);
        var x := c[m - 1];
        assert x in multiset(c);
        assert multiset(c)[x] == 2;
        assert multiset(c)[x] == multiset(c[..m - 1])[x] + multiset{x}[x];
      } else {
        var x := c[0];
        assert c == [x] + c[1..];
        assert x in multiset(c);
        assert multiset(c)[x] == 2;
        assert multiset(c)[x] == multiset{x}[x] + multiset(c[1..])[x];
      }
    }
  }

  /** The chords were those of r plus the two ends of a, and every label of s had two ends. */
  lemma RemovesBothEnds(before: seq<int>, after: seq<int>, a: int)
    requires EachTwice(before)
    requires multiset(before) == multiset(after) + multiset{a, a}
    ensures multiset(after) == multiset(before)[a := 0]
    ensures EachTwice(after) && a !in after
  {
    assert multiset(before)[a] == 2 by {
      assert a in multiset(before);
    }
    forall x
      ensures multiset(after)[x] == multiset(before)[a := 0][x]
    {
    }
  }

  /** The left side elimination removes both ends of the first chord and nothing else. */
  lemma LeftEliminationChords(s: AcdState, isLimitCase: bool)
    requires Valid(s) && |s.chords| > 0 && HasOtherEnd(s, false)
    ensures multiset(s.chords) == multiset(LeftElimination(s, isLimitCase).chords) + multiset{s.chords[0], s.chords[0]}
  {
    var c := s.chords;
    var c1 := c[1..];
    var j := FirstIndex(c1, c[0]);
    assert c == [c[0]] + c1;
    RemoveMultiset(c1, j);
  }

  /** The right side elimination removes both ends of the last chord and nothing else. */
  lemma RightEliminationChords(s: AcdState, isLimitCase: bool)
    requires Valid(s) && |s.chords| > 0 && HasOtherEnd(s, true)
    ensures var m := |s.chords|;
      multiset(s.chords) == multiset(RightElimination(s, isLimitCase).chords) + multiset{s.chords[m - 1], s.chords[m - 1]}
  {
    var c := s.chords;
    var m := |c|;
    var c1 := c[..m - 1];
    var k := LastIndex(c1, c[m - 1]);
    assert RightElimination(s, isLimitCase).chords == Remove(c1, k);
    DropLastMultiset(c);
    RemoveMultiset(c1, k);
    assert c1[k] == c[m - 1];
  }

  /** On a diagram whose every chord has both ends, eliminate_from_side removes the chord
      at the chosen end entirely and keeps every other chord's two ends. */
  lemma SideEliminationRemovesChord(s: AcdState, isRight: bool, isLimitCase: bool)
    requires Valid(s) && EachTwice(s.chords) && |s.chords| > 0
    ensures HasOtherEnd(s, isRight)
    ensures var a := if isRight then s.chords[|s.chords| - 1] else s.chords[0];
      var r := SideElimination(s, isRight, isLimitCase).value;
      && multiset(r.chords) == multiset(s.chords)[a := 0]
      && EachTwice(r.chords) && a !in r.chords
  {
    EachTwiceHasOtherEnd(s, isRight);
    var r := SideElimination(s, isRight, isLimitCase).value;
    if isRight {
      RightEliminationChords(s, isLimitCase);
      RemovesBothEnds(s.chords, r.chords, s.chords[|s.chords| - 1]);
    } else {
      LeftEliminationChords(s, isLimitCase);
      RemovesBothEnds(s.chords, r.chords, s.chords[0]);
    }
  }

  /** Every label get_all_possible_turns reports, on a diagram whose chords all have both
      ends, is a turn at its first occurrence: eliminate_turn finds it and removes it. */
  lemma PossibleTurnIsTurnName(s: AcdState, a: int)
    requires EachTwice(s.chords) && a in PossibleTurns(s)
    ensures IsTurnName(s, a) && s.chords[FirstIndex(s.chords, a) + 1] == a
  {
    var c := s.chords;
    var i :| TurnAt(c, i) && c[i] == a;
    assert a in multiset(c);
    forall j | 0 <= j < i - 1
      ensures c[j] != a
    {
      ThreePositions(c, j, i - 1, i);
    }
    FirstIndexUnique(c, a, i - 1);
  }

  /** eliminate_turn on a reported turn removes both ends of that chord and nothing else. */
  lemma TurnEliminationRemovesChord(s: AcdState, a: int)
    requires Valid(s) && EachTwice(s.chords) && a in PossibleTurns(s)
    ensures IsTurnName(s, a)
    ensures var r := TurnElimination(s, a);
      && multiset(r.chords) == multiset(s.chords)[a := 0]
      && EachTwice(r.chords) && a !in r.chords
  {
    PossibleTurnIsTurnName(s, a);
    var c := s.chords;
    var i := FirstIndex(c, a);
    var r := TurnElimination(s, a);
    CutPairMultiset(c, i);
    assert r.chords == c[..i] + c[i + 2..];
    RemovesBothEnds(c, r.chords, a);
  }

  // ---------------------------------------------------------------------------
  // Costs
  // ---------------------------------------------------------------------------

  /** eliminate_from_side: one more elimination, costing twice the outer weight p of the
      chosen end plus one crossing unless in the limit case. */
  lemma SideEliminationCost(s: AcdState, isRight: bool, isLimitCase: bool)
    requires Valid(s) && HasOtherEnd(s, isRight) && |s.chords| > 0
    ensures var r := SideElimination(s, isRight, isLimitCase).value;
      var p := if isRight then s.weights[|s.chords|] else s.weights[0];
      && r.numberOfIncreases == s.numberOfIncreases + 1
      && r.totalIncreaser == AddCrossing(Add(s.totalIncreaser, Scale(2, p)), isLimitCase)
  {
  }

  /** eliminate_turn(a): one more elimination, costing the weight between the two ends. */
  lemma TurnEliminationCost(s: AcdState, a: int)
    requires Valid(s) && IsTurnName(s, a)
    ensures var r := TurnElimination(s, a);
      && r.numberOfIncreases == s.numberOfIncreases + 1
      && r.totalIncreaser == Add(s.totalIncreaser, s.weights[FirstIndex(s.chords, a) + 1])
  {
  }

  /** eliminate_turn(a) on the weights: the weight before the turn absorbs the two after
      it, those two go, and every other weight keeps its place. */
  lemma TurnEliminationWeights(s: AcdState, a: int)
    requires Valid(s) && IsTurnName(s, a)
    ensures var i := FirstIndex(s.chords, a); var w := s.weights; var r := TurnElimination(s, a).weights;
      && |r| == |w| - 2
      && r[..i] == w[..i]
      && r[i] == Add(w[i], Add(w[i + 1], w[i + 2]))
      && r[i + 1..] == w[i + 3..]
  {
    var i := FirstIndex(s.chords, a);
    var w := s.weights;
    var w1 := w[i := Add(w[i], Add(w[i + 1], w[i + 2]))];
    var r := TurnElimination(s, a).weights;
    assert r == w1[..i + 1] + w1[i + 3..];
    assert r[..i] == w1[..i];
    assert r[i + 1..] == w1[i + 3..];
  }

  /** All weights and the accumulated cost have non-negative coefficients. */
  ghost predicate NonNegativeState(s: AcdState)
  {
    NonNegative(s.totalIncreaser) && forall i :: 0 <= i < |s.weights| ==> NonNegative(s.weights[i])
  }

  lemma InitialNonNegative(chords: seq<int>)
    requires |chords| + 2 <= Capacity
    ensures NonNegativeState(Initial(chords))
  {
    InitialWeights(chords);
  }

  /** On non-negative weights the left elimination keeps them non-negative and only
      raises the cost. */
  lemma LeftEliminationGrows(s: AcdState, isLimitCase: bool)
    requires Valid(s) && NonNegativeState(s) && |s.chords| > 0 && HasOtherEnd(s, false)
    ensures var r := LeftElimination(s, isLimitCase);
      NonNegativeState(r) && Dominates(r.totalIncreaser, s.totalIncreaser)
  {
    var p := s.weights[0];
    var w1 := s.weights[1..];
    var w2 := w1[0 := Add(w1[0], p)];
    var j := FirstIndex(s.chords[1..], s.chords[0]);
    AddNonNegative(w1[0], p);
    assert NonNegative(w2[j]) && NonNegative(w2[j + 1]);
    MergeNonNegative(w2[j], p, w2[j + 1], isLimitCase);
    ChargeGrows(s.totalIncreaser, p, isLimitCase);
  }

  /** The same for the right elimination. */
  lemma RightEliminationGrows(s: AcdState, isLimitCase: bool)
    requires Valid(s) && NonNegativeState(s) && |s.chords| > 0 && HasOtherEnd(s, true)
    ensures var r := RightElimination(s, isLimitCase);
      NonNegativeState(r) && Dominates(r.totalIncreaser, s.totalIncreaser)
  {
    var m := |s.chords|;
    var p := s.weights[m];
    var w1 := s.weights[..m];
    var w2 := w1[m - 1 := Add(w1[m - 1], p)];
    var k := LastIndex(s.chords[..m - 1], s.chords[m - 1]);
    AddNonNegative(w1[m - 1], p);
    assert NonNegative(w2[k + 1]) && NonNegative(w2[k]);
    MergeNonNegative(w2[k + 1], p, w2[k], isLimitCase);
    ChargeGrows(s.totalIncreaser, p, isLimitCase);
  }

  /** The same for both ends. */
  lemma SideEliminationGrows(s: AcdState, isRight: bool, isLimitCase: bool)
    requires Valid(s) && NonNegativeState(s) && |s.chords| > 0 && HasOtherEnd(s, isRight)
    ensures var r := SideElimination(s, isRight, isLimitCase).value;
      NonNegativeState(r) && Dominates(r.totalIncreaser, s.totalIncreaser)
  {
    if isRight {
      RightEliminationGrows(s, isLimitCase);
    } else {
      LeftEliminationGrows(s, isLimitCase);
    }
  }

  /** Turn eliminations keep the weights non-negative and only raise the cost. */
  lemma TurnEliminationGrows(s: AcdState, a: int)
    requires Valid(s) && NonNegativeState(s) && IsTurnName(s, a)
    ensures var r := TurnElimination(s, a);
      NonNegativeState(r) && Dominates(r.totalIncreaser, s.totalIncreaser)
  {
    var i := FirstIndex(s.chords, a);
    var w := s.weights;
    AddNonNegative(w[i + 1], w[i + 2]);
    AddNonNegative(w[i], Add(w[i + 1], w[i + 2]));
    AddNonNegative(s.totalIncreaser, w[i + 1]);
  }
}
