/**
  What the moves of a pre-diagram do, stated against the state before the move: which
  letters survive and in which order, how the labels and ids are counted afterwards, how
  the cost and the weights change, and that a well-formed pre-diagram (distinct ids,
  every label at most twice) stays well-formed.
*/
module PreAcdProperties {
  import opened Wrappers
  import opened LinearFunctions
  import opened ChordDiagrams
  import opened PreAcdDiagrams
  import opened Sequences

  /** What a letter is apart from its weight: its label and its id. */
  function KeyOf(l: Letter): (int, int)
  {
    (l.alphaNumber, l.id)
  }

  function Keys(side: seq<Letter>): seq<(int, int)>
  {
    Map(side, KeyOf)
  }

  function First(p: (int, int)): int
  {
    p.0
  }

  function Second(p: (int, int)): int
  {
    p.1
  }

  /** How often each label occurs among all letters of both sides. */
  ghost function LabelCount(s: PreAcdState): multiset<int>
  {
    multiset(Map(Keys(s.lhs), First)) + multiset(Map(Keys(s.rhs), First))
  }

  /** How often each id occurs among all letters of both sides. */
  ghost function IdCount(s: PreAcdState): multiset<int>
  {
    multiset(Map(Keys(s.lhs), Second)) + multiset(Map(Keys(s.rhs), Second))
  }

  /** The ids are unique and every chord has at most two endpoints. This is what the
      enumeration produces, and it makes the partner of a letter its chord's other end. */
  ghost predicate WellFormed(s: PreAcdState)
  {
    (forall x :: IdCount(s)[x] <= 1) && (forall x :: LabelCount(s)[x] <= 2)
  }

  // ---------------------------------------------------------------------------
  // Construction
  // ---------------------------------------------------------------------------

  /** The range lo, lo + 1, ..., hi - 1. */
  function Range(lo: int, hi: int): (r: seq<int>)
    requires lo <= hi
    ensures |r| == hi - lo
  {
    seq(hi - lo, i requires 0 <= i < hi - lo => lo + i)
  }

  lemma {:induction false} RangeCount(lo: int, hi: int, x: int)
    requires lo <= hi
    ensures multiset(Range(lo, hi))[x] == if lo <= x < hi then 1 else 0
    decreases hi - lo
  {
    if lo < hi {
      RangeCount(lo + 1, hi, x);
      assert Range(lo, hi) == [lo] + Range(lo + 1, hi);
      assert Range(lo + 1, hi) == Range(lo, hi)[1..];
    }
  }

  /** pre_ACD(chords), labels: the left side reads the first half of the input, the right
      side the second half backwards (its letter nearest the basepoint is the middle one). */
  lemma InitialLabels(chords: seq<int>)
    requires |chords| % 2 == 0 && |chords| + 1 <= Capacity
    ensures Map(Keys(Initial(chords).lhs), First) == chords[..|chords| / 2]
    ensures Map(Keys(Initial(chords).rhs), First) == Reverse(chords[|chords| / 2..])
  {
    var s := Initial(chords);
    var h := |chords| / 2;
    forall i | 0 <= i < h
      ensures Map(Keys(s.lhs), First)[i] == chords[..h][i]
      ensures Map(Keys(s.rhs), First)[i] == Reverse(chords[h..])[i]
    {
      assert s.lhs[i] == NewLetter(chords[i], 1 + i, 2 * h + 1);
      assert s.rhs[i] == NewLetter(chords[2 * h - 1 - i], 1 + i + h, 2 * h + 1);
      assert Reverse(chords[h..])[i] == chords[h..][h - 1 - i] == chords[2 * h - 1 - i];
    }
  }

  /** pre_ACD(chords), ids: 1..h on the left and h + 1..2h on the right, in index order. */
  lemma InitialIds(chords: seq<int>)
    requires |chords| % 2 == 0 && |chords| + 1 <= Capacity
    ensures Map(Keys(Initial(chords).lhs), Second) == Range(1, |chords| / 2 + 1)
    ensures Map(Keys(Initial(chords).rhs), Second) == Range(|chords| / 2 + 1, |chords| + 1)
  {
    var s := Initial(chords);
    var h := |chords| / 2;
    forall i | 0 <= i < h
      ensures Map(Keys(s.lhs), Second)[i] == Range(1, h + 1)[i]
      ensures Map(Keys(s.rhs), Second)[i] == Range(h + 1, 2 * h + 1)[i]
    {
      assert s.lhs[i] == NewLetter(chords[i], 1 + i, 2 * h + 1);
      assert s.rhs[i] == NewLetter(chords[2 * h - 1 - i], 1 + i + h, 2 * h + 1);
    }
  }

  /** pre_ACD(chords), weights: each letter's weight is the unit function of its own id,
      the arity is 2h + 1, the cost is zero and nothing has been eliminated. */
  lemma InitialWeights(chords: seq<int>)
    requires |chords| % 2 == 0 && |chords| + 1 <= Capacity
    ensures forall i :: 0 <= i < |chords| / 2 ==>
      Initial(chords).lhs[i].weight == Unit(1 + i, 1, |chords| + 1)
    ensures forall i :: 0 <= i < |chords| / 2 ==>
      Initial(chords).rhs[i].weight == Unit(1 + |chords| / 2 + i, 1, |chords| + 1)
    ensures Initial(chords).totalIncreaser == Zero(|chords| + 1)
    ensures Initial(chords).numberOfIncreases == 0
  {
    var s := Initial(chords);
    var h := |chords| / 2;
    forall i | 0 <= i < h
      ensures s.lhs[i].weight == Unit(1 + i, 1, 2 * h + 1)
      ensures s.rhs[i].weight == Unit(1 + h + i, 1, 2 * h + 1)
    {
      assert s.lhs[i] == NewLetter(chords[i], 1 + i, 2 * h + 1);
      assert s.rhs[i] == NewLetter(chords[2 * h - 1 - i], 1 + i + h, 2 * h + 1);
    }
  }

  /** The labels counted over the whole pre-diagram are those of the input. */
  lemma InitialLabelCount(chords: seq<int>)
    requires |chords| % 2 == 0 && |chords| + 1 <= Capacity
    ensures LabelCount(Initial(chords)) == multiset(chords)
  {
    var h := |chords| / 2;
    InitialLabels(chords);
    ReverseMultiset(chords[h..]);
    assert chords == chords[..h] + chords[h..];
  }

  /** Each id 1..2h occurs exactly once, and no other id occurs. */
  lemma InitialIdCount(chords: seq<int>, x: int)
    requires |chords| % 2 == 0 && |chords| + 1 <= Capacity
    ensures IdCount(Initial(chords))[x] == if 1 <= x <= |chords| then 1 else 0
  {
    var h := |chords| / 2;
    InitialIds(chords);
    assert 2 * h == |chords|;
    assert IdCount(Initial(chords)) == multiset(Range(1, h + 1)) + multiset(Range(h + 1, 2 * h + 1));
    TwoRangesCount(h, x);
  }

  lemma TwoRangesCount(h: nat, x: int)
    ensures (multiset(Range(1, h + 1)) + multiset(Range(h + 1, 2 * h + 1)))[x]
      == if 1 <= x <= 2 * h then 1 else 0
  {
    RangeCount(1, h + 1, x);
    RangeCount(h + 1, 2 * h + 1, x);
  }

  /** An input in which no label occurs more than twice gives a well-formed pre-diagram. */
  lemma InitialWellFormed(chords: seq<int>)
    requires |chords| % 2 == 0 && |chords| + 1 <= Capacity
    requires forall x :: multiset(chords)[x] <= 2
    ensures WellFormed(Initial(chords))
  {
    InitialLabelCount(chords);
    forall x
      ensures IdCount(Initial(chords))[x] <= 1
    {
      InitialIdCount(chords, x);
    }
  }

  // ---------------------------------------------------------------------------
  // eliminate_from_side: which letters survive
  // ---------------------------------------------------------------------------

  /** find_letter looks only at labels and ids, never at weights. */
  lemma {:induction false} FirstPartnerByKeys(a: seq<Letter>, b: seq<Letter>, p: Letter)
    requires Keys(a) == Keys(b)
    ensures FirstPartner(a, p) == FirstPartner(b, p)
    decreases |a|
  {
    if |a| > 0 {
      assert KeyOf(a[0]) == Keys(a)[0] == Keys(b)[0] == KeyOf(b[0]);
      assert Keys(a[1..]) == Keys(a)[1..] == Keys(b)[1..] == Keys(b[1..]);
      FirstPartnerByKeys(a[1..], b[1..], p);
    }
  }

  lemma PartnerByKeys(l1: seq<Letter>, r1: seq<Letter>, l2: seq<Letter>, r2: seq<Letter>, p: Letter)
    requires Keys(l1) == Keys(l2) && Keys(r1) == Keys(r2)
    ensures Partner(l1, r1, p) == Partner(l2, r2, p)
  {
    FirstPartnerByKeys(l1, l2, p);
    FirstPartnerByKeys(r1, r2, p);
  }

  lemma AbsorbOutermostKeys(s: PreAcdState, isRight: bool)
    requires Uniform(s) && |Side(s, isRight)| > 0
    ensures Keys(AbsorbOutermost(s, isRight).lhs) == Keys(s.lhs)
    ensures Keys(AbsorbOutermost(s, isRight).rhs) == Keys(s.rhs)
  {
    var side := Side(s, isRight);
    var n := |side|;
    if n != 1 {
      MapUpdate(side, n - 2, Absorb(side[n - 2], side[n - 1]), KeyOf);
    }
  }

  lemma RemovePartnerKeys(s: PreAcdState, removed: Letter, isLimitCase: bool)
    requires Uniform(s) && removed.weight.Arity() == s.totalIncreaser.Arity()
    ensures var loc := Partner(s.lhs, s.rhs, removed); var r := RemovePartner(s, removed, isLimitCase);
      if loc.Nowhere? then Keys(r.lhs) == Keys(s.lhs) && Keys(r.rhs) == Keys(s.rhs)
      else (Keys(Side(r, loc.onRight)) == Remove(Keys(Side(s, loc.onRight)), loc.index)
        && Side(r, !loc.onRight) == Side(s, !loc.onRight))
  {
    match Partner(s.lhs, s.rhs, removed)
    case Nowhere =>
    case At(onRight, k) =>
      var pl := Side(s, onRight);
      var pl1 := if k > 0 then
          pl[k - 1 := pl[k - 1].(weight := AddCrossing(
            Add(pl[k - 1].weight, Add(pl[k].weight, Scale(2, removed.weight))), isLimitCase))]
        else pl;
      if k > 0 {
        MapUpdate(pl, k - 1, pl1[k - 1], KeyOf);
      }
      MapRemove(pl1, k, KeyOf);
  }

  /** The state eliminate_from_side has reached just before its final pop_back. */
  function BeforePop(s: PreAcdState, isRight: bool, isLimitCase: bool): (t: PreAcdState)
    requires Uniform(s) && |Side(s, isRight)| > 0
    ensures Uniform(t)
  {
    var side := Side(s, isRight);
    RemovePartner(AbsorbOutermost(ChargeOutermost(s, isRight, isLimitCase), isRight),
      side[|side| - 1], isLimitCase)
  }

  lemma BeforePopSteps(s: PreAcdState, isRight: bool, isLimitCase: bool)
    requires Uniform(s) && |Side(s, isRight)| > 0
    ensures SideElimination(s, isRight, isLimitCase) == Some(PopOutermost(BeforePop(s, isRight, isLimitCase), isRight))
  {
  }

  lemma BeforePopKeys(s: PreAcdState, isRight: bool, isLimitCase: bool)
    requires Uniform(s) && |Side(s, isRight)| > 0
    ensures var side := Side(s, isRight); var t := BeforePop(s, isRight, isLimitCase);
      var loc := Partner(s.lhs, s.rhs, side[|side| - 1]);
      if loc.Nowhere? then Keys(t.lhs) == Keys(s.lhs) && Keys(t.rhs) == Keys(s.rhs)
      else (Keys(Side(t, loc.onRight)) == Remove(Keys(Side(s, loc.onRight)), loc.index)
        && Keys(Side(t, !loc.onRight)) == Keys(Side(s, !loc.onRight))
        && (loc.onRight == isRight ==> loc.index != |side| - 1))
  {
    var side := Side(s, isRight);
    var n := |side|;
    var removed := side[n - 1];
    var s0 := ChargeOutermost(s, isRight, isLimitCase);
    var s1 := AbsorbOutermost(s0, isRight);
    var t := BeforePop(s, isRight, isLimitCase);
    assert t == RemovePartner(s1, removed, isLimitCase);
    AbsorbOutermostKeys(s0, isRight);
    PartnerByKeys(s1.lhs, s1.rhs, s.lhs, s.rhs, removed);
    RemovePartnerKeys(s1, removed, isLimitCase);
    var loc := Partner(s.lhs, s.rhs, removed);
    if loc.At? {
      var b := loc.onRight;
      assert Keys(Side(s1, b)) == Keys(Side(s, b)) && Keys(Side(s1, !b)) == Keys(Side(s, !b));
      assert Keys(Side(t, b)) == Remove(Keys(Side(s, b)), loc.index);
      assert IsPartner(Side(s, b)[loc.index], removed);
    }
  }

  /** The final pop_back takes the last key off the chosen side. */
  lemma PopOutermostKeys(t: PreAcdState, isRight: bool)
    requires Uniform(t) && |Side(t, isRight)| > 0
    ensures Keys(Side(PopOutermost(t, isRight), isRight)) == Keys(Side(t, isRight))[..|Side(t, isRight)| - 1]
    ensures Side(PopOutermost(t, isRight), !isRight) == Side(t, !isRight)
  {
    var last := Side(t, isRight);
    MapPrefix(last, |last| - 1, KeyOf);
  }

  /** eliminate_from_side when find_letter finds no partner: only the outermost letter of
      the chosen side goes, and every other letter keeps its place. */
  lemma SideEliminationWithoutPartner(s: PreAcdState, isRight: bool, isLimitCase: bool)
    requires Uniform(s) && |Side(s, isRight)| > 0
    requires Partner(s.lhs, s.rhs, Side(s, isRight)[|Side(s, isRight)| - 1]).Nowhere?
    ensures var r := SideElimination(s, isRight, isLimitCase).value;
      && Keys(Side(r, isRight)) == Keys(Side(s, isRight))[..|Side(s, isRight)| - 1]
      && Keys(Side(r, !isRight)) == Keys(Side(s, !isRight))
      && Size(r) == Size(s) - 1
  {
    var t := BeforePop(s, isRight, isLimitCase);
    BeforePopSteps(s, isRight, isLimitCase);
    BeforePopKeys(s, isRight, isLimitCase);
    PopOutermostKeys(t, isRight);
    assert |Side(t, isRight)| == |Side(s, isRight)|;
  }

  /** The letter eliminate_from_side takes off the chosen side. */
  function Outermost(s: PreAcdState, isRight: bool): Letter
    requires |Side(s, isRight)| > 0
  {
    Side(s, isRight)[|Side(s, isRight)| - 1]
  }

  /** eliminate_from_side when the partner is on the same side at index k: the outermost
      letter and the partner go (the partner is never the outermost letter itself), and
      the survivors keep their relative order. */
  lemma SideEliminationWithPartnerOnSameSide(s: PreAcdState, isRight: bool, isLimitCase: bool)
    requires Uniform(s) && |Side(s, isRight)| > 0
    requires Partner(s.lhs, s.rhs, Outermost(s, isRight)).At?
    requires Partner(s.lhs, s.rhs, Outermost(s, isRight)).onRight == isRight
    ensures Partner(s.lhs, s.rhs, Outermost(s, isRight)).index < |Side(s, isRight)| - 1
    ensures Keys(Side(SideElimination(s, isRight, isLimitCase).value, isRight))
      == Remove(Keys(Side(s, isRight))[..|Side(s, isRight)| - 1], Partner(s.lhs, s.rhs, Outermost(s, isRight)).index)
    ensures Keys(Side(SideElimination(s, isRight, isLimitCase).value, !isRight)) == Keys(Side(s, !isRight))
    ensures Size(SideElimination(s, isRight, isLimitCase).value) == Size(s) - 2
  {
    var side := Side(s, isRight);
    var n := |side|;
    var t := BeforePop(s, isRight, isLimitCase);
    BeforePopSteps(s, isRight, isLimitCase);
    BeforePopKeys(s, isRight, isLimitCase);
    PopOutermostKeys(t, isRight);
    var k := Partner(s.lhs, s.rhs, side[n - 1]).index;
    var K := Keys(side);
    var r := SideElimination(s, isRight, isLimitCase).value;
    assert Keys(Side(t, isRight)) == Remove(K, k);
    assert |Side(t, isRight)| == n - 1;
    assert Keys(Side(r, isRight)) == Remove(K, k)[..n - 2];
    RemovePrefix(K, k, n - 1);
  }

  /** eliminate_from_side when the partner is on the other side at index k: the outermost
      letter goes from the chosen side and the partner from the other one. */
  lemma SideEliminationWithPartnerOnOtherSide(s: PreAcdState, isRight: bool, isLimitCase: bool)
    requires Uniform(s) && |Side(s, isRight)| > 0
    requires Partner(s.lhs, s.rhs, Outermost(s, isRight)).At?
    requires Partner(s.lhs, s.rhs, Outermost(s, isRight)).onRight != isRight
    ensures Partner(s.lhs, s.rhs, Outermost(s, isRight)).index < |Side(s, !isRight)|
    ensures Keys(Side(SideElimination(s, isRight, isLimitCase).value, isRight)) == Keys(Side(s, isRight))[..|Side(s, isRight)| - 1]
    ensures Keys(Side(SideElimination(s, isRight, isLimitCase).value, !isRight))
      == Remove(Keys(Side(s, !isRight)), Partner(s.lhs, s.rhs, Outermost(s, isRight)).index)
    ensures Size(SideElimination(s, isRight, isLimitCase).value) == Size(s) - 2
  {
    var t := BeforePop(s, isRight, isLimitCase);
    var loc := Partner(s.lhs, s.rhs, Outermost(s, isRight));
    BeforePopSteps(s, isRight, isLimitCase);
    BeforePopKeys(s, isRight, isLimitCase);
    assert Keys(Side(t, !isRight)) == Remove(Keys(Side(s, !isRight)), loc.index);
    assert Keys(Side(t, isRight)) == Keys(Side(s, isRight));
    PopOutermostKeys(t, isRight);
    assert |Side(t, isRight)| == |Side(s, isRight)|;
  }

  // ---------------------------------------------------------------------------
  // eliminate_from_side: the chord that goes
  // ---------------------------------------------------------------------------

  function Labels(side: seq<Letter>): seq<int>
  {
    Map(Keys(side), First)
  }

  function Ids(side: seq<Letter>): seq<int>
  {
    Map(Keys(side), Second)
  }

  lemma CountsBySide(s: PreAcdState, b: bool)
    ensures LabelCount(s) == multiset(Labels(Side(s, b))) + multiset(Labels(Side(s, !b)))
    ensures IdCount(s) == multiset(Ids(Side(s, b))) + multiset(Ids(Side(s, !b)))
  {
  }

  /** In a well-formed pre-diagram two different letters never share an id. */
  lemma IdsDiffer(s: PreAcdState, b: bool, i: nat, c: bool, j: nat)
    requires WellFormed(s) && i < |Side(s, b)| && j < |Side(s, c)| && (b != c || i != j)
    ensures Side(s, b)[i].id != Side(s, c)[j].id
  {
    var x := Side(s, b)[i].id;
    var y := Side(s, c)[j].id;
    CountsBySide(s, b);
    assert Ids(Side(s, b))[i] == x && Ids(Side(s, c))[j] == y;
    if b == c {
      TwoPositions(Ids(Side(s, b)), i, j);
      assert IdCount(s)[x] >= multiset(Ids(Side(s, b)))[x];
    } else {
      assert x in multiset(Ids(Side(s, b))) && y in multiset(Ids(Side(s, c)));
    }
  }

  /** Without a partner no other letter carries the label of the removed one. */
  lemma NoPartnerNoOtherLetter(s: PreAcdState, isRight: bool, b: bool, j: nat)
    requires WellFormed(s) && |Side(s, isRight)| > 0
    requires Partner(s.lhs, s.rhs, Side(s, isRight)[|Side(s, isRight)| - 1]).Nowhere?
    requires j < |Side(s, b)| && (b != isRight || j != |Side(s, isRight)| - 1)
    ensures Labels(Side(s, b))[j] != Side(s, isRight)[|Side(s, isRight)| - 1].alphaNumber
  {
    IdsDiffer(s, b, j, isRight, |Side(s, isRight)| - 1);
    assert !IsPartner(Side(s, b)[j], Side(s, isRight)[|Side(s, isRight)| - 1]);
  }

  /** Without a partner the removed letter is the only end of its chord. */
  lemma NoPartnerSingleEnd(s: PreAcdState, isRight: bool)
    requires WellFormed(s) && |Side(s, isRight)| > 0
    requires Partner(s.lhs, s.rhs, Side(s, isRight)[|Side(s, isRight)| - 1]).Nowhere?
    ensures LabelCount(s)[Side(s, isRight)[|Side(s, isRight)| - 1].alphaNumber] == 1
  {
    var side := Side(s, isRight);
    var n := |side|;
    var a := side[n - 1].alphaNumber;
    var S := Labels(side);
    var O := Labels(Side(s, !isRight));
    var front := S[..n - 1];
    forall j | 0 <= j < n - 1
      ensures front[j] != a
    {
      NoPartnerNoOtherLetter(s, isRight, isRight, j);
    }
    forall j | 0 <= j < |O|
      ensures O[j] != a
    {
      NoPartnerNoOtherLetter(s, isRight, !isRight, j);
    }
    assert a !in multiset(front) && a !in multiset(O);
    CountsBySide(s, isRight);
    DropLastMultiset(S);
  }

  /** With a partner both ends of the chord are present, and there are no others. */
  lemma PartnerBothEnds(s: PreAcdState, isRight: bool)
    requires WellFormed(s) && |Side(s, isRight)| > 0
    requires Partner(s.lhs, s.rhs, Side(s, isRight)[|Side(s, isRight)| - 1]).At?
    ensures LabelCount(s)[Side(s, isRight)[|Side(s, isRight)| - 1].alphaNumber] == 2
  {
    var side := Side(s, isRight);
    var n := |side|;
    var a := side[n - 1].alphaNumber;
    var loc := Partner(s.lhs, s.rhs, side[n - 1]);
    CountsBySide(s, isRight);
    if loc.onRight == isRight {
      assert Labels(side)[loc.index] == a == Labels(side)[n - 1];
      TwoPositions(Labels(side), loc.index, n - 1);
    } else {
      assert Labels(Side(s, !isRight))[loc.index] == a == Labels(side)[n - 1];
      assert a in multiset(Labels(Side(s, !isRight))) && a in multiset(Labels(side));
    }
  }

  /** Taking every copy of a out of a multiset. */
  lemma ClearedCount(before: multiset<int>, after: multiset<int>, removed: multiset<int>, a: int)
    requires before == after + removed
    requires forall x :: x in removed ==> x == a
    requires removed[a] == before[a]
    ensures after == before[a := 0]
  {
    forall x
      ensures after[x] == before[a := 0][x]
    {
      if x != a {
        assert x !in removed;
      }
    }
  }

  /** A side with its outermost letter dropped counts that letter's label and id once less. */
  lemma DropLastCounts(side: seq<Letter>, rest: seq<Letter>)
    requires |side| > 0 && Keys(rest) == Keys(side)[..|side| - 1]
    ensures multiset(Labels(side)) == multiset(Labels(rest)) + multiset{side[|side| - 1].alphaNumber}
    ensures multiset(Ids(side)) == multiset(Ids(rest)) + multiset{side[|side| - 1].id}
  {
    MapDropLastMultiset(Keys(side), Keys(rest), First);
    MapDropLastMultiset(Keys(side), Keys(rest), Second);
  }

  /** A side with the letter at k erased counts that letter's label and id once less. */
  lemma RemoveCounts(side: seq<Letter>, k: nat, rest: seq<Letter>)
    requires k < |side| && Keys(rest) == Remove(Keys(side), k)
    ensures multiset(Labels(side)) == multiset(Labels(rest)) + multiset{side[k].alphaNumber}
    ensures multiset(Ids(side)) == multiset(Ids(rest)) + multiset{side[k].id}
  {
    MapRemoveMultiset(Keys(side), k, Keys(rest), First);
    MapRemoveMultiset(Keys(side), k, Keys(rest), Second);
  }

  /** r is s with the chord labelled a gone: every end of a is removed, no other label
      loses a letter, no id appears that was not there, and r is well-formed. */
  ghost predicate RemovesChord(s: PreAcdState, r: PreAcdState, a: int)
  {
    && LabelCount(r) == LabelCount(s)[a := 0]
    && Size(r) == Size(s) - LabelCount(s)[a]
    && (forall x :: IdCount(r)[x] <= IdCount(s)[x])
    && WellFormed(r)
  }

  /** Partner's contract read through Side: the partner found is on the side it names. */
  lemma PartnerOnSide(s: PreAcdState, p: Letter)
    requires Partner(s.lhs, s.rhs, p).At?
    ensures var loc := Partner(s.lhs, s.rhs, p);
      loc.index < |Side(s, loc.onRight)| && IsPartner(Side(s, loc.onRight)[loc.index], p)
  {
  }

  /** The counting argument shared by every case: when exactly the copies of a leave the
      label count and some ids leave the id count, r is s with the chord a gone. */
  lemma RemovesChordByCounts(s: PreAcdState, r: PreAcdState, a: int,
                             removedLabels: multiset<int>, removedIds: multiset<int>)
    requires WellFormed(s)
    requires LabelCount(s) == LabelCount(r) + removedLabels
    requires forall x :: x in removedLabels ==> x == a
    requires removedLabels[a] == LabelCount(s)[a]
    requires IdCount(s) == IdCount(r) + removedIds
    requires Size(r) == Size(s) - LabelCount(s)[a]
    ensures RemovesChord(s, r, a)
  {
    ClearedCount(LabelCount(s), LabelCount(r), removedLabels, a);
    forall x
      ensures IdCount(r)[x] <= IdCount(s)[x]
    {
    }
    forall x
      ensures LabelCount(r)[x] <= 2
    {
      assert LabelCount(r)[x] <= LabelCount(s)[x];
    }
  }

  /** A side whose keys are unchanged counts the same labels and ids. */
  lemma OtherSideUntouched(before: seq<Letter>, after: seq<Letter>)
    requires Keys(after) == Keys(before)
    ensures Labels(after) == Labels(before) && Ids(after) == Ids(before)
  {
  }

  /** The chosen side when the partner is on it at k < n - 1: both ends leave it. */
  lemma SameSideCounts(side: seq<Letter>, k: nat, rest: seq<Letter>)
    requires k < |side| - 1 && Keys(rest) == Remove(Keys(side)[..|side| - 1], k)
    ensures multiset(Labels(side)) == multiset(Labels(rest))
      + multiset{side[k].alphaNumber, side[|side| - 1].alphaNumber}
    ensures multiset(Ids(side)) == multiset(Ids(rest)) + multiset{side[k].id, side[|side| - 1].id}
  {
    MapDropLastRemoveMultiset(Keys(side), k, Keys(rest), First);
    MapDropLastRemoveMultiset(Keys(side), k, Keys(rest), Second);
  }

  /** The chord of the outermost letter has no other end (the first case of find_letter). */
  lemma RemovesSingleEnd(s: PreAcdState, r: PreAcdState, isRight: bool)
    requires WellFormed(s) && |Side(s, isRight)| > 0
    requires LabelCount(s)[Side(s, isRight)[|Side(s, isRight)| - 1].alphaNumber] == 1
    requires Keys(Side(r, isRight)) == Keys(Side(s, isRight))[..|Side(s, isRight)| - 1]
    requires Keys(Side(r, !isRight)) == Keys(Side(s, !isRight))
    requires Size(r) == Size(s) - 1
    ensures RemovesChord(s, r, Side(s, isRight)[|Side(s, isRight)| - 1].alphaNumber)
  {
    var side := Side(s, isRight);
    var last := side[|side| - 1];
    CountsBySide(s, isRight);
    CountsBySide(r, isRight);
    DropLastCounts(side, Side(r, isRight));
    OtherSideUntouched(Side(s, !isRight), Side(r, !isRight));
    RemovesChordByCounts(s, r, last.alphaNumber, multiset{last.alphaNumber}, multiset{last.id});
  }

  /** The other end of the chord is on the chosen side, at k. */
  lemma RemovesBothEndsFromOneSide(s: PreAcdState, r: PreAcdState, isRight: bool, k: nat)
    requires WellFormed(s) && k < |Side(s, isRight)| - 1
    requires Side(s, isRight)[k].alphaNumber == Outermost(s, isRight).alphaNumber
    requires LabelCount(s)[Outermost(s, isRight).alphaNumber] == 2
    requires Keys(Side(r, isRight)) == Remove(Keys(Side(s, isRight))[..|Side(s, isRight)| - 1], k)
    requires Keys(Side(r, !isRight)) == Keys(Side(s, !isRight))
    requires Size(r) == Size(s) - 2
    ensures RemovesChord(s, r, Outermost(s, isRight).alphaNumber)
  {
    var side := Side(s, isRight);
    var last := Outermost(s, isRight);
    var a := last.alphaNumber;
    BothEndsFromOneSideCounts(s, r, isRight, k);
    RemovesChordByCounts(s, r, a, multiset{a, a}, multiset{side[k].id, last.id});
  }

  /** The counts after removing the outermost letter of one side and its letter at k. */
  lemma BothEndsFromOneSideCounts(s: PreAcdState, r: PreAcdState, isRight: bool, k: nat)
    requires k < |Side(s, isRight)| - 1
    requires Keys(Side(r, isRight)) == Remove(Keys(Side(s, isRight))[..|Side(s, isRight)| - 1], k)
    requires Keys(Side(r, !isRight)) == Keys(Side(s, !isRight))
    ensures LabelCount(s) == LabelCount(r)
      + multiset{Side(s, isRight)[k].alphaNumber, Outermost(s, isRight).alphaNumber}
    ensures IdCount(s) == IdCount(r) + multiset{Side(s, isRight)[k].id, Outermost(s, isRight).id}
  {
    var side := Side(s, isRight);
    assert Outermost(s, isRight) == side[|side| - 1];
    SameSideCounts(side, k, Side(r, isRight));
    OtherSideUntouched(Side(s, !isRight), Side(r, !isRight));
    BothEndsLabels(s, r, isRight, k);
    BothEndsIds(s, r, isRight, k);
  }

  lemma BothEndsLabels(s: PreAcdState, r: PreAcdState, isRight: bool, k: nat)
    requires k < |Side(s, isRight)| - 1
    requires multiset(Labels(Side(s, isRight))) == multiset(Labels(Side(r, isRight)))
      + multiset{Side(s, isRight)[k].alphaNumber, Outermost(s, isRight).alphaNumber}
    requires Labels(Side(r, !isRight)) == Labels(Side(s, !isRight))
    ensures LabelCount(s) == LabelCount(r)
      + multiset{Side(s, isRight)[k].alphaNumber, Outermost(s, isRight).alphaNumber}
  {
    CountsBySide(s, isRight);
    CountsBySide(r, isRight);
    SumWithRemoved(multiset(Labels(Side(s, isRight))), multiset(Labels(Side(s, !isRight))),
      multiset(Labels(Side(r, isRight))), multiset(Labels(Side(r, !isRight))),
      multiset{Side(s, isRight)[k].alphaNumber, Outermost(s, isRight).alphaNumber});
  }

  lemma BothEndsIds(s: PreAcdState, r: PreAcdState, isRight: bool, k: nat)
    requires k < |Side(s, isRight)| - 1
    requires multiset(Ids(Side(s, isRight))) == multiset(Ids(Side(r, isRight)))
      + multiset{Side(s, isRight)[k].id, Outermost(s, isRight).id}
    requires Ids(Side(r, !isRight)) == Ids(Side(s, !isRight))
    ensures IdCount(s) == IdCount(r) + multiset{Side(s, isRight)[k].id, Outermost(s, isRight).id}
  {
    CountsBySide(s, isRight);
    CountsBySide(r, isRight);
    SumWithRemoved(multiset(Ids(Side(s, isRight))), multiset(Ids(Side(s, !isRight))),
      multiset(Ids(Side(r, isRight))), multiset(Ids(Side(r, !isRight))),
      multiset{Side(s, isRight)[k].id, Outermost(s, isRight).id});
  }

  lemma SumWithRemoved(a1: multiset<int>, a2: multiset<int>, b1: multiset<int>, b2: multiset<int>,
                       m: multiset<int>)
    requires a1 == b1 + m && a2 == b2
    ensures a1 + a2 == b1 + b2 + m
  {
  }

  /** Two sides, the first losing its outermost letter and the second its letter at k. */
  lemma DropLastAndRemoveCounts(side: seq<Letter>, other: seq<Letter>, k: nat,
                                side': seq<Letter>, other': seq<Letter>)
    requires |side| > 0 && k < |other|
    requires Keys(side') == Keys(side)[..|side| - 1] && Keys(other') == Remove(Keys(other), k)
    ensures multiset(Labels(side)) + multiset(Labels(other))
      == multiset(Labels(side')) + multiset(Labels(other'))
        + multiset{side[|side| - 1].alphaNumber, other[k].alphaNumber}
    ensures multiset(Ids(side)) + multiset(Ids(other))
      == multiset(Ids(side')) + multiset(Ids(other')) + multiset{side[|side| - 1].id, other[k].id}
  {
    DropLastCounts(side, side');
    RemoveCounts(other, k, other');
  }

  /** The counts after removing the outermost letter of one side and the letter at k of
      the other. */
  lemma OneEndFromEachSideCounts(s: PreAcdState, r: PreAcdState, isRight: bool, k: nat)
    requires |Side(s, isRight)| > 0 && k < |Side(s, !isRight)|
    requires Keys(Side(r, isRight)) == Keys(Side(s, isRight))[..|Side(s, isRight)| - 1]
    requires Keys(Side(r, !isRight)) == Remove(Keys(Side(s, !isRight)), k)
    ensures var last := Side(s, isRight)[|Side(s, isRight)| - 1]; var other := Side(s, !isRight)[k];
      && LabelCount(s) == LabelCount(r) + multiset{last.alphaNumber, other.alphaNumber}
      && IdCount(s) == IdCount(r) + multiset{last.id, other.id}
  {
    CountsBySide(s, isRight);
    CountsBySide(r, isRight);
    DropLastAndRemoveCounts(Side(s, isRight), Side(s, !isRight), k, Side(r, isRight), Side(r, !isRight));
  }

  /** The other end of the chord is on the other side, at k. */
  lemma RemovesOneEndFromEachSide(s: PreAcdState, r: PreAcdState, isRight: bool, k: nat)
    requires WellFormed(s) && |Side(s, isRight)| > 0 && k < |Side(s, !isRight)|
    requires Side(s, !isRight)[k].alphaNumber == Outermost(s, isRight).alphaNumber
    requires LabelCount(s)[Outermost(s, isRight).alphaNumber] == 2
    requires Keys(Side(r, isRight)) == Keys(Side(s, isRight))[..|Side(s, isRight)| - 1]
    requires Keys(Side(r, !isRight)) == Remove(Keys(Side(s, !isRight)), k)
    requires Size(r) == Size(s) - 2
    ensures RemovesChord(s, r, Outermost(s, isRight).alphaNumber)
  {
    var last := Side(s, isRight)[|Side(s, isRight)| - 1];
    var other := Side(s, !isRight)[k];
    var a := last.alphaNumber;
    OneEndFromEachSideCounts(s, r, isRight, k);
    RemovesChordByCounts(s, r, a, multiset{a, a}, multiset{last.id, other.id});
  }

  /** On a well-formed pre-diagram eliminate_from_side removes one whole chord, the one of
      the outermost letter of the chosen side (one letter if that chord has only this end,
      two otherwise), and keeps the pre-diagram well-formed. */
  lemma SideEliminationRemovesChord(s: PreAcdState, isRight: bool, isLimitCase: bool)
    requires Uniform(s) && WellFormed(s) && |Side(s, isRight)| > 0
    ensures RemovesChord(s, SideElimination(s, isRight, isLimitCase).value, Outermost(s, isRight).alphaNumber)
  {
    var loc := Partner(s.lhs, s.rhs, Outermost(s, isRight));
    if loc.Nowhere? {
      PartnerlessChordRemoved(s, isRight, isLimitCase);
    } else if loc.onRight == isRight {
      SameSideChordRemoved(s, isRight, isLimitCase);
    } else {
      OtherSideChordRemoved(s, isRight, isLimitCase);
    }
  }

  lemma PartnerlessChordRemoved(s: PreAcdState, isRight: bool, isLimitCase: bool)
    requires Uniform(s) && WellFormed(s) && |Side(s, isRight)| > 0
    requires Partner(s.lhs, s.rhs, Outermost(s, isRight)).Nowhere?
    ensures RemovesChord(s, SideElimination(s, isRight, isLimitCase).value, Outermost(s, isRight).alphaNumber)
  {
    SideEliminationWithoutPartner(s, isRight, isLimitCase);
    NoPartnerSingleEnd(s, isRight);
    RemovesSingleEnd(s, SideElimination(s, isRight, isLimitCase).value, isRight);
  }

  lemma SameSideChordRemoved(s: PreAcdState, isRight: bool, isLimitCase: bool)
    requires Uniform(s) && WellFormed(s) && |Side(s, isRight)| > 0
    requires Partner(s.lhs, s.rhs, Outermost(s, isRight)).At?
    requires Partner(s.lhs, s.rhs, Outermost(s, isRight)).onRight == isRight
    ensures RemovesChord(s, SideElimination(s, isRight, isLimitCase).value, Outermost(s, isRight).alphaNumber)
  {
    var loc := Partner(s.lhs, s.rhs, Outermost(s, isRight));
    PartnerBothEnds(s, isRight);
    PartnerOnSide(s, Outermost(s, isRight));
    SideEliminationWithPartnerOnSameSide(s, isRight, isLimitCase);
    RemovesBothEndsFromOneSide(s, SideElimination(s, isRight, isLimitCase).value, isRight, loc.index);
  }

  lemma OtherSideChordRemoved(s: PreAcdState, isRight: bool, isLimitCase: bool)
    requires Uniform(s) && WellFormed(s) && |Side(s, isRight)| > 0
    requires Partner(s.lhs, s.rhs, Outermost(s, isRight)).At?
    requires Partner(s.lhs, s.rhs, Outermost(s, isRight)).onRight != isRight
    ensures RemovesChord(s, SideElimination(s, isRight, isLimitCase).value, Outermost(s, isRight).alphaNumber)
  {
    var loc := Partner(s.lhs, s.rhs, Outermost(s, isRight));
    PartnerBothEnds(s, isRight);
    PartnerOnSide(s, Outermost(s, isRight));
    SideEliminationWithPartnerOnOtherSide(s, isRight, isLimitCase);
    RemovesOneEndFromEachSide(s, SideElimination(s, isRight, isLimitCase).value, isRight, loc.index);
  }

  // ---------------------------------------------------------------------------
  // eliminate_turn
  // ---------------------------------------------------------------------------

  /** eliminate_turn(i) with |i| = j takes the letters at j - 1 and j off the side the sign
      of i names, keeps every other letter in order and leaves the other side alone. */
  lemma TurnEliminationKeys(s: PreAcdState, index: int)
    requires Uniform(s) && IsTurnIndex(s, index)
    ensures var side := Side(s, index > 0); var j := Abs(index);
      var r := TurnElimination(s, index);
      && Keys(Side(r, index > 0)) == Keys(side)[..j - 1] + Keys(side)[j + 1..]
      && Side(r, !(index > 0)) == Side(s, !(index > 0))
  {
    var side := Side(s, index > 0);
    var j := Abs(index);
    var side1 := if j > 1 then
        side[j - 2 := side[j - 2].(weight := Add(side[j - 2].weight, Add(side[j - 1].weight, side[j].weight)))]
      else side;
    if j > 1 {
      MapUpdate(side, j - 2, side1[j - 2], KeyOf);
    }
    MapCutPair(side1, j, KeyOf);
    assert Side(TurnElimination(s, index), index > 0) == side1[..j - 1] + side1[j + 1..];
  }

  /** eliminate_turn: one more elimination, costing the weight of the letter at j - 1. */
  lemma TurnEliminationCost(s: PreAcdState, index: int)
    requires Uniform(s) && IsTurnIndex(s, index)
    ensures var r := TurnElimination(s, index);
      && r.numberOfIncreases == s.numberOfIncreases + 1
      && r.totalIncreaser == Add(s.totalIncreaser, Side(s, index > 0)[Abs(index) - 1].weight)
  {
  }

  /** eliminate_turn on the letters of the chosen side: the letter at j - 2 (if any)
      absorbs the weights of the two removed letters, the letters after the turn close
      up, and every other letter is unchanged. */
  lemma TurnEliminationWeights(s: PreAcdState, index: int)
    requires Uniform(s) && IsTurnIndex(s, index)
    ensures var side := Side(s, index > 0); var j := Abs(index);
      var r := Side(TurnElimination(s, index), index > 0);
      && |r| == |side| - 2
      && (j > 1 ==> (r[..j - 2] == side[..j - 2]
        && r[j - 2] == side[j - 2].(weight := Add(side[j - 2].weight, Add(side[j - 1].weight, side[j].weight)))))
      && r[j - 1..] == side[j + 1..]
  {
    var side := Side(s, index > 0);
    var j := Abs(index);
    var side1 := if j > 1 then
        side[j - 2 := side[j - 2].(weight := Add(side[j - 2].weight, Add(side[j - 1].weight, side[j].weight)))]
      else side;
    var r := Side(TurnElimination(s, index), index > 0);
    assert r == side1[..j - 1] + side1[j + 1..];
    assert r[j - 1..] == side1[j + 1..];
    if j > 1 {
      assert r[..j - 2] == side1[..j - 2];
    }
  }

  /** Every turn get_all_possible_turns reports is a valid argument of eliminate_turn. */
  lemma PossibleTurnsAreTurnIndices(s: PreAcdState)
    ensures forall t :: t in PossibleTurns(s) ==> IsTurnIndex(s, t)
  {
  }

  /** A side with the adjacent pair at j - 1 and j cut out counts both letters once less. */
  lemma CutPairCounts(side: seq<Letter>, j: nat, rest: seq<Letter>)
    requires 1 <= j < |side| && Keys(rest) == Keys(side)[..j - 1] + Keys(side)[j + 1..]
    ensures multiset(Labels(side)) == multiset(Labels(rest))
      + multiset{side[j - 1].alphaNumber, side[j].alphaNumber}
    ensures multiset(Ids(side)) == multiset(Ids(rest)) + multiset{side[j - 1].id, side[j].id}
  {
    MapCutPairMultiset(Keys(side), j, Keys(rest), First);
    MapCutPairMultiset(Keys(side), j, Keys(rest), Second);
  }

  /** In a well-formed pre-diagram an adjacency holds both ends of its chord. */
  lemma AdjacentBothEnds(s: PreAcdState, b: bool, j: nat)
    requires WellFormed(s) && Adjacent(Side(s, b), j)
    ensures LabelCount(s)[Side(s, b)[j].alphaNumber] == 2
  {
    var side := Side(s, b);
    var a := side[j].alphaNumber;
    CountsBySide(s, b);
    assert Labels(side)[j - 1] == a && Labels(side)[j] == a;
    TwoPositions(Labels(side), j - 1, j);
  }

  /** The counts after cutting the pair at j - 1 and j out of side b. */
  lemma CutPairStateCounts(s: PreAcdState, r: PreAcdState, b: bool, j: nat)
    requires 1 <= j < |Side(s, b)|
    requires Keys(Side(r, b)) == Keys(Side(s, b))[..j - 1] + Keys(Side(s, b))[j + 1..]
    requires Keys(Side(r, !b)) == Keys(Side(s, !b))
    ensures var side := Side(s, b);
      && LabelCount(s) == LabelCount(r) + multiset{side[j - 1].alphaNumber, side[j].alphaNumber}
      && IdCount(s) == IdCount(r) + multiset{side[j - 1].id, side[j].id}
  {
    CountsBySide(s, b);
    CountsBySide(r, b);
    CutPairCounts(Side(s, b), j, Side(r, b));
    OtherSideUntouched(Side(s, !b), Side(r, !b));
  }

  /** Two adjacent ends of one chord leave side b and nothing else changes. */
  lemma RemovesAdjacentPair(s: PreAcdState, r: PreAcdState, b: bool, j: nat)
    requires WellFormed(s) && Adjacent(Side(s, b), j)
    requires Keys(Side(r, b)) == Keys(Side(s, b))[..j - 1] + Keys(Side(s, b))[j + 1..]
    requires Keys(Side(r, !b)) == Keys(Side(s, !b))
    requires Size(r) == Size(s) - 2
    ensures RemovesChord(s, r, Side(s, b)[j].alphaNumber)
  {
    var side := Side(s, b);
    var a := side[j].alphaNumber;
    AdjacentBothEnds(s, b, j);
    CutPairStateCounts(s, r, b, j);
    RemovesChordByCounts(s, r, a, multiset{a, a}, multiset{side[j - 1].id, side[j].id});
  }

  /** On a well-formed pre-diagram, eliminating a turn removes both ends of its chord and
      keeps the pre-diagram well-formed. */
  lemma TurnEliminationRemovesChord(s: PreAcdState, index: int)
    requires Uniform(s) && WellFormed(s) && IsTurn(s, index)
    ensures RemovesChord(s, TurnElimination(s, index), Side(s, index > 0)[Abs(index)].alphaNumber)
  {
    TurnEliminationKeys(s, index);
    RemovesAdjacentPair(s, TurnElimination(s, index), index > 0, Abs(index));
  }

  // ---------------------------------------------------------------------------
  // Costs
  // ---------------------------------------------------------------------------

  /** eliminate_from_side: one more elimination, costing twice the weight w of the
      outermost letter of the chosen side, plus one crossing unless in the limit case. */
  lemma SideEliminationCost(s: PreAcdState, isRight: bool, isLimitCase: bool)
    requires Uniform(s) && |Side(s, isRight)| > 0
    ensures var r := SideElimination(s, isRight, isLimitCase).value;
      var w := Side(s, isRight)[|Side(s, isRight)| - 1].weight;
      && r.numberOfIncreases == s.numberOfIncreases + 1
      && r.totalIncreaser == AddCrossing(Add(s.totalIncreaser, Scale(2, w)), isLimitCase)
  {
  }

  /** The partner's side after RemovePartner, letter by letter: the letters before the
      partner's predecessor keep their places, the predecessor (if any) has absorbed the
      partner's weight and twice the removed weight plus the crossing, the partner is
      gone and the letters above it move down by one; the other side is untouched. */
  lemma RemovePartnerSides(s: PreAcdState, removed: Letter, isLimitCase: bool, b: bool, k: nat)
    requires Uniform(s) && removed.weight.Arity() == s.totalIncreaser.Arity()
    requires Partner(s.lhs, s.rhs, removed) == At(b, k)
    ensures k < |Side(s, b)|
    ensures var pl := Side(s, b); var r := Side(RemovePartner(s, removed, isLimitCase), b);
      && |r| == |pl| - 1
      && (k > 0 ==>
            && r[..k - 1] == pl[..k - 1]
            && r[k - 1] == pl[k - 1].(weight := AddCrossing(
                 Add(pl[k - 1].weight, Add(pl[k].weight, Scale(2, removed.weight))), isLimitCase)))
      && r[k..] == pl[k + 1..]
    ensures Side(RemovePartner(s, removed, isLimitCase), !b) == Side(s, !b)
  {
    var pl := Side(s, b);
    var pl1 := if k > 0 then
        pl[k - 1 := pl[k - 1].(weight := AddCrossing(
          Add(pl[k - 1].weight, Add(pl[k].weight, Scale(2, removed.weight))), isLimitCase))]
      else pl;
    var r := Side(RemovePartner(s, removed, isLimitCase), b);
    assert r == pl1[..k] + pl1[k + 1..];
    assert r[k..] == pl1[k + 1..];
    if k > 0 {
      assert r[..k - 1] == pl1[..k - 1];
    }
  }

  /** RemovePartner leaves the side without the partner untouched. */
  lemma RemovePartnerOtherSide(s: PreAcdState, removed: Letter, isLimitCase: bool, b: bool, k: nat)
    requires Uniform(s) && removed.weight.Arity() == s.totalIncreaser.Arity()
    requires Partner(s.lhs, s.rhs, removed) == At(b, k)
    ensures Side(RemovePartner(s, removed, isLimitCase), !b) == Side(s, !b)
  {
  }

  /** The chosen side after the first two steps of a side elimination: the next letter
      (if any) has absorbed the outermost one; the partner search sees the same keys. */
  lemma BeforePartnerSides(s: PreAcdState, isRight: bool, isLimitCase: bool)
    requires Uniform(s) && |Side(s, isRight)| > 0
    ensures var side := Side(s, isRight); var n := |side|;
      var s1 := AbsorbOutermost(ChargeOutermost(s, isRight, isLimitCase), isRight);
      && Side(s1, isRight) == (if n >= 2 then side[n - 2 := Absorb(side[n - 2], side[n - 1])] else side)
      && Side(s1, !isRight) == Side(s, !isRight)
      && Partner(s1.lhs, s1.rhs, Outermost(s, isRight)) == Partner(s.lhs, s.rhs, Outermost(s, isRight))
      && SideElimination(s, isRight, isLimitCase).value
         == PopOutermost(RemovePartner(s1, Outermost(s, isRight), isLimitCase), isRight)
  {
    var s0 := ChargeOutermost(s, isRight, isLimitCase);
    var s1 := AbsorbOutermost(s0, isRight);
    SideEliminationSteps(s, isRight, isLimitCase);
    AbsorbOutermostKeys(s0, isRight);
    PartnerByKeys(s1.lhs, s1.rhs, s.lhs, s.rhs, Outermost(s, isRight));
  }

  /** The final pop_back takes the outermost letter off the chosen side only. */
  lemma PopOutermostSides(t: PreAcdState, isRight: bool)
    requires Uniform(t) && |Side(t, isRight)| > 0
    ensures Side(PopOutermost(t, isRight), isRight) == Side(t, isRight)[..|Side(t, isRight)| - 1]
    ensures Side(PopOutermost(t, isRight), !isRight) == Side(t, !isRight)
  {
  }

  /** The letter at n - 3 once the neighbour at n - 2 has absorbed the outermost letter
      and has then been erased as its partner. */
  function NeighbourPredecessor(side: seq<Letter>, isLimitCase: bool): Letter
    requires |side| >= 3 && SameArity(side, side[0].weight.Arity())
  {
    var n := |side|;
    var w := side[n - 1].weight;
    side[n - 3].(weight :=
      AddCrossing(Add(side[n - 3].weight, Add(Add(side[n - 2].weight, w), Scale(2, w))), isLimitCase))
  }

  lemma NeighbourPartnerSeq(side: seq<Letter>, side1: seq<Letter>, erased: seq<Letter>, isLimitCase: bool)
    requires |side| >= 3 && SameArity(side, side[0].weight.Arity())
    requires side1 == side[|side| - 2 := Absorb(side[|side| - 2], side[|side| - 1])]
    requires erased == Remove(side1[|side| - 3 := side1[|side| - 3].(weight := AddCrossing(
      Add(side1[|side| - 3].weight, Add(side1[|side| - 2].weight, Scale(2, side[|side| - 1].weight))), isLimitCase))],
      |side| - 2)
    ensures erased[..|side| - 2] == side[..|side| - 3] + [NeighbourPredecessor(side, isLimitCase)]
  {
    var n := |side|;
    assert erased[..n - 2] == side1[..n - 3] + [erased[n - 3]];
  }

  /** The weights after a side elimination whose partner is the next letter on the same
      side: that neighbour first absorbs the outermost weight w and is then erased as the
      partner, so its predecessor receives the neighbour's weight, w, twice w more and
      the crossing. */
  lemma SideEliminationNeighbourPartner(s: PreAcdState, isRight: bool, isLimitCase: bool)
    requires Uniform(s) && |Side(s, isRight)| >= 3
    requires Partner(s.lhs, s.rhs, Outermost(s, isRight)) == At(isRight, |Side(s, isRight)| - 2)
    ensures var side := Side(s, isRight); var r := SideElimination(s, isRight, isLimitCase).value;
      && Side(r, isRight) == side[..|side| - 3] + [NeighbourPredecessor(side, isLimitCase)]
      && Side(r, !isRight) == Side(s, !isRight)
  {
    var side := Side(s, isRight);
    var n := |side|;
    var s1 := AbsorbOutermost(ChargeOutermost(s, isRight, isLimitCase), isRight);
    BeforePartnerSides(s, isRight, isLimitCase);
    RemovePartnerSides(s1, Outermost(s, isRight), isLimitCase, isRight, n - 2);
    var s2 := RemovePartner(s1, Outermost(s, isRight), isLimitCase);
    NeighbourPartnerSeq(side, Side(s1, isRight), Side(s2, isRight), isLimitCase);
    PopOutermostSides(s2, isRight);
  }

  /** The side a side elimination starts from, once its outermost letter has been
      absorbed by the next one and popped. */
  function AbsorbedAndPopped(side: seq<Letter>): seq<Letter>
    requires |side| > 0 && (|side| >= 2 ==> side[|side| - 2].weight.Arity() == side[|side| - 1].weight.Arity())
  {
    var n := |side|;
    if n >= 2 then side[..n - 2] + [Absorb(side[n - 2], side[n - 1])] else []
  }

  lemma AbsorbedAndPoppedSeq(side: seq<Letter>, side1: seq<Letter>)
    requires |side| > 0 && SameArity(side, side[0].weight.Arity())
    requires side1 == if |side| >= 2 then side[|side| - 2 := Absorb(side[|side| - 2], side[|side| - 1])] else side
    ensures side1[..|side| - 1] == AbsorbedAndPopped(side)
  {
  }

  /** The other side after RemovePartner erased the partner at k there. */
  function PartnerErased(other: seq<Letter>, k: nat, w: LinearFunction, isLimitCase: bool): seq<Letter>
    requires k < |other| && (k > 0 ==> other[k - 1].weight.Arity() == other[k].weight.Arity() == w.Arity())
  {
    Remove(if k > 0 then other[k - 1 := other[k - 1].(weight :=
      AddCrossing(Add(other[k - 1].weight, Add(other[k].weight, Scale(2, w))), isLimitCase))] else other, k)
  }

  /** The weights after a side elimination whose partner sits at k on the other side: the
      next letter on this side absorbs w, and on the other side the partner's predecessor
      (if any) receives the partner's weight, twice w and the crossing before the partner
      is erased. */
  lemma SideEliminationOtherSidePartner(s: PreAcdState, isRight: bool, isLimitCase: bool, k: nat)
    requires Uniform(s) && |Side(s, isRight)| > 0
    requires Partner(s.lhs, s.rhs, Outermost(s, isRight)) == At(!isRight, k)
    ensures k < |Side(s, !isRight)|
    ensures var r := SideElimination(s, isRight, isLimitCase).value;
      && Side(r, isRight) == AbsorbedAndPopped(Side(s, isRight))
      && Side(r, !isRight) == PartnerErased(Side(s, !isRight), k, Outermost(s, isRight).weight, isLimitCase)
  {
    OtherSidePartnerThisSide(s, isRight, isLimitCase, k);
    OtherSidePartnerOtherSide(s, isRight, isLimitCase, k);
  }

  lemma OtherSidePartnerThisSide(s: PreAcdState, isRight: bool, isLimitCase: bool, k: nat)
    requires Uniform(s) && |Side(s, isRight)| > 0
    requires Partner(s.lhs, s.rhs, Outermost(s, isRight)) == At(!isRight, k)
    ensures Side(SideElimination(s, isRight, isLimitCase).value, isRight) == AbsorbedAndPopped(Side(s, isRight))
  {
    var s1 := AbsorbOutermost(ChargeOutermost(s, isRight, isLimitCase), isRight);
    BeforePartnerSides(s, isRight, isLimitCase);
    RemovePartnerOtherSide(s1, Outermost(s, isRight), isLimitCase, !isRight, k);
    var s2 := RemovePartner(s1, Outermost(s, isRight), isLimitCase);
    AbsorbedAndPoppedSeq(Side(s, isRight), Side(s1, isRight));
    PopOutermostSides(s2, isRight);
  }

  lemma OtherSidePartnerOtherSide(s: PreAcdState, isRight: bool, isLimitCase: bool, k: nat)
    requires Uniform(s) && |Side(s, isRight)| > 0
    requires Partner(s.lhs, s.rhs, Outermost(s, isRight)) == At(!isRight, k)
    ensures k < |Side(s, !isRight)|
    ensures Side(SideElimination(s, isRight, isLimitCase).value, !isRight)
      == PartnerErased(Side(s, !isRight), k, Outermost(s, isRight).weight, isLimitCase)
  {
    var s1 := AbsorbOutermost(ChargeOutermost(s, isRight, isLimitCase), isRight);
    BeforePartnerSides(s, isRight, isLimitCase);
    RemovePartnerSides(s1, Outermost(s, isRight), isLimitCase, !isRight, k);
    var s2 := RemovePartner(s1, Outermost(s, isRight), isLimitCase);
    PopOutermostSides(s2, isRight);
  }

  /** The weights after a side elimination that finds no partner: the next letter on the
      chosen side absorbs the outermost weight, the outermost letter goes, and the other
      side is untouched. */
  lemma SideEliminationWithoutPartnerWeights(s: PreAcdState, isRight: bool, isLimitCase: bool)
    requires Uniform(s) && |Side(s, isRight)| > 0
    requires Partner(s.lhs, s.rhs, Outermost(s, isRight)).Nowhere?
    ensures var r := SideElimination(s, isRight, isLimitCase).value;
      && Side(r, isRight) == AbsorbedAndPopped(Side(s, isRight))
      && Side(r, !isRight) == Side(s, !isRight)
  {
    var s1 := AbsorbOutermost(ChargeOutermost(s, isRight, isLimitCase), isRight);
    SideEliminationPop(s, isRight, isLimitCase);
    WithoutPartnerAbsorbed(s, isRight, isLimitCase);
    AbsorbedAndPoppedSeq(Side(s, isRight), Side(s1, isRight));
  }

  /** Without a partner, the partner step changes nothing after the absorb. */
  lemma WithoutPartnerAbsorbed(s: PreAcdState, isRight: bool, isLimitCase: bool)
    requires Uniform(s) && |Side(s, isRight)| > 0
    requires Partner(s.lhs, s.rhs, Outermost(s, isRight)).Nowhere?
    ensures var side := Side(s, isRight); var n := |side|;
      var s1 := AbsorbOutermost(ChargeOutermost(s, isRight, isLimitCase), isRight);
      && RemovePartner(s1, Outermost(s, isRight), isLimitCase) == s1
      && Side(s1, isRight) == (if n >= 2 then side[n - 2 := Absorb(side[n - 2], side[n - 1])] else side)
      && Side(s1, !isRight) == Side(s, !isRight)
  {
    var s0 := ChargeOutermost(s, isRight, isLimitCase);
    AbsorbOutermostPartner(s0, isRight, Outermost(s, isRight));
    assert Side(s0, isRight) == Side(s, isRight);
  }

  /** The chosen side r after a side elimination whose partner sits at k on the same
      side, below the next letter (w the outermost weight, n letters before): the
      partner's predecessor (if any) has received the partner's weight, twice w and the
      crossing; the letter at n - 2 has absorbed w; the partner and the outermost letter
      are gone; every other letter keeps its weight and the order is kept. */
  ghost predicate SameSidePartnerEffect(side: seq<Letter>, r: seq<Letter>, k: nat, isLimitCase: bool)
    requires |side| >= 3 && k < |side| - 2 && SameArity(side, side[0].weight.Arity())
  {
    var n := |side|;
    var w := side[n - 1].weight;
    && |r| == n - 2
    && (k > 0 ==>
          && r[..k - 1] == side[..k - 1]
          && r[k - 1] == side[k - 1].(weight := AddCrossing(
               Add(side[k - 1].weight, Add(side[k].weight, Scale(2, w))), isLimitCase)))
    && r[k..n - 3] == side[k + 1..n - 2]
    && r[n - 3] == Absorb(side[n - 2], side[n - 1])
  }

  /** The weights after a side elimination whose partner sits at k on the same side, below
      the next letter: SameSidePartnerEffect on the chosen side, and the other side is
      untouched. */
  lemma SideEliminationSameSidePartnerWeights(s: PreAcdState, isRight: bool, isLimitCase: bool, k: nat)
    requires Uniform(s) && |Side(s, isRight)| > 0
    requires Partner(s.lhs, s.rhs, Outermost(s, isRight)) == At(isRight, k) && k < |Side(s, isRight)| - 2
    ensures SameSidePartnerEffect(Side(s, isRight), Side(SideElimination(s, isRight, isLimitCase).value, isRight),
      k, isLimitCase)
    ensures Side(SideElimination(s, isRight, isLimitCase).value, !isRight) == Side(s, !isRight)
  {
    SideEliminationPop(s, isRight, isLimitCase);
    SameSidePartnerBeforePop(s, isRight, isLimitCase, k);
  }

  /** SameSidePartnerEffect holds of the chosen side just before the final pop_back,
      once its last letter is dropped. */
  lemma SameSidePartnerBeforePop(s: PreAcdState, isRight: bool, isLimitCase: bool, k: nat)
    requires Uniform(s) && |Side(s, isRight)| > 0
    requires Partner(s.lhs, s.rhs, Outermost(s, isRight)) == At(isRight, k) && k < |Side(s, isRight)| - 2
    ensures var side := Side(s, isRight); var removed := Outermost(s, isRight);
      var s1 := AbsorbOutermost(ChargeOutermost(s, isRight, isLimitCase), isRight);
      var side2 := Side(RemovePartner(s1, removed, isLimitCase), isRight);
      && |side2| == |side| - 1
      && SameSidePartnerEffect(side, side2[..|side| - 2], k, isLimitCase)
      && Side(RemovePartner(s1, removed, isLimitCase), !isRight) == Side(s, !isRight)
  {
    var side := Side(s, isRight);
    var removed := Outermost(s, isRight);
    var s1 := AbsorbOutermost(ChargeOutermost(s, isRight, isLimitCase), isRight);
    SameSidePartnerAbsorbed(s, isRight, isLimitCase, k);
    SameSidePartnerErased(s1, removed, isLimitCase, isRight, k, side);
    RemovePartnerOtherSide(s1, removed, isLimitCase, isRight, k);
  }

  /** The state after the first two steps, in the form SameSidePartnerErased takes. */
  lemma SameSidePartnerAbsorbed(s: PreAcdState, isRight: bool, isLimitCase: bool, k: nat)
    requires Uniform(s) && |Side(s, isRight)| > 0
    requires Partner(s.lhs, s.rhs, Outermost(s, isRight)) == At(isRight, k) && k < |Side(s, isRight)| - 2
    ensures var side := Side(s, isRight); var n := |side|; var removed := Outermost(s, isRight);
      var s1 := AbsorbOutermost(ChargeOutermost(s, isRight, isLimitCase), isRight);
      && Uniform(s1) && removed.weight.Arity() == s1.totalIncreaser.Arity()
      && Partner(s1.lhs, s1.rhs, removed) == At(isRight, k)
      && SameArity(side, removed.weight.Arity())
      && Side(s1, isRight) == side[n - 2 := Absorb(side[n - 2], side[n - 1])]
  {
    var removed := Outermost(s, isRight);
    var s0 := ChargeOutermost(s, isRight, isLimitCase);
    assert Side(s0, isRight) == Side(s, isRight);
    AbsorbOutermostSide(s0, isRight);
    AbsorbOutermostPartner(s0, isRight, removed);
  }

  /** The partner erasure on the chosen side, read against the side before the absorb. */
  lemma SameSidePartnerErased(s1: PreAcdState, removed: Letter, isLimitCase: bool, isRight: bool, k: nat,
                              side: seq<Letter>)
    requires Uniform(s1) && removed.weight.Arity() == s1.totalIncreaser.Arity()
    requires Partner(s1.lhs, s1.rhs, removed) == At(isRight, k)
    requires |side| >= 3 && k < |side| - 2 && SameArity(side, removed.weight.Arity())
    requires Side(s1, isRight) == side[|side| - 2 := Absorb(side[|side| - 2], side[|side| - 1])]
    requires removed == side[|side| - 1]
    ensures |Side(RemovePartner(s1, removed, isLimitCase), isRight)| == |side| - 1
    ensures SameSidePartnerEffect(side, Side(RemovePartner(s1, removed, isLimitCase), isRight)[..|side| - 2],
      k, isLimitCase)
  {
    RemovePartnerSides(s1, removed, isLimitCase, isRight, k);
    var s2 := RemovePartner(s1, removed, isLimitCase);
    SameSidePartnerSeq(side, Side(s1, isRight), Side(s2, isRight), k, removed.weight, isLimitCase);
  }

  /** The next letter on the chosen side absorbs the outermost one. */
  lemma AbsorbOutermostSide(s: PreAcdState, isRight: bool)
    requires Uniform(s) && |Side(s, isRight)| >= 2
    ensures var side := Side(s, isRight); var n := |side|;
      Side(AbsorbOutermost(s, isRight), isRight) == side[n - 2 := Absorb(side[n - 2], side[n - 1])]
  {
  }

  /** Absorbing changes no key, so the partner search finds the same letter. */
  lemma AbsorbOutermostPartner(s: PreAcdState, isRight: bool, p: Letter)
    requires Uniform(s) && |Side(s, isRight)| > 0
    ensures var s1 := AbsorbOutermost(s, isRight); Partner(s1.lhs, s1.rhs, p) == Partner(s.lhs, s.rhs, p)
  {
    var s1 := AbsorbOutermost(s, isRight);
    AbsorbOutermostKeys(s, isRight);
    PartnerByKeys(s1.lhs, s1.rhs, s.lhs, s.rhs, p);
  }

  /** A side elimination ends with the pop_back of the chosen side. */
  lemma SideEliminationPop(s: PreAcdState, isRight: bool, isLimitCase: bool)
    requires Uniform(s) && |Side(s, isRight)| > 0
    ensures var s1 := AbsorbOutermost(ChargeOutermost(s, isRight, isLimitCase), isRight);
      var s2 := RemovePartner(s1, Outermost(s, isRight), isLimitCase);
      var r := SideElimination(s, isRight, isLimitCase).value;
      && |Side(s2, isRight)| > 0
      && Side(r, isRight) == Side(s2, isRight)[..|Side(s2, isRight)| - 1]
      && Side(r, !isRight) == Side(s2, !isRight)
  {
    var s1 := AbsorbOutermost(ChargeOutermost(s, isRight, isLimitCase), isRight);
    var s2 := RemovePartner(s1, Outermost(s, isRight), isLimitCase);
    SideEliminationSteps(s, isRight, isLimitCase);
    PopOutermostSides(s2, isRight);
  }

  lemma SameSidePartnerSeq(side: seq<Letter>, side1: seq<Letter>, side2: seq<Letter>, k: nat,
                           w: LinearFunction, isLimitCase: bool)
    requires |side| >= 3 && k < |side| - 2 && SameArity(side, w.Arity()) && w == side[|side| - 1].weight
    requires side1 == side[|side| - 2 := Absorb(side[|side| - 2], side[|side| - 1])]
    requires |side2| == |side| - 1 && side2[k..] == side1[k + 1..]
    requires k > 0 ==>
      && side2[..k - 1] == side1[..k - 1]
      && side2[k - 1] == side1[k - 1].(weight := AddCrossing(
           Add(side1[k - 1].weight, Add(side1[k].weight, Scale(2, w))), isLimitCase))
    ensures SameSidePartnerEffect(side, side2[..|side| - 2], k, isLimitCase)
  {
    var n := |side|;
    assert side2[k..n - 3] == side2[k..][..n - 3 - k];
    assert side2[k..n - 3] == side1[k + 1..n - 2];
    assert side2[n - 3] == side1[n - 2];
  }

  /** Every weight of a side has non-negative coefficients. */
  ghost predicate NonNegativeSide(side: seq<Letter>)
  {
    forall i :: 0 <= i < |side| ==> NonNegative(side[i].weight)
  }

  /** All weights and the accumulated cost have non-negative coefficients. */
  ghost predicate NonNegativeState(s: PreAcdState)
  {
    NonNegative(s.totalIncreaser) && NonNegativeSide(s.lhs) && NonNegativeSide(s.rhs)
  }

  /** A new pre-diagram starts with unit weights and zero cost. */
  lemma InitialNonNegative(chords: seq<int>)
    requires |chords| % 2 == 0 && |chords| + 1 <= Capacity
    ensures NonNegativeState(Initial(chords))
  {
    var s := Initial(chords);
    InitialWeights(chords);
    forall i | 0 <= i < |s.lhs|
      ensures NonNegative(s.lhs[i].weight)
    {
      assert s.lhs[i].weight == Unit(1 + i, 1, |chords| + 1);
    }
    forall i | 0 <= i < |s.rhs|
      ensures NonNegative(s.rhs[i].weight)
    {
      assert s.rhs[i].weight == Unit(1 + |chords| / 2 + i, 1, |chords| + 1);
    }
  }

  lemma ChargeOutermostGrows(s: PreAcdState, isRight: bool, isLimitCase: bool)
    requires Uniform(s) && NonNegativeState(s) && |Side(s, isRight)| > 0
    ensures var r := ChargeOutermost(s, isRight, isLimitCase);
      NonNegativeState(r) && Dominates(r.totalIncreaser, s.totalIncreaser)
  {
    var side := Side(s, isRight);
    ChargeGrows(s.totalIncreaser, side[|side| - 1].weight, isLimitCase);
  }

  lemma AbsorbOutermostNonNegative(s: PreAcdState, isRight: bool)
    requires Uniform(s) && NonNegativeState(s) && |Side(s, isRight)| > 0
    ensures NonNegativeState(AbsorbOutermost(s, isRight))
  {
    var side := Side(s, isRight);
    var n := |side|;
    if n != 1 {
      AddNonNegative(side[n - 2].weight, side[n - 1].weight);
    }
  }

  lemma RemovePartnerNonNegative(s: PreAcdState, removed: Letter, isLimitCase: bool)
    requires Uniform(s) && NonNegativeState(s) && removed.weight.Arity() == s.totalIncreaser.Arity()
    requires NonNegative(removed.weight)
    ensures NonNegativeState(RemovePartner(s, removed, isLimitCase))
  {
    var loc := Partner(s.lhs, s.rhs, removed);
    if loc.At? && loc.index > 0 {
      var pl := Side(s, loc.onRight);
      var k := loc.index;
      var moved := Add(pl[k].weight, Scale(2, removed.weight));
      ScaleNonNegative(2, removed.weight);
      AddNonNegative(pl[k].weight, Scale(2, removed.weight));
      AddNonNegative(pl[k - 1].weight, moved);
      AddCrossingGrows(Add(pl[k - 1].weight, moved), isLimitCase);
      var r := RemovePartner(s, removed, isLimitCase);
      var R := Side(r, loc.onRight);
      forall i | 0 <= i < |R|
        ensures NonNegative(R[i].weight)
      {
        if i != k - 1 {
          assert R[i] == pl[if i < k then i else i + 1];
        }
      }
      assert Side(r, !loc.onRight) == Side(s, !loc.onRight);
    }
  }

  /** Side eliminations only add non-negative amounts: starting from non-negative weights
      and cost, the weights stay non-negative and the cost never decreases. */
  lemma SideEliminationGrows(s: PreAcdState, isRight: bool, isLimitCase: bool)
    requires Uniform(s) && NonNegativeState(s) && |Side(s, isRight)| > 0
    ensures NonNegativeState(SideElimination(s, isRight, isLimitCase).value)
    ensures Dominates(SideElimination(s, isRight, isLimitCase).value.totalIncreaser, s.totalIncreaser)
  {
    var s0 := ChargeOutermost(s, isRight, isLimitCase);
    var s1 := AbsorbOutermost(s0, isRight);
    var removed := Outermost(s, isRight);
    var s2 := RemovePartner(s1, removed, isLimitCase);
    ChargeOutermostGrows(s, isRight, isLimitCase);
    AbsorbOutermostNonNegative(s0, isRight);
    OutermostNonNegative(s, isRight);
    RemovePartnerNonNegative(s1, removed, isLimitCase);
    PopOutermostNonNegative(s2, isRight);
    SideEliminationSteps(s, isRight, isLimitCase);
  }

  lemma OutermostNonNegative(s: PreAcdState, isRight: bool)
    requires Uniform(s) && NonNegativeState(s) && |Side(s, isRight)| > 0
    ensures NonNegative(Outermost(s, isRight).weight)
    ensures Outermost(s, isRight).weight.Arity() == s.totalIncreaser.Arity()
  {
  }

  /** eliminate_from_side as the composition of its four parts. */
  lemma SideEliminationSteps(s: PreAcdState, isRight: bool, isLimitCase: bool)
    requires Uniform(s) && |Side(s, isRight)| > 0
    ensures SideElimination(s, isRight, isLimitCase).value == PopOutermost(RemovePartner(
      AbsorbOutermost(ChargeOutermost(s, isRight, isLimitCase), isRight), Outermost(s, isRight), isLimitCase), isRight)
  {
  }

  lemma PopOutermostNonNegative(s: PreAcdState, isRight: bool)
    requires Uniform(s) && NonNegativeState(s) && |Side(s, isRight)| > 0
    ensures NonNegativeState(PopOutermost(s, isRight))
  {
  }

  /** Turn eliminations only add non-negative amounts too. */
  lemma TurnEliminationGrows(s: PreAcdState, index: int)
    requires Uniform(s) && NonNegativeState(s) && IsTurnIndex(s, index)
    ensures var r := TurnElimination(s, index);
      NonNegativeState(r) && Dominates(r.totalIncreaser, s.totalIncreaser)
  {
    var b := index > 0;
    var side := Side(s, b);
    var j := Abs(index);
    var r := TurnElimination(s, index);
    AddNonNegative(s.totalIncreaser, side[j - 1].weight);
    if j > 1 {
      AddNonNegative(side[j - 1].weight, side[j].weight);
      AddNonNegative(side[j - 2].weight, Add(side[j - 1].weight, side[j].weight));
    }
    var R := Side(r, b);
    forall i | 0 <= i < |R|
      ensures NonNegative(R[i].weight)
    {
      if i + 2 != j {
        assert R[i] == side[if i < j - 1 then i else i + 2];
      }
    }
    assert Side(r, !b) == Side(s, !b);
  }
}
