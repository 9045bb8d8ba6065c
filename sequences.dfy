/**
  Facts about finite sequences shared by both diagram encodings: erasing one element
  (vector::erase / list::erase), projecting every element (the labels or ids of a side),
  reversal (the right-hand stack of a pre-diagram, the mirror image of a cyclic diagram)
  and counting through multisets.
*/
module Sequences {

  /** q with the element at k erased; every other element keeps its relative order. */
  function Remove<T>(q: seq<T>, k: nat): (r: seq<T>)
    requires k < |q|
    ensures |r| == |q| - 1
  {
    q[..k] + q[k + 1..]
  }

  /** Erasing one element takes exactly one copy of it out of the multiset. */
  lemma RemoveMultiset<T>(q: seq<T>, k: nat)
    requires k < |q|
    ensures multiset(q) == multiset(Remove(q, k)) + multiset{q[k]}
  {
    assert q == q[..k] + [q[k]] + q[k + 1..];
  }

  /** The element-wise image of q under f. */
  function Map<T, U>(q: seq<T>, f: T -> U): (r: seq<U>)
    ensures |r| == |q|
    ensures forall i :: 0 <= i < |q| ==> r[i] == f(q[i])
  {
    seq(|q|, i requires 0 <= i < |q| => f(q[i]))
  }

  lemma MapRemove<T, U>(q: seq<T>, k: nat, f: T -> U)
    requires k < |q|
    ensures Map(Remove(q, k), f) == Remove(Map(q, f), k)
  {
  }

  /** Replacing an element by one with the same image leaves the image unchanged. */
  lemma MapUpdate<T, U>(q: seq<T>, k: nat, v: T, f: T -> U)
    requires k < |q| && f(v) == f(q[k])
    ensures Map(q[k := v], f) == Map(q, f)
  {
  }

  lemma MapPrefix<T, U>(q: seq<T>, m: nat, f: T -> U)
    requires m <= |q|
    ensures Map(q[..m], f) == Map(q, f)[..m]
  {
  }

  /** Erasing an element before position m commutes with cutting the sequence at m. */
  lemma RemovePrefix<T>(q: seq<T>, k: nat, m: nat)
    requires k < m <= |q|
    ensures Remove(q, k)[..m - 1] == Remove(q[..m], k)
  {
    assert Remove(q, k)[..m - 1] == q[..k] + q[k + 1..m];
    assert q[..m][..k] == q[..k] && q[..m][k + 1..] == q[k + 1..m];
  }

  /** Dropping the last element takes one copy of it out of the multiset. */
  lemma DropLastMultiset<T>(q: seq<T>)
    requires |q| > 0
    ensures multiset(q) == multiset(q[..|q| - 1]) + multiset{q[|q| - 1]}
  {
    assert q == q[..|q| - 1] + [q[|q| - 1]];
  }

  /** Erasing the element at k takes exactly one copy of its image out of the image. */
  lemma MapRemoveMultiset<T, U>(q: seq<T>, k: nat, rest: seq<T>, f: T -> U)
    requires k < |q| && rest == Remove(q, k)
    ensures multiset(Map(q, f)) == multiset(Map(rest, f)) + multiset{f(q[k])}
  {
    MapRemove(q, k, f);
    RemoveMultiset(Map(q, f), k);
  }

  /** Dropping the last element takes exactly one copy of its image out of the image. */
  lemma MapDropLastMultiset<T, U>(q: seq<T>, rest: seq<T>, f: T -> U)
    requires |q| > 0 && rest == q[..|q| - 1]
    ensures multiset(Map(q, f)) == multiset(Map(rest, f)) + multiset{f(q[|q| - 1])}
  {
    MapPrefix(q, |q| - 1, f);
    DropLastMultiset(Map(q, f));
  }

  /** Dropping the last element and then erasing the one at k. */
  lemma MapDropLastRemoveMultiset<T, U>(q: seq<T>, k: nat, rest: seq<T>, f: T -> U)
    requires k < |q| - 1 && rest == Remove(q[..|q| - 1], k)
    ensures multiset(Map(q, f)) == multiset(Map(rest, f)) + multiset{f(q[k]), f(q[|q| - 1])}
  {
    var dropped := q[..|q| - 1];
    MapDropLastMultiset(q, dropped, f);
    MapRemoveMultiset(dropped, k, rest, f);
    assert dropped[k] == q[k];
  }

  /** Cutting the adjacent pair at j - 1 and j commutes with taking images. */
  lemma MapCutPair<T, U>(q: seq<T>, j: nat, f: T -> U)
    requires 1 <= j < |q|
    ensures Map(q[..j - 1] + q[j + 1..], f) == Map(q, f)[..j - 1] + Map(q, f)[j + 1..]
  {
    var r := q[..j - 1] + q[j + 1..];
    forall i | 0 <= i < |r|
      ensures Map(r, f)[i] == (Map(q, f)[..j - 1] + Map(q, f)[j + 1..])[i]
    {
      if i < j - 1 {
        assert r[i] == q[i];
      } else {
        assert r[i] == q[i + 2];
      }
    }
  }

  /** Cutting the adjacent pair at i and i + 1 takes one copy of each out. */
  lemma CutPairMultiset<T>(q: seq<T>, i: nat)
    requires i + 1 < |q|
    ensures multiset(q) == multiset(q[..i] + q[i + 2..]) + multiset{q[i], q[i + 1]}
  {
    assert q == q[..i] + [q[i], q[i + 1]] + q[i + 2..];
  }

  /** Cutting the adjacent pair at j - 1 and j takes one copy of each image out. */
  lemma MapCutPairMultiset<T, U>(q: seq<T>, j: nat, rest: seq<T>, f: T -> U)
    requires 1 <= j < |q| && rest == q[..j - 1] + q[j + 1..]
    ensures multiset(Map(q, f)) == multiset(Map(rest, f)) + multiset{f(q[j - 1]), f(q[j])}
  {
    var m := Map(q, f);
    MapCutPair(q, j, f);
    assert m == m[..j - 1] + [m[j - 1], m[j]] + m[j + 1..];
  }

  /** Two different positions holding the same value count it at least twice. */
  lemma TwoPositions<T>(q: seq<T>, i: nat, j: nat)
    requires i < |q| && j < |q| && i != j
    ensures q[i] == q[j] ==> multiset(q)[q[i]] >= 2
  {
    RemoveMultiset(q, i);
    var r := Remove(q, i);
    var j' := if j < i then j else j - 1;
    assert r[j'] == q[j];
    assert q[j] in multiset(r);
  }

  /** q read back to front. */
  function Reverse<T>(q: seq<T>): (r: seq<T>)
    ensures |r| == |q|
    ensures forall i :: 0 <= i < |q| ==> r[i] == q[|q| - 1 - i]
  {
    seq(|q|, i requires 0 <= i < |q| => q[|q| - 1 - i])
  }

  lemma {:induction false} ReverseMultiset<T>(q: seq<T>)
    ensures multiset(Reverse(q)) == multiset(q)
    decreases |q|
  {
    if |q| > 0 {
      ReverseMultiset(q[1..]);
      assert Reverse(q) == Reverse(q[1..]) + [q[0]];
      assert q == [q[0]] + q[1..];
    }
  }

  lemma ReverseReverse<T>(q: seq<T>)
    ensures Reverse(Reverse(q)) == q
  {
  }

  /** Dropping the front of the reversal is reversing without the back. */
  lemma ReverseDropFirst<T>(q: seq<T>)
    requires |q| > 0
    ensures Reverse(q)[1..] == Reverse(q[..|q| - 1])
  {
    var a := Reverse(q)[1..];
    var b := Reverse(q[..|q| - 1]);
    assert |a| == |b|;
    forall t | 0 <= t < |a|
      ensures a[t] == b[t]
    {
      assert a[t] == Reverse(q)[t + 1];
    }
  }

  /** Updating the reversal at j is updating q at the mirrored position. */
  lemma ReverseUpdate<T>(q: seq<T>, j: nat, v: T)
    requires j < |q|
    ensures Reverse(q)[j := v] == Reverse(q[|q| - 1 - j := v])
  {
  }

  /** Erasing from the reversal at j is erasing from q at the mirrored position. */
  lemma ReverseRemove<T>(q: seq<T>, j: nat)
    requires j < |q|
    ensures Remove(Reverse(q), j) == Reverse(Remove(q, |q| - 1 - j))
  {
    var a := Remove(Reverse(q), j);
    var b := Reverse(Remove(q, |q| - 1 - j));
    forall t | 0 <= t < |a|
      ensures a[t] == b[t]
    {
      if t < j {
        assert a[t] == q[|q| - 1 - t];
      } else {
        assert a[t] == Reverse(q)[t + 1];
      }
    }
  }

  /** The position of the first occurrence of x (a forward find). */
  function FirstIndex<T(==)>(q: seq<T>, x: T): (i: nat)
    requires x in q
    ensures i < |q| && q[i] == x && x !in q[..i]
  {
    if q[0] == x then 0
    else
      var i := 1 + FirstIndex(q[1..], x);
      assert q[..i] == [q[0]] + q[1..][..i - 1];
      i
  }

  /** The position of the last occurrence of x (a find with reverse iterators). */
  function LastIndex<T(==)>(q: seq<T>, x: T): (i: nat)
    requires x in q
    ensures i < |q| && q[i] == x && x !in q[i + 1..]
  {
    if q[|q| - 1] == x then |q| - 1
    else
      var i := LastIndex(q[..|q| - 1], x);
      assert q[i + 1..] == q[..|q| - 1][i + 1..] + [q[|q| - 1]];
      i
  }

  /** The first occurrence is the occurrence with none before it. */
  lemma FirstIndexUnique<T>(q: seq<T>, x: T, i: nat)
    requires i < |q| && q[i] == x && x !in q[..i]
    ensures FirstIndex(q, x) == i
  {
  }

  /** The last occurrence is the occurrence with none after it. */
  lemma LastIndexUnique<T>(q: seq<T>, x: T, i: nat)
    requires i < |q| && q[i] == x && x !in q[i + 1..]
    ensures LastIndex(q, x) == i
  {
  }

  /** Searching the reversed sequence from the front is searching q from the back. */
  lemma FirstIndexReverse<T>(q: seq<T>, x: T)
    requires x in q
    ensures x in Reverse(q) && FirstIndex(Reverse(q), x) == |q| - 1 - LastIndex(q, x)
  {
    var l := LastIndex(q, x);
    var r := Reverse(q);
    var i := |q| - 1 - l;
    assert r[i] == x;
    FirstIndexUnique(r, x, i);
  }

  /** Three different positions holding the same value count it at least three times. */
  lemma ThreePositions<T>(q: seq<T>, i: nat, j: nat, k: nat)
    requires i < j < k < |q|
    ensures q[i] == q[j] == q[k] ==> multiset(q)[q[i]] >= 3
  {
    assert q == q[..k] + q[k..];
    assert q[..k][i] == q[i] && q[..k][j] == q[j];
    TwoPositions(q[..k], i, j);
    assert q[k..][0] == q[k];
  }
}
