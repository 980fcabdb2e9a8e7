/** Order-preserving helpers over sequences. A Python dict filled from a
    sequence keeps its keys in first-seen order; `Distinct` is that order. */
module Sequences {

  /** No element occurs twice in `s`. */
  predicate NoDuplicates<T(==,!new)>(s: seq<T>)
  {
    forall i, j :: 0 <= i < j < |s| ==> s[i] != s[j]
  }

  /** The distinct elements of `xs`, each kept at the place it was first seen. */
  function Distinct<T(==,!new)>(xs: seq<T>): (d: seq<T>)
    ensures forall x :: x in d <==> x in xs
    ensures NoDuplicates(d)
    ensures |d| <= |xs|
  {
    if xs == [] then []
    else
      var init := Distinct(xs[..|xs| - 1]);
      assert xs == xs[..|xs| - 1] + [xs[|xs| - 1]];
      if xs[|xs| - 1] in init then init else init + [xs[|xs| - 1]]
  }

  /** The first element is always the first distinct one. */
  lemma {:induction false} DistinctHead<T(!new)>(xs: seq<T>)
    requires xs != []
    ensures Distinct(xs) != [] && Distinct(xs)[0] == xs[0]
  {
    var init := xs[..|xs| - 1];
    if init != [] {
      DistinctHead(init);
      assert init[0] == xs[0];
    }
  }

  /** The position of the first occurrence of `x` in `xs`. */
  function FirstIndex<T(==,!new)>(xs: seq<T>, x: T): (i: nat)
    requires x in xs
    ensures i < |xs| && xs[i] == x && x !in xs[..i]
  {
    if xs[0] == x then 0
    else
      var j := FirstIndex(xs[1..], x);
      assert xs[..j + 1] == [xs[0]] + xs[1..][..j];
      j + 1
  }

  /** Any position before which `x` does not occur is its first occurrence. */
  lemma FirstIndexUnique<T(!new)>(xs: seq<T>, x: T, i: nat)
    requires i < |xs| && xs[i] == x && x !in xs[..i]
    ensures FirstIndex(xs, x) == i
  {
    var j := FirstIndex(xs, x);
    assert forall k | 0 <= k < i :: xs[..i][k] == xs[k];
    assert forall k | 0 <= k < j :: xs[..j][k] == xs[k];
  }

  /** Extending a sequence does not move the first occurrence of an element
      that was already present. */
  lemma FirstIndexExtend<T(!new)>(xs: seq<T>, y: T, x: T)
    requires x in xs
    ensures x in xs + [y] && FirstIndex(xs + [y], x) == FirstIndex(xs, x)
  {
    var i := FirstIndex(xs, x);
    assert (xs + [y])[..i] == xs[..i];
    FirstIndexUnique(xs + [y], x, i);
  }

  /** `Distinct` lists the elements in the order of their first occurrences. */
  lemma {:induction false} DistinctFirstSeenOrder<T(!new)>(xs: seq<T>, i: nat, j: nat)
    requires i < j < |Distinct(xs)|
    ensures FirstIndex(xs, Distinct(xs)[i]) < FirstIndex(xs, Distinct(xs)[j])
  {
    var n := |xs|;
    var init := xs[..n - 1];
    var last := xs[n - 1];
    var d := Distinct(init);
    assert xs == init + [last];
    assert Distinct(xs)[i] == d[i];
    FirstIndexExtend(init, last, d[i]);
    if j < |d| {
      assert Distinct(xs)[j] == d[j];
      FirstIndexExtend(init, last, d[j]);
      DistinctFirstSeenOrder(init, i, j);
    } else {
      assert Distinct(xs)[j] == last && last !in init;
      assert xs[..n - 1] == init;
      FirstIndexUnique(xs, last, n - 1);
    }
  }

  /** `xs` has at least two distinct elements exactly when two of its
      positions hold different values. */
  lemma DistinctAtLeastTwo<T(!new)>(xs: seq<T>)
    ensures |Distinct(xs)| >= 2 <==> exists i, j :: 0 <= i < j < |xs| && xs[i] != xs[j]
  {
    var d := Distinct(xs);
    if |d| >= 2 {
      assert d[0] in xs && d[1] in xs && d[0] != d[1];
      var a, b := FirstIndex(xs, d[0]), FirstIndex(xs, d[1]);
      if a < b {
        assert xs[a] != xs[b];
      } else {
        assert xs[b] != xs[a];
      }
    }
    if exists i, j :: 0 <= i < j < |xs| && xs[i] != xs[j] {
      var i, j :| 0 <= i < j < |xs| && xs[i] != xs[j];
      assert xs[i] in d && xs[j] in d;
      var a :| 0 <= a < |d| && d[a] == xs[i];
      var b :| 0 <= b < |d| && d[b] == xs[j];
      assert a != b;
    }
  }
}
