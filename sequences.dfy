/** Positions and counts of elements in a sequence, read from its end as the folds do. */
module Sequences {

  /** The position of the first occurrence of `x` in `s`. */
  function FirstIndex<T(==)>(s: seq<T>, x: T): (i: nat)
    requires x in s
    ensures i < |s| && s[i] == x && x !in s[..i]
  {
    var n := |s| - 1;
    if x in s[..n] then
      var i := FirstIndex(s[..n], x);
      assert s[..i] == s[..n][..i];
      i
    else n
  }

  /** The position of the last occurrence of `x` in `s`. */
  function LastIndex<T(==)>(s: seq<T>, x: T): (i: nat)
    requires x in s
    ensures i < |s| && s[i] == x && x !in s[i + 1..]
  {
    var n := |s| - 1;
    if s[n] == x then n
    else
      var i := LastIndex(s[..n], x);
      assert s[i + 1..] == s[..n][i + 1..] + [s[n]];
      i
  }

  /** The number of occurrences of `x` in `s`. */
  function Count<T(==)>(s: seq<T>, x: T): (n: nat)
    ensures n <= |s|
    ensures n == 0 <==> x !in s
  {
    if s == [] then 0
    else
      var m := |s| - 1;
      assert s == s[..m] + [s[m]];
      Count(s[..m], x) + (if s[m] == x then 1 else 0)
  }

  function Sum(s: seq<nat>): nat
  {
    if s == [] then 0 else Sum(s[..|s| - 1]) + s[|s| - 1]
  }

  ghost predicate NoDuplicates<T>(s: seq<T>)
  {
    forall i, j :: 0 <= i < j < |s| ==> s[i] != s[j]
  }

  /**
   * `keys` holds each distinct element of `s` exactly once, listed in the
   * order in which the elements first occur in `s`.
   */
  ghost predicate FirstOccurrenceOrder<T>(keys: seq<T>, s: seq<T>)
  {
    && NoDuplicates(keys)
    && (forall i :: 0 <= i < |keys| ==> keys[i] in s)
    && (forall i :: 0 <= i < |s| ==> s[i] in keys)
    && (forall i, j :: 0 <= i < j < |keys| ==> FirstIndex(s, keys[i]) < FirstIndex(s, keys[j]))
  }

  lemma FirstIndexAppend<T>(s: seq<T>, y: T, x: T)
    requires x in s
    ensures FirstIndex(s + [y], x) == FirstIndex(s, x)
  {
    assert (s + [y])[..|s|] == s;
  }

  lemma FirstIndexAppendNew<T>(s: seq<T>, x: T)
    requires x !in s
    ensures FirstIndex(s + [x], x) == |s|
  {
    var s' := s + [x];
    assert s'[..|s'| - 1] == s;
    assert x !in s'[..|s'| - 1];
  }

  lemma LastIndexAppend<T>(s: seq<T>, y: T, x: T)
    requires x in s && x != y
    ensures LastIndex(s + [y], x) == LastIndex(s, x)
  {
    assert (s + [y])[..|s|] == s;
  }

  lemma CountAppend<T>(s: seq<T>, y: T, x: T)
    ensures Count(s + [y], x) == Count(s, x) + (if x == y then 1 else 0)
  {
    assert (s + [y])[..|s|] == s;
  }

  lemma SumAppend(s: seq<nat>, v: nat)
    ensures Sum(s + [v]) == Sum(s) + v
  {
    assert (s + [v])[..|s|] == s;
  }

  /** Adding `d` at one position adds `d` to the sum. */
  lemma {:induction false} SumUpdate(s: seq<nat>, p: nat, v: nat)
    requires p < |s| && s[p] <= v
    ensures Sum(s[p := v]) == Sum(s) + (v - s[p])
  {
    var n := |s| - 1;
    if p == n {
      assert s[p := v][..n] == s[..n];
    } else {
      SumUpdate(s[..n], p, v);
      assert s[p := v][..n] == s[..n][p := v];
    }
  }

  /** Appending an element not yet listed keeps the first-occurrence order. */
  lemma FirstOccurrenceOrderAppendNew<T>(keys: seq<T>, s: seq<T>, x: T)
    requires FirstOccurrenceOrder(keys, s) && x !in s
    ensures FirstOccurrenceOrder(keys + [x], s + [x])
  {
    var keys', s' := keys + [x], s + [x];
    forall k | k in s ensures FirstIndex(s', k) == FirstIndex(s, k) {
      FirstIndexAppend(s, x, k);
    }
    FirstIndexAppendNew(s, x);
    forall i, j | 0 <= i < j < |keys'|
      ensures FirstIndex(s', keys'[i]) < FirstIndex(s', keys'[j])
    {
      assert keys'[i] == keys[i];
      if j < |keys| {
        assert keys'[j] == keys[j];
      }
    }
  }

  /** Seeing an element again changes no first occurrence. */
  lemma FirstOccurrenceOrderAppendSeen<T>(keys: seq<T>, s: seq<T>, x: T)
    requires FirstOccurrenceOrder(keys, s) && x in s
    ensures FirstOccurrenceOrder(keys, s + [x])
  {
    var s' := s + [x];
    forall k | k in s ensures FirstIndex(s', k) == FirstIndex(s, k) {
      FirstIndexAppend(s, x, k);
    }
  }
}
