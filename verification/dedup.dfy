/**
 * De-duplication in order of first occurrence: the reference definition
 * against which the seen-set loop of the report analysis is proved.
 */
module Dedup {

  /** No element occurs twice. */
  predicate NoDuplicates<T(==)>(s: seq<T>) {
    forall i, j :: 0 <= i < j < |s| ==> s[i] != s[j]
  }

  /** The elements of `s`, each kept at its first occurrence only. */
  function Distinct<T(==)>(s: seq<T>): (d: seq<T>)
    ensures forall i :: 0 <= i < |s| ==> s[i] in d
    ensures forall i :: 0 <= i < |d| ==> d[i] in s
    ensures NoDuplicates(d)
    ensures |d| <= |s|
    ensures |d| == 0 <==> |s| == 0
  {
    if s == [] then []
    else
      var p := s[..|s| - 1];
      var x := s[|s| - 1];
      assert s == p + [x];
      Distinct(p) + (if x in p then [] else [x])
  }

  /** Extending a prefix by one element keeps that element exactly when it is new. */
  lemma DistinctPrefixStep<T>(s: seq<T>, i: nat)
    requires i < |s|
    ensures Distinct(s[..i + 1]) == Distinct(s[..i]) + (if s[i] in s[..i] then [] else [s[i]])
  {
    assert s[..i + 1][..i] == s[..i];
  }

  /** The set of elements of `s`. */
  function Elements<T>(s: seq<T>): (e: set<T>)
    ensures forall i :: 0 <= i < |s| ==> s[i] in e
  {
    set x | x in s
  }

  /** A one-longer prefix adds exactly the new element to the set of elements. */
  lemma ElementsPrefixStep<T>(s: seq<T>, i: nat)
    requires i < |s|
    ensures Elements(s[..i + 1]) == Elements(s[..i]) + {s[i]}
    ensures s[i] in Elements(s[..i]) <==> s[i] in s[..i]
  {
    assert s[..i + 1] == s[..i] + [s[i]];
  }

  /**
   * One step of de-duplication with a seen-set: an element already seen
   * changes nothing, a new one is kept and becomes seen.
   */
  lemma SeenSetStep<T>(s: seq<T>, i: nat, kept: seq<T>, seen: set<T>)
    requires i < |s|
    requires kept == Distinct(s[..i]) && seen == Elements(s[..i])
    ensures s[i] in seen ==> kept == Distinct(s[..i + 1]) && seen == Elements(s[..i + 1])
    ensures s[i] !in seen ==> kept + [s[i]] == Distinct(s[..i + 1]) && seen + {s[i]} == Elements(s[..i + 1])
  {
    DistinctPrefixStep(s, i);
    ElementsPrefixStep(s, i);
  }

  /** The position of the first occurrence of `x` in `s`. */
  function FirstIndex<T(==)>(s: seq<T>, x: T): (k: nat)
    requires x in s
    ensures k < |s| && s[k] == x
    ensures forall j :: 0 <= j < k ==> s[j] != x
  {
    if s[0] == x then 0 else FirstIndex(s[1..], x) + 1
  }

  /** Appending to a sequence does not move the first occurrence of an element already present. */
  lemma FirstIndexAppend<T>(p: seq<T>, t: seq<T>, x: T)
    requires x in p
    ensures FirstIndex(p + t, x) == FirstIndex(p, x)
  {
    var a := FirstIndex(p, x);
    var b := FirstIndex(p + t, x);
    assert (p + t)[a] == x;
  }

  /** An element absent from `p` first occurs in `p + [x]` at the end. */
  lemma FirstIndexOfNew<T>(p: seq<T>, x: T)
    requires x !in p
    ensures FirstIndex(p + [x], x) == |p|
  {
    assert (p + [x])[|p|] == x;
  }

  /** The number of kept elements is the number of distinct elements. */
  lemma {:induction false} DistinctCardinality<T>(s: seq<T>)
    ensures |Distinct(s)| == |Elements(s)|
  {
    if s != [] {
      var p := s[..|s| - 1];
      var x := s[|s| - 1];
      assert s == p + [x];
      assert s[..|s|] == s;
      DistinctCardinality(p);
      ElementsPrefixStep(s, |s| - 1);
      assert Elements(s) == Elements(p) + {x};
      if x in p {
        assert Distinct(s) == Distinct(p);
        assert x in Elements(p);
        assert Elements(s) == Elements(p);
      } else {
        assert Distinct(s) == Distinct(p) + [x];
        assert x !in Elements(p);
      }
    }
  }

  /** Kept elements appear in the order of their first occurrences in `s`. */
  lemma {:induction false} DistinctKeepsFirstOccurrenceOrder<T>(s: seq<T>)
    ensures forall i, j :: 0 <= i < j < |Distinct(s)| ==>
      FirstIndex(s, Distinct(s)[i]) < FirstIndex(s, Distinct(s)[j])
  {
    if s != [] {
      var p := s[..|s| - 1];
      var x := s[|s| - 1];
      assert s == p + [x];
      var dp := Distinct(p);
      var d := Distinct(s);
      DistinctKeepsFirstOccurrenceOrder(p);
      forall i, j | 0 <= i < j < |d|
        ensures FirstIndex(s, d[i]) < FirstIndex(s, d[j])
      {
        assert d[i] == dp[i] && d[i] in p;
        FirstIndexAppend(p, [x], d[i]);
        if j < |dp| {
          assert d[j] == dp[j] && d[j] in p;
          FirstIndexAppend(p, [x], d[j]);
        } else {
          assert d[j] == x;
          FirstIndexOfNew(p, x);
        }
      }
    }
  }
}
