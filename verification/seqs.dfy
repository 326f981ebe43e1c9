/** List idioms of the service: `list(dict.fromkeys(xs))` (order-keeping
    de-duplication) and the prefix slice `xs[:n]`. */
module Seqs {

  predicate NoDups<T(==)>(s: seq<T>) {
    forall i, j :: 0 <= i < j < |s| ==> s[i] != s[j]
  }

  /** The index of the first occurrence of `x` in `s`. */
  function FirstIndex<T(==)>(s: seq<T>, x: T): (k: nat)
    requires x in s
    ensures k < |s| && s[k] == x
    ensures forall i :: 0 <= i < k ==> s[i] != x
  {
    if s[0] == x then 0 else 1 + FirstIndex(s[1..], x)
  }

  // Appending an element does not move the first occurrence of an element already present.
  lemma FirstIndexAppend<T>(s: seq<T>, y: T, x: T)
    requires x in s
    ensures FirstIndex(s + [y], x) == FirstIndex(s, x)
  {
    var k := FirstIndex(s, x);
    var t := s + [y];
    assert t[k] == x;
    assert forall i :: 0 <= i < k ==> t[i] == s[i];
    var k' := FirstIndex(t, x);
    assert k' <= k;
  }

  /** Each element of `r` occurs in `s`, and the elements of `r` appear in the
      order of their first occurrence in `s`. */
  predicate FirstOccurrenceOrder<T(==)>(r: seq<T>, s: seq<T>) {
    && (forall i :: 0 <= i < |r| ==> r[i] in s)
    && (forall i, j :: 0 <= i < j < |r| ==> FirstIndex(s, r[i]) < FirstIndex(s, r[j]))
  }

  /** `list(dict.fromkeys(s))`: walk `s` left to right and keep each value the first time it is seen. */
  function Dedupe<T(==)>(s: seq<T>): (r: seq<T>)
    ensures NoDups(r)
    ensures forall i :: 0 <= i < |s| ==> s[i] in r
    ensures |r| <= |s|
    ensures FirstOccurrenceOrder(r, s)
  {
    if |s| == 0 then []
    else
      var init := s[..|s| - 1];
      var y := s[|s| - 1];
      var d := Dedupe(init);
      assert s == init + [y];
      DedupeStep(d, init, y);
      if y in d then d else d + [y]
  }

  /** One step of the walk: the value at the end is kept only if it is new, and the order of
      first occurrences is kept either way. */
  lemma DedupeStep<T>(d: seq<T>, init: seq<T>, y: T)
    requires FirstOccurrenceOrder(d, init) && NoDups(d)
    requires forall i :: 0 <= i < |init| ==> init[i] in d
    ensures y in d ==> FirstOccurrenceOrder(d, init + [y])
    ensures y !in d ==> FirstOccurrenceOrder(d + [y], init + [y]) && NoDups(d + [y])
  {
    var s := init + [y];
    forall x | x in d ensures FirstIndex(s, x) == FirstIndex(init, x) < |init| {
      FirstIndexAppend(init, y, x);
    }
    if y !in d {
      assert forall i :: 0 <= i < |init| ==> s[i] != y;
      assert FirstIndex(s, y) == |init|;
    }
  }

  /** De-duplicating a list that has no duplicates changes nothing. */
  lemma {:induction false} DedupeOfNoDups<T>(s: seq<T>)
    requires NoDups(s)
    ensures Dedupe(s) == s
  {
    if |s| > 0 {
      var init := s[..|s| - 1];
      var y := s[|s| - 1];
      assert NoDups(init);
      DedupeOfNoDups(init);
      assert y !in Dedupe(init) by {
        forall i | 0 <= i < |init| ensures init[i] != y {
          assert init[i] == s[i];
        }
      }
      assert Dedupe(s) == Dedupe(init) + [y];
      assert s == init + [y];
    }
  }

  /** `s[:n]` for a non-negative `n`. */
  function Take<T>(s: seq<T>, n: nat): (r: seq<T>)
    ensures |r| <= n && |r| <= |s|
    ensures |r| == if n < |s| then n else |s|
    ensures r == s[..|r|]
  {
    if n < |s| then s[..n] else s
  }

  /** `s[:n]` for any integer `n`: a negative bound counts from the end. */
  function PyPrefix<T>(s: seq<T>, n: int): (r: seq<T>)
    ensures |r| <= |s| && r == s[..|r|]
    ensures n >= 0 ==> |r| == if n < |s| then n else |s|
    ensures n < 0 ==> |r| == if |s| + n < 0 then 0 else |s| + n
  {
    if n >= 0 then Take(s, n)
    else if |s| + n < 0 then []
    else s[..|s| + n]
  }

  /** A prefix of a list without duplicates in first-occurrence order is one too. */
  lemma TakeKeepsOrder<T>(d: seq<T>, s: seq<T>, n: nat)
    requires NoDups(d) && FirstOccurrenceOrder(d, s)
    ensures NoDups(Take(d, n)) && FirstOccurrenceOrder(Take(d, n), s)
  {
    var r := Take(d, n);
    assert forall i :: 0 <= i < |r| ==> r[i] == d[i];
  }

  // A prefix of a list without duplicates has none.
  lemma TakeNoDups<T>(s: seq<T>, n: nat)
    requires NoDups(s)
    ensures NoDups(Take(s, n))
  {
  }

  // Cutting twice to the same length cuts once.
  lemma TakeTake<T>(s: seq<T>, n: nat)
    ensures Take(Take(s, n), n) == Take(s, n)
  {
  }

  /** The elements of `s` that belong to `keep`, in order. */
  function FilterIn<T(==)>(s: seq<T>, keep: set<T>): (r: seq<T>)
    ensures forall i :: 0 <= i < |r| ==> r[i] in s && r[i] in keep
    ensures forall i :: 0 <= i < |s| && s[i] in keep ==> s[i] in r
    ensures |r| <= |s|
  {
    if s == [] then []
    else (if s[0] in keep then [s[0]] else []) + FilterIn(s[1..], keep)
  }

  // Filtering distributes over concatenation.
  lemma {:induction false} FilterInAppend<T>(a: seq<T>, b: seq<T>, keep: set<T>)
    ensures FilterIn(a + b, keep) == FilterIn(a, keep) + FilterIn(b, keep)
    decreases |a|
  {
    if a == [] {
      assert a + b == b;
    } else {
      assert (a + b)[1..] == a[1..] + b;
      FilterInAppend(a[1..], b, keep);
    }
  }
}
