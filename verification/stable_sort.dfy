/** Python's `sorted(xs, key=...)`: a stable sort, ascending by a real-valued key.
    `sorted(xs, key=k, reverse=True)` is also stable (equal keys keep their input
    order), so it is the ascending sort by the negated key. */
module StableSort {

  predicate SortedBy<T>(s: seq<T>, key: T -> real) {
    forall i, j :: 0 <= i < j < |s| ==> key(s[i]) <= key(s[j])
  }

  /** The elements of `s` whose key is `v`, in order. */
  function KeyFilter<T>(s: seq<T>, key: T -> real, v: real): (r: seq<T>)
    ensures |r| <= |s|
  {
    if s == [] then []
    else (if key(s[0]) == v then [s[0]] else []) + KeyFilter(s[1..], key, v)
  }

  // Selecting one key distributes over concatenation.
  lemma {:induction false} KeyFilterAppend<T>(a: seq<T>, b: seq<T>, key: T -> real, v: real)
    ensures KeyFilter(a + b, key, v) == KeyFilter(a, key, v) + KeyFilter(b, key, v)
    decreases |a|
  {
    if a == [] {
      assert a + b == b;
    } else {
      var ab := a + b;
      assert ab[0] == a[0];
      assert ab[1..] == a[1..] + b;
      KeyFilterAppend(a[1..], b, key, v);
      var h := if key(a[0]) == v then [a[0]] else [];
      assert KeyFilter(ab, key, v) == h + KeyFilter(ab[1..], key, v);
      assert KeyFilter(a, key, v) == h + KeyFilter(a[1..], key, v);
    }
  }

  // Selecting a key no element has gives nothing.
  lemma {:induction false} KeyFilterNone<T>(s: seq<T>, key: T -> real, v: real)
    requires forall i :: 0 <= i < |s| ==> key(s[i]) != v
    ensures KeyFilter(s, key, v) == []
  {
    if s != [] {
      KeyFilterNone(s[1..], key, v);
    }
  }

  /** Insert `x` into the sorted `s` after every element whose key is not greater. */
  function Insert<T(==)>(x: T, s: seq<T>, key: T -> real): (r: seq<T>)
    requires SortedBy(s, key)
    ensures |r| == |s| + 1
    ensures multiset(r) == multiset(s) + multiset{x}
    ensures SortedBy(r, key)
    ensures r[0] == x || (|s| > 0 && r[0] == s[0])
  {
    if s == [] then [x]
    else if key(x) < key(s[0]) then [x] + s
    else
      var rest := Insert(x, s[1..], key);
      assert key(s[0]) <= key(rest[0]);
      ConsSorted(s[0], rest, key);
      MultisetHead(s);
      [s[0]] + rest
  }

  // A sorted list stays sorted with a smaller-keyed element in front.
  lemma ConsSorted<T>(a: T, s: seq<T>, key: T -> real)
    requires SortedBy(s, key) && s != [] && key(a) <= key(s[0])
    ensures SortedBy([a] + s, key)
  {
    var r := [a] + s;
    assert forall j :: 0 < j < |r| ==> r[j] == s[j - 1];
  }

  // The multiset of a non-empty list: its head and the multiset of its tail.
  lemma MultisetHead<T>(s: seq<T>)
    requires s != []
    ensures multiset(s) == multiset{s[0]} + multiset(s[1..])
  {
    assert s == [s[0]] + s[1..];
  }

  // Selecting a key from a list with one element put in front.
  lemma KeyFilterCons<T>(x: T, s: seq<T>, key: T -> real, v: real)
    ensures KeyFilter([x] + s, key, v) == (if key(x) == v then [x] else []) + KeyFilter(s, key, v)
  {
    assert ([x] + s)[0] == x;
    assert ([x] + s)[1..] == s;
  }

  /** Insertion of `x` adds it to the end of its key group and leaves every other group alone. */
  lemma {:induction false} InsertKeyFilter<T>(x: T, s: seq<T>, key: T -> real, v: real)
    requires SortedBy(s, key)
    ensures KeyFilter(Insert(x, s, key), key, v)
         == KeyFilter(s, key, v) + (if key(x) == v then [x] else [])
  {
    if s == [] {
      KeyFilterCons(x, [], key, v);
      assert [x] + [] == [x];
    } else if key(x) < key(s[0]) {
      InsertKeyFilterFront(x, s, key, v);
    } else {
      InsertKeyFilter(x, s[1..], key, v);
      InsertKeyFilterStep(x, s, key, v);
    }
  }

  // Inserting in front of every element keeps the selected elements of each key in order, the new one last.
  lemma InsertKeyFilterFront<T>(x: T, s: seq<T>, key: T -> real, v: real)
    requires SortedBy(s, key) && s != [] && key(x) < key(s[0])
    ensures KeyFilter(Insert(x, s, key), key, v)
         == KeyFilter(s, key, v) + (if key(x) == v then [x] else [])
  {
    assert Insert(x, s, key) == [x] + s;
    KeyFilterCons(x, s, key, v);
    if key(x) == v {
      assert forall i :: 0 <= i < |s| ==> key(s[0]) <= key(s[i]);
      KeyFilterNone(s, key, v);
      assert KeyFilter(s, key, v) + [x] == [x] + KeyFilter(s, key, v);
    } else {
      assert [] + KeyFilter(s, key, v) == KeyFilter(s, key, v) + [];
    }
  }

  // Inserting past the head: one step of the order-keeping argument.
  lemma InsertKeyFilterStep<T>(x: T, s: seq<T>, key: T -> real, v: real)
    requires SortedBy(s, key) && s != [] && key(s[0]) <= key(x)
    requires KeyFilter(Insert(x, s[1..], key), key, v)
          == KeyFilter(s[1..], key, v) + (if key(x) == v then [x] else [])
    ensures KeyFilter(Insert(x, s, key), key, v)
         == KeyFilter(s, key, v) + (if key(x) == v then [x] else [])
  {
    var rest := Insert(x, s[1..], key);
    var h := if key(s[0]) == v then [s[0]] else [];
    var t := if key(x) == v then [x] else [];
    InsertSkips(x, s, key);
    KeyFilterCons(s[0], rest, key, v);
    KeyFilterHead(s, key, v);
    AppendAssoc(h, KeyFilter(s[1..], key, v), t);
  }

  // Selecting a key from a non-empty list: its head when the key matches, then the rest.
  lemma KeyFilterHead<T>(s: seq<T>, key: T -> real, v: real)
    requires s != []
    ensures KeyFilter(s, key, v) == (if key(s[0]) == v then [s[0]] else []) + KeyFilter(s[1..], key, v)
  {
  }

  // An element whose key is not smaller than the head is inserted into the tail.
  lemma InsertSkips<T>(x: T, s: seq<T>, key: T -> real)
    requires SortedBy(s, key) && s != [] && key(s[0]) <= key(x)
    ensures Insert(x, s, key) == [s[0]] + Insert(x, s[1..], key)
  {
  }

  // Concatenation is associative.
  lemma AppendAssoc<T>(a: seq<T>, b: seq<T>, c: seq<T>)
    ensures a + (b + c) == (a + b) + c
  {
  }

  /** Insertion sort that inserts later elements after earlier ones with equal keys. */
  function SortBy<T(==)>(s: seq<T>, key: T -> real): (r: seq<T>)
    ensures |r| == |s|
    ensures multiset(r) == multiset(s)
    ensures SortedBy(r, key)
  {
    if s == [] then []
    else
      assert s == s[..|s| - 1] + [s[|s| - 1]];
      Insert(s[|s| - 1], SortBy(s[..|s| - 1], key), key)
  }

  /** Stability: for every key value, the elements with that key appear in the output
      in the same order as in the input. */
  lemma {:induction false} SortByStable<T>(s: seq<T>, key: T -> real, v: real)
    ensures KeyFilter(SortBy(s, key), key, v) == KeyFilter(s, key, v)
  {
    if s != [] {
      var init := s[..|s| - 1];
      var last := s[|s| - 1];
      SortByStable(init, key, v);
      assert SortBy(s, key) == Insert(last, SortBy(init, key), key);
      InsertKeyFilter(last, SortBy(init, key), key, v);
      assert s == init + [last];
      KeyFilterAppend(init, [last], key, v);
      assert KeyFilter([last], key, v) == if key(last) == v then [last] else [];
    }
  }

  /** Sorting invents nothing: every element of the output is an element of the input. */
  lemma SortByMembers<T>(s: seq<T>, key: T -> real)
    ensures forall k :: 0 <= k < |SortBy(s, key)| ==> SortBy(s, key)[k] in s
  {
    var r := SortBy(s, key);
    forall k | 0 <= k < |r| ensures r[k] in s {
      assert r[k] in multiset(r);
    }
  }

  /** The first `n` elements of the sorted list hold the `n` smallest keys: an input
      element can be left out of that prefix only when it is shorter than the list, and
      then its key is no smaller than every key kept. */
  lemma SortedPrefixIsLeast<T>(s: seq<T>, key: T -> real, n: nat, x: T)
    requires x in s
    requires x !in SortBy(s, key)[..if n < |s| then n else |s|]
    ensures n < |s|
    ensures forall j :: 0 <= j < n && j < |s| ==> key(SortBy(s, key)[j]) <= key(x)
  {
    var r := SortBy(s, key);
    var m := if n < |s| then n else |s|;
    var i := IndexIn(r, x, s);
    assert m <= i by {
      assert forall k :: 0 <= k < m ==> r[..m][k] == r[k];
    }
    forall j | 0 <= j < n && j < |s| ensures key(r[j]) <= key(x) {
      assert j < i;
    }
  }

  /** A position of `x` in a permutation of a sequence holding it. */
  lemma IndexIn<T>(r: seq<T>, x: T, s: seq<T>) returns (i: nat)
    requires x in s && multiset(r) == multiset(s)
    ensures i < |r| && r[i] == x
  {
    assert x in multiset(r);
    i :| 0 <= i < |r| && r[i] == x;
  }

  /** Cutting the sorted list keeps, among equal keys, a prefix of their input order. */
  lemma SortedPrefixKeepsTies<T>(s: seq<T>, key: T -> real, m: nat, v: real)
    requires m <= |s|
    ensures var all := KeyFilter(s, key, v);
            var kept := KeyFilter(SortBy(s, key)[..m], key, v);
            |kept| <= |all| && kept == all[..|kept|]
  {
    var sorted := SortBy(s, key);
    var top := sorted[..m];
    var after := sorted[m..];
    assert sorted == top + after;
    KeyFilterAppend(top, after, key, v);
    SortByStable(s, key, v);
    var all := KeyFilter(s, key, v);
    var kept := KeyFilter(top, key, v);
    assert all == kept + KeyFilter(after, key, v);
    assert all[..|kept|] == kept;
  }
}
