/** A Python `dict` as the list of its items in insertion order. Assigning to an
    existing key keeps its position and replaces its value; a new key is appended.
    `dict(pairs)` and dict comprehensions are left-to-right folds of that assignment. */
module OrderedDict {
  import opened Outcomes
  import opened Seqs

  type Dict<K, V> = seq<(K, V)>

  function Keys<K, V>(d: Dict<K, V>): (ks: seq<K>)
    ensures |ks| == |d|
    ensures forall i :: 0 <= i < |d| ==> ks[i] == d[i].0
  {
    if d == [] then [] else [d[0].0] + Keys(d[1..])
  }

  predicate KeysDistinct<K(==), V>(d: Dict<K, V>) {
    NoDups(Keys(d))
  }

  /** `d.get(k)`. */
  function Get<K(==), V>(d: Dict<K, V>, k: K): (r: Option<V>)
    ensures r.Some? <==> k in Keys(d)
    ensures r.Some? ==> (k, r.value) in d
  {
    if d == [] then None
    else if d[0].0 == k then Some(d[0].1)
    else
      assert Keys(d) == [d[0].0] + Keys(d[1..]);
      Get(d[1..], k)
  }

  /** With distinct keys, looking up the key of any item finds that item's value. */
  lemma {:induction false} GetItem<K, V>(d: Dict<K, V>, i: nat)
    requires KeysDistinct(d) && i < |d|
    ensures Get(d, d[i].0) == Some(d[i].1)
  {
    assert Keys(d)[i] == d[i].0;
    if i > 0 {
      assert Keys(d) == [d[0].0] + Keys(d[1..]);
      assert KeysDistinct(d[1..]);
      assert d[1..][i - 1] == d[i];
      GetItem(d[1..], i - 1);
    }
  }

  /** `d[k] = v`. */
  function Set<K(==), V>(d: Dict<K, V>, k: K, v: V): (r: Dict<K, V>)
    ensures Get(r, k) == Some(v)
    ensures k in Keys(d) ==> Keys(r) == Keys(d)
    ensures k !in Keys(d) ==> Keys(r) == Keys(d) + [k]
  {
    if d == [] then [(k, v)]
    else if d[0].0 == k then
      KeysHead(d);
      KeysCons((k, v), d[1..]);
      GetCons((k, v), d[1..], k);
      [(k, v)] + d[1..]
    else
      var rest := Set(d[1..], k, v);
      KeysHead(d);
      KeysCons(d[0], rest);
      GetCons(d[0], rest, k);
      [d[0]] + rest
  }

  // The keys of a non-empty dictionary: the first key, then the keys of the rest.
  lemma KeysHead<K, V>(d: Dict<K, V>)
    requires d != []
    ensures Keys(d) == [d[0].0] + Keys(d[1..])
  {
  }

  // The keys after putting one pair in front.
  lemma KeysCons<K, V>(x: (K, V), d: Dict<K, V>)
    ensures Keys([x] + d) == [x.0] + Keys(d)
  {
    assert ([x] + d)[1..] == d;
  }

  // Looking a key up after putting one pair in front.
  lemma GetCons<K, V>(x: (K, V), d: Dict<K, V>, k: K)
    ensures Get([x] + d, k) == if x.0 == k then Some(x.1) else Get(d, k)
  {
    assert ([x] + d)[0] == x;
    assert ([x] + d)[1..] == d;
  }

  /** Assigning one key leaves every other key's value as it was. */
  lemma {:induction false} SetOther<K, V>(d: Dict<K, V>, k: K, v: V, other: K)
    requires other != k
    ensures Get(Set(d, k, v), other) == Get(d, other)
  {
    if d != [] && d[0].0 != k {
      SetOther(d[1..], k, v, other);
    }
  }

  /** Assignment never introduces a duplicate key. */
  lemma SetKeepsDistinct<K, V>(d: Dict<K, V>, k: K, v: V)
    requires KeysDistinct(d)
    ensures KeysDistinct(Set(d, k, v))
  {
    if k !in Keys(d) {
      var ks := Keys(d) + [k];
      forall i, j | 0 <= i < j < |ks| ensures ks[i] != ks[j] {
        if j == |ks| - 1 {
          assert ks[i] in Keys(d);
        }
      }
    }
  }

  /** The value paired with `k` last in `ps`, if any. */
  function LastValue<K(==), V>(ps: seq<(K, V)>, k: K): (r: Option<V>)
    ensures r.Some? ==> (k, r.value) in ps
  {
    if ps == [] then None
    else if ps[|ps| - 1].0 == k then Some(ps[|ps| - 1].1)
    else LastValue(ps[..|ps| - 1], k)
  }

  /** `dict(ps)`: the later of two pairs with the same key wins, but the key keeps the
      position of its first occurrence. */
  function FromPairs<K(==), V>(ps: seq<(K, V)>): (r: Dict<K, V>)
    ensures KeysDistinct(r)
    ensures Keys(r) == Dedupe(Keys(ps))
  {
    if ps == [] then []
    else
      var init := ps[..|ps| - 1];
      assert Keys(ps) == Keys(init) + [ps[|ps| - 1].0];
      SetKeepsDistinct(FromPairs(init), ps[|ps| - 1].0, ps[|ps| - 1].1);
      Set(FromPairs(init), ps[|ps| - 1].0, ps[|ps| - 1].1)
  }

  /** Looking a key up in `dict(ps)` finds the value of its last pair. */
  lemma {:induction false} FromPairsGet<K, V>(ps: seq<(K, V)>, k: K)
    ensures Get(FromPairs(ps), k) == LastValue(ps, k)
  {
    if ps != [] {
      var init := ps[..|ps| - 1];
      FromPairsGet(init, k);
      if ps[|ps| - 1].0 != k {
        SetOther(FromPairs(init), ps[|ps| - 1].0, ps[|ps| - 1].1, k);
      }
    }
  }

  /** A key that occurs in `ps` has a last value. */
  lemma {:induction false} LastValueFound<K, V>(ps: seq<(K, V)>, i: nat)
    requires i < |ps|
    ensures LastValue(ps, ps[i].0).Some?
  {
    if i < |ps| - 1 && ps[|ps| - 1].0 != ps[i].0 {
      LastValueFound(ps[..|ps| - 1], i);
    }
  }

  /** Rebuilding a dict from its own items gives it back unchanged. */
  lemma {:induction false} FromPairsOfDistinct<K, V>(d: Dict<K, V>)
    requires KeysDistinct(d)
    ensures FromPairs(d) == d
  {
    if d != [] {
      var init := d[..|d| - 1];
      var last := d[|d| - 1];
      assert d == init + [last];
      assert Keys(init) == Keys(d)[..|d| - 1];
      assert KeysDistinct(init);
      FromPairsOfDistinct(init);
      assert last.0 !in Keys(init);
      assert FromPairs(d) == Set(FromPairs(init), last.0, last.1);
      SetAppends(init, last.0, last.1);
    }
  }

  // Setting a new key appends the pair at the end.
  lemma {:induction false} SetAppends<K, V>(d: Dict<K, V>, k: K, v: V)
    requires k !in Keys(d)
    ensures Set(d, k, v) == d + [(k, v)]
  {
    if d != [] {
      assert Keys(d)[0] == d[0].0;
      assert d[0].0 != k;
      assert Keys(d[1..]) == Keys(d)[1..];
      assert k !in Keys(d[1..]);
      SetAppends(d[1..], k, v);
      assert Set(d, k, v) == [d[0]] + Set(d[1..], k, v);
      assert [d[0]] + (d[1..] + [(k, v)]) == d + [(k, v)];
    }
  }

  /** With distinct keys no item occurs twice. */
  lemma {:induction false} DistinctItemsOnce<K, V>(d: Dict<K, V>, x: (K, V))
    requires KeysDistinct(d)
    ensures multiset(d)[x] <= 1
  {
    if d != [] {
      assert d == [d[0]] + d[1..];
      assert Keys(d[1..]) == Keys(d)[1..];
      assert KeysDistinct(d[1..]);
      DistinctItemsOnce(d[1..], x);
      forall j | 0 <= j < |d[1..]| ensures d[1..][j] != d[0] {
        assert Keys(d)[j + 1] != Keys(d)[0];
      }
    }
  }

  /** An item at two positions occurs twice. */
  lemma TwiceCounted<T>(s: seq<T>, i: nat, j: nat)
    requires i < j < |s| && s[i] == s[j]
    ensures multiset(s)[s[i]] >= 2
  {
    assert s == s[..j] + s[j..];
    assert s[i] in s[..j];
    assert s[j..][0] == s[j];
  }

  /** Reordering the items of a dict with distinct keys keeps the keys distinct. */
  lemma PermutedKeepsDistinct<K, V>(a: Dict<K, V>, b: Dict<K, V>)
    requires KeysDistinct(a) && multiset(a) == multiset(b)
    ensures KeysDistinct(b)
  {
    forall i, j | 0 <= i < j < |b| ensures Keys(b)[i] != Keys(b)[j] {
      assert b[i] in multiset(a) && b[j] in multiset(a);
      var p :| 0 <= p < |a| && a[p] == b[i];
      var q :| 0 <= q < |a| && a[q] == b[j];
      if p == q {
        TwiceCounted(b, i, j);
        DistinctItemsOnce(a, b[i]);
      }
    }
  }

  /** Reordering the items of a dict with distinct keys changes no lookup. */
  lemma PermutedGet<K, V>(a: Dict<K, V>, b: Dict<K, V>, k: K)
    requires KeysDistinct(a) && multiset(a) == multiset(b)
    ensures Get(a, k) == Get(b, k)
  {
    PermutedKeys(a, b, k);
    if Get(b, k).Some? {
      assert (k, Get(b, k).value) in multiset(a);
      var p :| 0 <= p < |a| && a[p] == (k, Get(b, k).value);
      GetItem(a, p);
    }
  }

  /** Reordering the items keeps the set of keys. */
  lemma PermutedKeys<K, V>(a: Dict<K, V>, b: Dict<K, V>, k: K)
    requires multiset(a) == multiset(b)
    ensures k in Keys(a) <==> k in Keys(b)
  {
    if k in Keys(a) {
      var p :| 0 <= p < |a| && Keys(a)[p] == k;
      assert a[p] in multiset(b);
      var q :| 0 <= q < |b| && b[q] == a[p];
      assert Keys(b)[q] == k;
    }
    if k in Keys(b) {
      var p :| 0 <= p < |b| && Keys(b)[p] == k;
      assert b[p] in multiset(a);
      var q :| 0 <= q < |a| && a[q] == b[p];
      assert Keys(a)[q] == k;
    }
  }

  /** The items of `d` with key and value exchanged. */
  function Swapped<K, V>(d: Dict<K, V>): (r: seq<(V, K)>)
    ensures |r| == |d|
    ensures forall i :: 0 <= i < |d| ==> r[i] == (d[i].1, d[i].0)
  {
    if d == [] then [] else [(d[0].1, d[0].0)] + Swapped(d[1..])
  }

  /** `{v: k for k, v in d.items()}`. */
  function Invert<K(==), V(==)>(d: Dict<K, V>): Dict<V, K>
  {
    FromPairs(Swapped(d))
  }

  /** Looking a value up in the inverted dict finds the key of its last item. */
  lemma InvertGet<K, V>(d: Dict<K, V>, v: V)
    ensures Get(Invert(d), v) == LastValue(Swapped(d), v)
  {
    FromPairsGet(Swapped(d), v);
  }

  /** A swapped pair is the swap of an item of `d`. */
  lemma SwappedItem<K, V>(d: Dict<K, V>, v: V, k: K) returns (i: nat)
    requires (v, k) in Swapped(d)
    ensures i < |d| && d[i] == (k, v)
  {
    var swapped := Swapped(d);
    i :| 0 <= i < |swapped| && swapped[i] == (v, k);
  }

  /** Every pair of the inverted dict comes from a pair of the original dict. */
  lemma InvertSound<K, V>(d: Dict<K, V>, v: V, k: K)
    requires KeysDistinct(d)
    requires Get(Invert(d), v) == Some(k)
    ensures Get(d, k) == Some(v)
  {
    InvertGet(d, v);
    var i := SwappedItem(d, v, k);
    GetItem(d, i);
  }

  /** Every value of the original dict is a key of the inverted dict. */
  lemma InvertComplete<K, V>(d: Dict<K, V>, i: nat)
    requires i < |d|
    ensures Get(Invert(d), d[i].1).Some?
  {
    var swapped := Swapped(d);
    FromPairsGet(swapped, d[i].1);
    LastValueFound(swapped, i);
  }
}
