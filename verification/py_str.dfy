/** The few `str` methods the service relies on, restricted to ASCII:
    `strip`, `lower`, `join`, `startswith`, `removeprefix` and single-character `replace`. */
module PyStr {
  import opened Outcomes

  /** Python truthiness of an optional string: present and not empty. */
  predicate NonEmpty(s: Option<string>) {
    s.Some? && s.value != ""
  }

  /** ASCII whitespace as `str.strip()` and the regular-expression class `\s` see it
      (tab, newline, vertical tab, form feed, carriage return, the four
      information separators and space). */
  predicate IsSpace(c: char) {
    (0x09 <= c as int <= 0x0D) || (0x1C <= c as int <= 0x20)
  }

  predicate IsUpper(c: char) {
    'A' <= c <= 'Z'
  }

  function LowerChar(c: char): (r: char)
    ensures !IsUpper(r)
    ensures !IsUpper(c) ==> r == c
    ensures IsSpace(r) <==> IsSpace(c)
  {
    if IsUpper(c) then (c as int + 32) as char else c
  }

  /** `s.lower()` on ASCII letters. */
  function Lower(s: string): (r: string)
    ensures |r| == |s|
    ensures forall i :: 0 <= i < |s| ==> r[i] == LowerChar(s[i])
  {
    seq(|s|, i requires 0 <= i < |s| => LowerChar(s[i]))
  }

  // Lower-casing distributes over concatenation.
  lemma LowerAppend(a: string, b: string)
    ensures Lower(a + b) == Lower(a) + Lower(b)
  {
    var l := Lower(a + b);
    var r := Lower(a) + Lower(b);
    forall i | 0 <= i < |l| ensures l[i] == r[i] {
      if i < |a| {
        assert (a + b)[i] == a[i];
      } else {
        assert (a + b)[i] == b[i - |a|];
      }
    }
  }

  // Lower-casing twice is lower-casing once.
  lemma LowerIdempotent(s: string)
    ensures Lower(Lower(s)) == Lower(s)
  {
  }

  /** The end of the run of whitespace that starts at `k`. */
  function SkipSpace(s: string, k: nat): (r: nat)
    requires k <= |s|
    ensures k <= r <= |s|
    ensures forall j :: k <= j < r ==> IsSpace(s[j])
    ensures r < |s| ==> !IsSpace(s[r])
    decreases |s| - k
  {
    if k < |s| && IsSpace(s[k]) then SkipSpace(s, k + 1) else k
  }

  /** The start of the run of whitespace that ends at `k`, going no lower than `lo`. */
  function BackSpace(s: string, lo: nat, k: nat): (r: nat)
    requires lo <= k <= |s|
    ensures lo <= r <= k
    ensures forall j :: r <= j < k ==> IsSpace(s[j])
    ensures r > lo ==> !IsSpace(s[r - 1])
    decreases k
  {
    if k > lo && IsSpace(s[k - 1]) then BackSpace(s, lo, k - 1) else k
  }

  /** The run of whitespace from `k` ends at `r` exactly when everything in between is
      whitespace and `r` is the end of `s` or not whitespace. */
  lemma SkipSpaceIs(s: string, k: nat, r: nat)
    requires k <= r <= |s|
    requires forall j :: k <= j < r ==> IsSpace(s[j])
    requires r < |s| ==> !IsSpace(s[r])
    ensures SkipSpace(s, k) == r
  {
  }

  /** The run of whitespace back from `k` starts at `r` exactly when everything in between
      is whitespace and `r` is `lo` or follows a character that is not whitespace. */
  lemma BackSpaceIs(s: string, lo: nat, k: nat, r: nat)
    requires lo <= r <= k <= |s|
    requires forall j :: r <= j < k ==> IsSpace(s[j])
    requires r > lo ==> !IsSpace(s[r - 1])
    ensures BackSpace(s, lo, k) == r
  {
  }

  /** How many leading characters `strip` removes. */
  function LeadingSpace(s: string): nat {
    SkipSpace(s, 0)
  }

  /** `s.strip()`: the slice between the leading and the trailing whitespace. */
  function Strip(s: string): string {
    var a := SkipSpace(s, 0);
    s[a..BackSpace(s, a, |s|)]
  }

  /** `strip()` keeps the longest slice of `s` that neither starts nor ends with whitespace,
      everything cut off being whitespace. */
  lemma StripSpec(s: string)
    ensures var r := Strip(s);
      && LeadingSpace(s) + |r| <= |s|
      && r == s[LeadingSpace(s)..LeadingSpace(s) + |r|]
      && (forall i :: 0 <= i < LeadingSpace(s) ==> IsSpace(s[i]))
      && (forall i :: LeadingSpace(s) + |r| <= i < |s| ==> IsSpace(s[i]))
      && (|r| > 0 ==> !IsSpace(r[0]) && !IsSpace(r[|r| - 1]))
  {
  }

  /** A string that neither starts nor ends with whitespace is its own `strip()`. */
  lemma StripOfStripped(s: string)
    requires |s| > 0 ==> !IsSpace(s[0]) && !IsSpace(s[|s| - 1])
    ensures Strip(s) == s
  {
    SkipSpaceIs(s, 0, 0);
    BackSpaceIs(s, 0, |s|, |s|);
    assert s[0..|s|] == s;
  }

  /** Whitespace only. */
  predicate AllSpace(w: string) {
    forall i :: 0 <= i < |w| ==> IsSpace(w[i])
  }

  /** Two strings with whitespace at the same positions. */
  predicate SameSpaces(s: string, l: string) {
    |s| == |l| && forall j :: 0 <= j < |s| ==> (IsSpace(l[j]) <==> IsSpace(s[j]))
  }

  // Texts whose whitespace positions agree skip the same leading whitespace.
  lemma SkipSpaceSameSpaces(s: string, l: string, k: nat)
    requires k <= |s| && SameSpaces(s, l)
    ensures SkipSpace(l, k) == SkipSpace(s, k)
  {
    var a := SkipSpace(s, k);
    SkipSpaceIs(l, k, a);
  }

  // Texts whose whitespace positions agree skip the same trailing whitespace.
  lemma BackSpaceSameSpaces(s: string, l: string, lo: nat, k: nat)
    requires lo <= k <= |s| && SameSpaces(s, l)
    ensures BackSpace(l, lo, k) == BackSpace(s, lo, k)
  {
    var b := BackSpace(s, lo, k);
    BackSpaceIs(l, lo, k, b);
  }

  /** Strings with whitespace at the same positions are stripped at the same positions. */
  lemma StripSameSpaces(s: string, l: string)
    requires SameSpaces(s, l)
    ensures var a := SkipSpace(s, 0);
            Strip(s) == s[a..BackSpace(s, a, |s|)] && Strip(l) == l[a..BackSpace(s, a, |s|)]
  {
    var a := SkipSpace(s, 0);
    SkipSpaceSameSpaces(s, l, 0);
    BackSpaceSameSpaces(s, l, a, |s|);
  }

  // Lower-casing commutes with slicing.
  lemma LowerSlice(s: string, a: nat, b: nat)
    requires a <= b <= |s|
    ensures Lower(s)[a..b] == Lower(s[a..b])
  {
    assert forall i :: 0 <= i < b - a ==> s[a..b][i] == s[a + i];
  }

  /** Lower-casing and stripping commute: case never turns a character into whitespace. */
  lemma StripLower(s: string)
    ensures Strip(Lower(s)) == Lower(Strip(s))
  {
    var l := Lower(s);
    assert SameSpaces(s, l);
    StripSameSpaces(s, l);
    var a := SkipSpace(s, 0);
    LowerSlice(s, a, BackSpace(s, a, |s|));
  }

  /** `x` sits at offset `n` of `y`, with only whitespace around it. */
  predicate Embedded(y: string, x: string, n: nat) {
    && n + |x| <= |y|
    && (forall j :: n <= j < n + |x| ==> y[j] == x[j - n])
    && (forall j :: 0 <= j < n ==> IsSpace(y[j]))
    && (forall j :: n + |x| <= j < |y| ==> IsSpace(y[j]))
  }

  // A slice of an embedded text is the same slice of the text it embeds.
  lemma SliceEmbedded(y: string, x: string, n: nat, a: nat, b: nat)
    requires Embedded(y, x, n) && a <= b <= |x|
    ensures y[n + a..n + b] == x[a..b]
  {
    forall i | 0 <= i < b - a ensures y[n + a..n + b][i] == x[a..b][i] {
      assert y[n + a + i] == x[a + i];
    }
  }

  /** Around a string that is all whitespace, everything is stripped. */
  lemma StripEmbeddedBlank(y: string, x: string, n: nat)
    requires Embedded(y, x, n) && SkipSpace(x, 0) == |x|
    ensures Strip(y) == [] && Strip(x) == []
  {
    forall j | 0 <= j < |y| ensures IsSpace(y[j]) {
      if n <= j < n + |x| {
        assert y[j] == x[j - n];
      }
    }
    SkipSpaceIs(y, 0, |y|);
  }

  /** Around a string with some non-whitespace, `strip` cuts at the same characters. */
  lemma StripEmbeddedCore(y: string, x: string, n: nat)
    requires Embedded(y, x, n) && SkipSpace(x, 0) < |x|
    ensures var a := SkipSpace(x, 0);
            var b := BackSpace(x, a, |x|);
            a < b && SkipSpace(y, 0) == n + a && BackSpace(y, n + a, |y|) == n + b
            && Strip(y) == Strip(x)
  {
    var a := SkipSpace(x, 0);
    var b := BackSpace(x, a, |x|);
    assert y[n + a] == x[a];
    forall j | 0 <= j < n + a ensures IsSpace(y[j]) {
      if j >= n {
        assert y[j] == x[j - n];
      }
    }
    SkipSpaceIs(y, 0, n + a);
    assert y[n + b - 1] == x[b - 1];
    forall j | n + b <= j < |y| ensures IsSpace(y[j]) {
      if j < n + |x| {
        assert y[j] == x[j - n];
      }
    }
    BackSpaceIs(y, n + a, |y|, n + b);
    SliceEmbedded(y, x, n, a, b);
    StripAt(x, a, b);
    StripAt(y, n + a, n + b);
  }

  // Strip keeps exactly the range between the skipped leading and trailing whitespace.
  lemma StripAt(s: string, a: nat, b: nat)
    requires a <= |s| && SkipSpace(s, 0) == a && a <= b <= |s| && BackSpace(s, a, |s|) == b
    ensures Strip(s) == s[a..b]
  {
  }

  /** A string that sits inside whitespace has the `strip()` of the whole. */
  lemma StripEmbedded(y: string, x: string, n: nat)
    requires Embedded(y, x, n)
    ensures Strip(y) == Strip(x)
  {
    if SkipSpace(x, 0) == |x| {
      StripEmbeddedBlank(y, x, n);
    } else {
      StripEmbeddedCore(y, x, n);
    }
  }

  /** Whitespace around a string does not change its `strip()`. */
  lemma StripPadded(w1: string, x: string, w2: string)
    requires AllSpace(w1) && AllSpace(w2)
    ensures Strip(w1 + x + w2) == Strip(x)
  {
    var y := w1 + x + w2;
    var n := |w1|;
    assert forall j :: n <= j < n + |x| ==> y[j] == x[j - n];
    assert forall j :: 0 <= j < n ==> y[j] == w1[j];
    assert forall j :: n + |x| <= j < |y| ==> y[j] == w2[j - n - |x|];
    assert Embedded(y, x, n);
    StripEmbedded(y, x, n);
  }

  /** `sep.join(parts)`. */
  function Join(parts: seq<string>, sep: string): string
  {
    if |parts| == 0 then ""
    else if |parts| == 1 then parts[0]
    else parts[0] + sep + Join(parts[1..], sep)
  }

  /** A join of at least two parts ends with the separator and the last part. */
  lemma {:induction false} JoinLast(parts: seq<string>, sep: string)
    requires |parts| >= 2
    ensures Join(parts, sep) == Join(parts[..|parts| - 1], sep) + sep + parts[|parts| - 1]
    decreases |parts|
  {
    if |parts| > 2 {
      JoinLast(parts[1..], sep);
      assert parts[1..][..|parts[1..]| - 1] == parts[..|parts| - 1][1..];
    }
  }

  /** Joining two non-empty lists of parts puts one separator between their joins. */
  lemma {:induction false} JoinAppend(a: seq<string>, b: seq<string>, sep: string)
    requires |a| >= 1 && |b| >= 1
    ensures Join(a + b, sep) == Join(a, sep) + sep + Join(b, sep)
    decreases |a|
  {
    var ab := a + b;
    assert ab[0] == a[0];
    if |a| == 1 {
      assert ab[1..] == b;
    } else {
      assert ab[1..] == a[1..] + b;
      JoinAppend(a[1..], b, sep);
    }
  }

  /** A join of more than `k` parts ends with the separator and the join of the last `k`. */
  lemma JoinEndsWithLast(parts: seq<string>, k: nat, sep: string)
    requires 1 <= k < |parts|
    ensures EndsWith(Join(parts, sep), sep + Join(parts[|parts| - k..], sep))
  {
    var front := parts[..|parts| - k];
    var back := parts[|parts| - k..];
    assert parts == front + back;
    JoinAppend(front, back, sep);
    EndsWithConcat(Join(front, sep), sep + Join(back, sep));
  }

  predicate StartsWith(s: string, prefix: string) {
    |prefix| <= |s| && s[..|prefix|] == prefix
  }

  predicate EndsWith(s: string, suffix: string) {
    |suffix| <= |s| && s[|s| - |suffix|..] == suffix
  }

  // A text with a suffix appended ends with that suffix.
  lemma EndsWithConcat(s: string, suffix: string)
    ensures EndsWith(s + suffix, suffix)
  {
    assert (s + suffix)[|s|..] == suffix;
  }

  /** `s.removeprefix(prefix)`. */
  function RemovePrefix(s: string, prefix: string): (r: string)
    ensures StartsWith(s, prefix) ==> prefix + r == s
    ensures !StartsWith(s, prefix) ==> r == s
  {
    if StartsWith(s, prefix) then s[|prefix|..] else s
  }

  /** `s.replace(c, rep)` for a one-character pattern `c`. */
  function ReplaceChar(s: string, c: char, rep: string): (r: string)
    ensures c !in rep ==> c !in r
    ensures forall x :: x in r ==> x in s || x in rep
  {
    if s == [] then [] else (if s[0] == c then rep else [s[0]]) + ReplaceChar(s[1..], c, rep)
  }

  // A string without the pattern character comes back unchanged.
  lemma {:induction false} ReplaceCharAbsent(s: string, c: char, rep: string)
    requires c !in s
    ensures ReplaceChar(s, c, rep) == s
  {
    if s != [] {
      assert c !in s[1..];
      ReplaceCharAbsent(s[1..], c, rep);
      assert [s[0]] + s[1..] == s;
    }
  }

  // On one character: the replacement where it is the pattern, the character itself elsewhere.
  lemma ReplaceCharSingle(x: char, c: char, rep: string)
    ensures ReplaceChar([x], c, rep) == if x == c then rep else [x]
  {
    assert [x][1..] == [];
  }

  // Replacing a character distributes over concatenation.
  lemma {:induction false} ReplaceCharAppend(a: string, b: string, c: char, rep: string)
    ensures ReplaceChar(a + b, c, rep) == ReplaceChar(a, c, rep) + ReplaceChar(b, c, rep)
    decreases |a|
  {
    if a != [] {
      var h := if a[0] == c then rep else [a[0]];
      var ab := a + b;
      assert ab[0] == a[0] && ab[1..] == a[1..] + b;
      ReplaceCharAppend(a[1..], b, c, rep);
      var ta, tb := ReplaceChar(a[1..], c, rep), ReplaceChar(b, c, rep);
      assert ReplaceChar(ab, c, rep) == h + (ta + tb);
      assert ReplaceChar(a, c, rep) == h + ta;
      assert h + (ta + tb) == (h + ta) + tb;
    } else {
      assert a + b == b;
    }
  }
}
