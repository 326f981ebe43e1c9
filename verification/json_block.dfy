/** `extract_json_block` of `services/openai_generator.py`: the search of the pattern
    `` ```(?:json)?\s*(\{.*?\})\s*``` `` (dot matching newlines) in the stripped reply,
    written out as the scan the regular-expression engine performs. The search tries
    every start position from left to right; at a position it needs a fence, an optional
    `json` tag, whitespace, an opening brace, and then the nearest closing brace that is
    followed by whitespace and a closing fence. */
module JsonBlock {
  import opened Outcomes
  import opened PyStr

  const Fence := "```"

  /** Three backticks start at `k`. */
  predicate FenceAt(t: string, k: nat) {
    k + 3 <= |t| && t[k..k + 3] == Fence
  }

  /** The position after the optional `json` tag that follows a fence ending at `k`. */
  function AfterTag(t: string, k: nat): (r: nat)
    requires k <= |t|
    ensures r <= |t|
    ensures r == k || (r == k + 4 && t[k..r] == "json")
  {
    if k + 4 <= |t| && t[k..k + 4] == "json" then k + 4 else k
  }

  /** A closing brace at `e` that whitespace and a fence follow. */
  predicate CloseAt(t: string, e: nat) {
    e < |t| && t[e] == '}' && FenceAt(t, SkipSpace(t, e + 1))
  }

  /** The nearest closing position at or after `from` (`.*?`, lazy). */
  function FindClose(t: string, from: nat): (r: Option<nat>)
    requires from <= |t|
    ensures r.Some? ==> from <= r.value < |t| && CloseAt(t, r.value)
    ensures r.Some? ==> forall e :: from <= e < r.value ==> !CloseAt(t, e)
    ensures r.None? ==> forall e :: from <= e < |t| ==> !CloseAt(t, e)
    decreases |t| - from
  {
    if from == |t| then None
    else if CloseAt(t, from) then Some(from)
    else FindClose(t, from + 1)
  }

  /** The captured object of a match that starts at `i`: its first and last index. */
  datatype Span = Span(open: nat, close: nat)

  /** The match attempt at start position `i`. */
  function MatchAt(t: string, i: nat): (r: Option<Span>)
    requires i <= |t|
    ensures r.Some? ==> FenceAt(t, i)
    ensures r.Some? ==> r.value.open == SkipSpace(t, AfterTag(t, i + 3))
    ensures r.Some? ==> r.value.open < r.value.close < |t|
                        && t[r.value.open] == '{' && CloseAt(t, r.value.close)
  {
    if !FenceAt(t, i) then None
    else
      var b := SkipSpace(t, AfterTag(t, i + 3));
      if b < |t| && t[b] == '{' then
        match FindClose(t, b + 1)
        case Some(e) => Some(Span(b, e))
        case None => None
      else None
  }

  /** The first `j` from `i` through `n` at which `p` holds. */
  function FirstFrom(p: nat -> bool, i: nat, n: nat): (r: Option<nat>)
    requires i <= n
    ensures r.Some? ==> i <= r.value <= n && p(r.value)
    decreases n - i
  {
    if p(i) then Some(i)
    else if i == n then None
    else FirstFrom(p, i + 1, n)
  }

  /** `FirstFrom` passes over only positions at which `p` fails: none before the one found,
      and none at all when nothing is found. */
  lemma {:induction false} FirstFromSkips(p: nat -> bool, i: nat, n: nat)
    requires i <= n
    ensures FirstFrom(p, i, n).Some? ==> forall j :: i <= j < FirstFrom(p, i, n).value ==> !p(j)
    ensures FirstFrom(p, i, n).None? ==> forall j :: i <= j <= n ==> !p(j)
    decreases n - i
  {
    if !p(i) && i < n {
      FirstFromSkips(p, i + 1, n);
    }
  }

  /** Whether the pattern matches at a start position. */
  function Matches(t: string): nat -> bool {
    (j: nat) => j <= |t| && MatchAt(t, j).Some?
  }

  /** `re.search` from position `i`: the first start position at which the pattern matches. */
  function SearchFrom(t: string, i: nat): (r: Option<nat>)
    requires i <= |t|
    ensures r.Some? ==> i <= r.value <= |t| && MatchAt(t, r.value).Some?
  {
    FirstFrom(Matches(t), i, |t|)
  }

  /** The search skips only start positions at which the pattern does not match: none
      before the position found, and none at all when nothing is found. */
  lemma SearchFromSkips(t: string, i: nat)
    requires i <= |t|
    ensures SearchFrom(t, i).Some? ==> forall j :: i <= j < SearchFrom(t, i).value ==> MatchAt(t, j).None?
    ensures SearchFrom(t, i).None? ==> forall j :: i <= j <= |t| ==> MatchAt(t, j).None?
  {
    var p := Matches(t);
    FirstFromSkips(p, i, |t|);
    var r := SearchFrom(t, i);
    if r.Some? {
      forall j | i <= j < r.value ensures MatchAt(t, j).None? {
        assert !p(j);
      }
    } else {
      forall j | i <= j <= |t| ensures MatchAt(t, j).None? {
        assert !p(j);
      }
    }
  }

  /** `r` is `t` unchanged, or a text that opens and closes with a brace. */
  predicate BracedOrSame(r: string, t: string) {
    r == t || (|r| >= 2 && r[0] == '{' && r[|r| - 1] == '}')
  }

  /** The captured group of the first match in `t`, or `t` itself when nothing matches. */
  function ExtractFrom(t: string): (r: string)
    ensures BracedOrSame(r, t)
    ensures SearchFrom(t, 0).None? <==> r == t
  {
    var found := SearchFrom(t, 0);
    if found.None? then t
    else
      var sp := MatchAt(t, found.value).value;
      var g := t[sp.open..sp.close + 1];
      assert g[0] == t[sp.open] && g[|g| - 1] == t[sp.close];
      assert |g| < |t| by { assert sp.open >= found.value + 3; }
      g
  }

  /** `extract_json_block(text)`: the captured group of the first match in the stripped
      text, or the stripped text itself. */
  function ExtractJsonBlock(text: string): (r: string)
    ensures BracedOrSame(r, Strip(text))
    ensures SearchFrom(Strip(text), 0).None? <==> r == Strip(text)
  {
    ExtractFrom(Strip(text))
  }

  /** The search from `i` stops at the first start position that matches. */
  lemma SearchFromFirst(t: string, i: nat, k: nat)
    requires i <= k <= |t| && MatchAt(t, k).Some?
    requires forall j :: i <= j < k ==> MatchAt(t, j).None?
    ensures SearchFrom(t, i) == Some(k)
  {
    var r := SearchFrom(t, i);
    SearchFromSkips(t, i);
    assert r.Some?;
    assert !(r.value < k) && !(k < r.value);
  }

  /** The captured group is taken from the first start position in the stripped text at
      which the whole pattern matches; later fenced blocks are ignored. */
  lemma FirstMatchWins(text: string, k: nat)
    requires k <= |Strip(text)| && MatchAt(Strip(text), k).Some?
    requires forall j :: 0 <= j < k ==> MatchAt(Strip(text), j).None?
    ensures var sp := MatchAt(Strip(text), k).value;
            ExtractJsonBlock(text) == Strip(text)[sp.open..sp.close + 1]
  {
    ExtractFromFirst(Strip(text), k);
  }

  /** `FirstMatchWins` for a text that is already stripped. */
  lemma ExtractFromFirst(t: string, k: nat)
    requires k <= |t| && MatchAt(t, k).Some?
    requires forall j :: 0 <= j < k ==> MatchAt(t, j).None?
    ensures var sp := MatchAt(t, k).value;
            ExtractFrom(t) == t[sp.open..sp.close + 1]
  {
    SearchFromFirst(t, 0, k);
  }

  /** A reply without any opening brace comes back stripped and otherwise untouched. */
  lemma NoObjectNoUnwrap(text: string)
    requires '{' !in Strip(text)
    ensures ExtractJsonBlock(text) == Strip(text)
  {
  }

  /** A JSON object wrapped in a `json` fence, as the prompts ask for it, is recovered exactly,
      provided the object itself holds no backtick. */
  lemma {:induction false} FencedObjectRoundTrip(obj: string)
    requires |obj| >= 2 && obj[0] == '{' && obj[|obj| - 1] == '}'
    requires '`' !in obj
    ensures ExtractJsonBlock("```json\n" + obj + "\n```") == obj
  {
    var t := "```json\n" + obj + "\n```";
    assert t[0] == '`' && t[|t| - 1] == '`';
    StripOfStripped(t);
    FencedMatch(t, obj);
    ExtractFromFirst(t, 0);
    assert t[8..8 + |obj|] == obj;
  }

  /** In the wrapped object the pattern matches at the very start: the object is captured
      from its opening brace to its last character. */
  lemma FencedMatch(t: string, obj: string)
    requires |obj| >= 2 && obj[0] == '{' && obj[|obj| - 1] == '}' && '`' !in obj
    requires t == "```json\n" + obj + "\n```"
    ensures MatchAt(t, 0) == Some(Span(8, 8 + |obj| - 1))
  {
    assert FenceAt(t, 0) by { assert t[0..3] == Fence; }
    assert t[3..7] == "json";
    assert AfterTag(t, 3) == 7;
    assert IsSpace(t[7]) && t[8] == '{';
    assert SkipSpace(t, 8) == 8;
    assert SkipSpace(t, 7) == 8;
    var last := 8 + |obj| - 1;
    // No closing brace before the last character of the object has a fence after it.
    forall e | 9 <= e < last ensures !CloseAt(t, e) {
      NoFenceInside(t, obj, e);
    }
    FencedClose(t, obj);
    FindCloseFirst(t, 9, last);
  }

  /** The last character of the wrapped object is a closing brace that a newline and the
      closing fence follow. */
  lemma FencedClose(t: string, obj: string)
    requires |obj| >= 2 && obj[|obj| - 1] == '}'
    requires t == "```json\n" + obj + "\n```"
    ensures CloseAt(t, 8 + |obj| - 1)
  {
    var last := 8 + |obj| - 1;
    assert t[last] == '}';
    assert IsSpace(t[last + 1]);
    assert t[last + 2..last + 5] == Fence;
    assert SkipSpace(t, last + 2) == last + 2;
    assert SkipSpace(t, last + 1) == last + 2;
  }

  /** Inside the wrapped object, whitespace after a brace ends at a character of the object,
      which is no backtick. */
  lemma NoFenceInside(t: string, obj: string, e: nat)
    requires |obj| >= 2 && obj[|obj| - 1] == '}' && '`' !in obj
    requires t == "```json\n" + obj + "\n```"
    requires 9 <= e < 8 + |obj| - 1
    ensures !CloseAt(t, e)
  {
    var last := 8 + |obj| - 1;
    assert t[last] == '}';
    assert !IsSpace(t[last]);
    var s := SkipSpace(t, e + 1);
    assert s <= last;
    assert t[s] == obj[s - 8];
    assert t[s] != '`';
  }

  /** When nothing before `c` closes and `c` closes, the lazy search stops at `c`. */
  lemma {:induction false} FindCloseFirst(t: string, from: nat, c: nat)
    requires from <= c < |t| && CloseAt(t, c)
    requires forall e :: from <= e < c ==> !CloseAt(t, e)
    ensures FindClose(t, from) == Some(c)
    decreases c - from
  {
    if from < c {
      FindCloseFirst(t, from + 1, c);
    }
  }

  /** A JSON array wrapped in a `json` fence, as the build-options prompt asks for it, is
      never unwrapped, even when its elements are objects: after the opening fence and the
      tag the pattern needs a brace and finds the bracket, and no other position starts a
      fence. The reply comes back whole, fences included. */
  lemma FencedArrayNotUnwrapped(arr: string)
    requires |arr| >= 1 && arr[0] == '[' && '`' !in arr
    ensures ExtractJsonBlock("```json\n" + arr + "\n```") == "```json\n" + arr + "\n```"
  {
    var t := "```json\n" + arr + "\n```";
    assert t[0] == '`' && t[|t| - 1] == '`';
    StripOfStripped(t);
    forall j | 0 <= j <= |t| ensures MatchAt(t, j).None? {
      NoMatchInFencedArray(t, arr, j);
    }
    assert SearchFrom(t, 0).None?;
  }

  /** No start position of the fenced array matches: only positions 0 and `|t| - 3` hold a
      fence, the first is followed by the bracket and the last by the end of the text. */
  lemma NoMatchInFencedArray(t: string, arr: string, j: nat)
    requires |arr| >= 1 && arr[0] == '[' && '`' !in arr
    requires t == "```json\n" + arr + "\n```"
    requires j <= |t|
    ensures MatchAt(t, j).None?
  {
    if j == 0 {
      assert t[3..7] == "json";
      assert AfterTag(t, 3) == 7;
      assert IsSpace(t[7]) && t[8] == '[';
      assert SkipSpace(t, 8) == 8;
      assert SkipSpace(t, 7) == 8;
    } else if j + 3 == |t| {
      assert AfterTag(t, j + 3) == |t|;
    } else {
      FenceOnlyAtEnds(t, arr, j);
    }
  }

  /** In the fenced array, three backticks start only at the first and the last fence. */
  lemma FenceOnlyAtEnds(t: string, arr: string, j: nat)
    requires '`' !in arr
    requires t == "```json\n" + arr + "\n```"
    requires j <= |t|
    ensures FenceAt(t, j) ==> j == 0 || j + 3 == |t|
  {
    if 0 < j < 3 {
      assert t[j + 2] != '`';
    } else if 3 <= j < 8 {
      assert t[j] != '`';
    } else if 8 <= j < 8 + |arr| {
      assert t[j] == arr[j - 8];
    } else if j == 8 + |arr| {
      assert t[j] == '\n';
    }
  }
}
