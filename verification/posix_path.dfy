/** The part of `pathlib.PurePosixPath` that `services/cache.py` relies on: parsing a
    path string into its root and its parts, and joining with the `/` operator. Two
    pathlib paths are equal exactly when their roots and parts are. */
module PosixPath {
  /** `s.split("/")`. */
  function Split(s: string): (r: seq<string>)
    ensures |r| >= 1
    ensures forall i :: 0 <= i < |r| ==> '/' !in r[i]
    decreases |s|
  {
    if s == [] then [""]
    else
      var rest := Split(s[1..]);
      if s[0] == '/' then [""] + rest
      else [[s[0]] + rest[0]] + rest[1..]
  }

  /** `"/".join(parts)`. */
  function JoinSlash(parts: seq<string>): string
    requires |parts| >= 1
  {
    if |parts| == 1 then parts[0] else parts[0] + "/" + JoinSlash(parts[1..])
  }

  /** Splitting at `/` and joining again gives the text back. */
  lemma {:induction false} SplitJoin(s: string)
    ensures JoinSlash(Split(s)) == s
    decreases |s|
  {
    if s != [] {
      var rest := Split(s[1..]);
      SplitJoin(s[1..]);
      if s[0] == '/' {
        assert Split(s)[1..] == rest;
      } else if |rest| == 1 {
        assert Split(s) == [[s[0]] + rest[0]];
      } else {
        assert Split(s)[1..] == rest[1..];
        assert JoinSlash(rest) == rest[0] + "/" + JoinSlash(rest[1..]);
      }
    }
  }

  // A text without a slash is one segment.
  lemma {:induction false} SplitNoSlash(s: string)
    requires '/' !in s
    ensures Split(s) == [s]
    decreases |s|
  {
    if s != [] {
      assert '/' !in s[1..];
      SplitNoSlash(s[1..]);
      assert [s[0]] + s[1..] == s;
    }
  }

  // Appending a slash-free text extends the last segment only.
  lemma {:induction false} SplitAppend(a: string, b: string)
    requires '/' !in b
    ensures var sa := Split(a);
            Split(a + b) == sa[..|sa| - 1] + [sa[|sa| - 1] + b]
    decreases |a|
  {
    if a == [] {
      assert a + b == b;
      SplitNoSlash(b);
    } else {
      assert (a + b)[0] == a[0] && (a + b)[1..] == a[1..] + b;
      SplitAppend(a[1..], b);
      var sr := Split(a[1..]);
      if a[0] != '/' {
        assert [a[0]] + sr[0] + b == [a[0]] + (sr[0] + b);
      }
    }
  }

  /** A part pathlib keeps: not empty, not `.`, and free of slashes. */
  predicate KeptPart(x: string) {
    x != "" && x != "." && '/' !in x
  }

  /** The parts pathlib keeps of the segments: empty segments and `.` are dropped, `..`
      stays. */
  function Keep(segs: seq<string>): (r: seq<string>)
    requires forall i :: 0 <= i < |segs| ==> '/' !in segs[i]
    ensures forall i :: 0 <= i < |r| ==> KeptPart(r[i])
    ensures forall i :: 0 <= i < |segs| && KeptPart(segs[i]) ==> segs[i] in r
    ensures forall x :: x in r ==> x in segs
  {
    if segs == [] then []
    else (if segs[0] != "" && segs[0] != "." then [segs[0]] else []) + Keep(segs[1..])
  }

  // Keeping distributes over concatenation.
  lemma {:induction false} KeepAppend(xs: seq<string>, ys: seq<string>)
    requires forall i :: 0 <= i < |xs| ==> '/' !in xs[i]
    requires forall i :: 0 <= i < |ys| ==> '/' !in ys[i]
    ensures Keep(xs + ys) == Keep(xs) + Keep(ys)
    decreases |xs|
  {
    if xs == [] {
      assert xs + ys == ys;
    } else {
      assert (xs + ys)[0] == xs[0] && (xs + ys)[1..] == xs[1..] + ys;
      KeepAppend(xs[1..], ys);
    }
  }

  /** A pure path: its root (`""` for a relative path, `"/"`, or `"//"`, which POSIX lets
      an implementation treat apart) and its parts. */
  datatype Path = Path(root: string, parts: seq<string>)

  /** `PurePosixPath(s)`. A leading `//` that is not followed by a third slash is kept as
      the root; any other run of leading slashes is the root `/`. The slashes of the root
      only contribute empty segments, which are dropped with every other empty segment and
      every `.`. */
  function Parse(s: string): (p: Path)
    ensures p.root == "" <==> (s == [] || s[0] != '/')
    ensures p.root == "" || p.root == "/" || p.root == "//"
    ensures forall i :: 0 <= i < |p.parts| ==> KeptPart(p.parts[i])
  {
    var root :=
      if s == [] || s[0] != '/' then ""
      else if |s| >= 2 && s[1] == '/' && (|s| == 2 || s[2] != '/') then "//"
      else "/";
    Path(root, Keep(Split(s)))
  }

  /** `base / s`: a path with a root replaces the base; a relative one extends it. */
  function Div(base: Path, s: string): Path {
    var p := Parse(s);
    if p.root != "" then p else Path(base.root, base.parts + p.parts)
  }

  /** A slash-free name other than `""` and `.` is a one-part relative path. */
  lemma ParseName(s: string)
    requires KeptPart(s)
    ensures Parse(s) == Path("", [s])
  {
    SplitNoSlash(s);
    assert Keep([s]) == [s] by { assert [s][1..] == []; }
  }

  /** The parts of `s + suffix`, for a suffix without slashes that makes the last segment
      a kept part: the kept parts before the last segment, then the last segment with the
      suffix. */
  lemma ParseAppend(s: string, suffix: string)
    requires '/' !in suffix
    requires var segs := Split(s); KeptPart(segs[|segs| - 1] + suffix)
    ensures var segs := Split(s);
            Parse(s + suffix).parts == Keep(segs[..|segs| - 1]) + [segs[|segs| - 1] + suffix]
  {
    var segs := Split(s);
    var last := segs[|segs| - 1] + suffix;
    SplitAppend(s, suffix);
    KeepAppend(segs[..|segs| - 1], [last]);
    assert Keep([last]) == [last] by {
      assert [last][1..] == [];
    }
  }

  /** A leading `./` adds nothing to a relative path. */
  lemma DotSlashDropped(s: string)
    requires s == [] || s[0] != '/'
    ensures Parse("./" + s) == Parse(s)
  {
    var t := "./" + s;
    assert t[1..] == "/" + s && ("/" + s)[1..] == s;
    var rest := Split("/" + s);
    assert rest == [""] + Split(s);
    assert rest[1..] == Split(s) && [t[0]] + rest[0] == ".";
    assert Split(t) == ["."] + Split(s);
    KeepAppend(["."], Split(s));
    assert Keep(["."]) == [] by { assert ["."][1..] == []; }
  }
}
