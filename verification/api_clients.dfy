/** `services/api_clients.py`: hero-name normalisation, the OpenDota name/id maps and the
    ranking step of the matchup query. The HTTP requests are inputs: the hero listing and the
    matchup reply are arguments, a failed request is a listing that failed or an absent reply. */
module ApiClients {
  import opened Outcomes
  import opened PyStr
  import opened Seqs
  import opened OrderedDict
  import opened StableSort

  // ---------------------------------------------------------------- normalize_hero_name

  /** `name.strip().lower().replace(" ", "_").replace("'", "")`. */
  function NormalizeHeroName(name: string): (r: string)
    ensures ' ' !in r && '\'' !in r
    ensures forall i :: 0 <= i < |r| ==> !IsUpper(r[i])
  {
    var lowered := Lower(Strip(name));
    var underscored := ReplaceChar(lowered, ' ', "_");
    var r := ReplaceChar(underscored, '\'', "");
    forall i | 0 <= i < |r| ensures !IsUpper(r[i]) {
      assert r[i] in underscored;
      assert r[i] in lowered || r[i] == '_';
    }
    r
  }

  /** What one character of the stripped name becomes. */
  function NormChar(c: char): string {
    if c == ' ' then "_" else if c == '\'' then "" else [LowerChar(c)]
  }

  /** The stripped name mapped character by character. */
  function NormChars(s: string): string {
    if s == [] then [] else NormChar(s[0]) + NormChars(s[1..])
  }

  // Per-character normalisation distributes over concatenation.
  lemma {:induction false} NormCharsAppend(a: string, b: string)
    ensures NormChars(a + b) == NormChars(a) + NormChars(b)
  {
    if a == [] {
      assert a + b == b;
    } else {
      assert (a + b)[1..] == a[1..] + b;
      NormCharsAppend(a[1..], b);
    }
  }

  /** The three rewrites of a string, done one after another, are one character map. */
  lemma {:induction false} RewritesAreCharwise(s: string)
    ensures ReplaceChar(ReplaceChar(Lower(s), ' ', "_"), '\'', "") == NormChars(s)
  {
    if s != [] {
      RewritesAreCharwise(s[1..]);
      var c := LowerChar(s[0]);
      assert Lower(s) == [c] + Lower(s[1..]);
      ReplaceCharAppend([c], Lower(s[1..]), ' ', "_");
      var u := if c == ' ' then "_" else [c];
      assert ReplaceChar([c], ' ', "_") == u;
      ReplaceCharAppend(u, ReplaceChar(Lower(s[1..]), ' ', "_"), '\'', "");
      assert ReplaceChar(u, '\'', "") == NormChar(s[0]);
    }
  }

  /** The normal form is the character map of the stripped name. */
  lemma NormalizeIsCharwise(name: string)
    ensures NormalizeHeroName(name) == NormChars(Strip(name))
  {
    RewritesAreCharwise(Strip(name));
  }

  // Lower-casing first makes no difference to the per-character step.
  lemma {:induction false} NormCharsLower(s: string)
    ensures NormChars(Lower(s)) == NormChars(s)
  {
    if s != [] {
      assert Lower(s)[1..] == Lower(s[1..]);
      NormCharsLower(s[1..]);
    }
  }

  /** Names that differ only in letter case have the same normal form. */
  lemma NormalizeIgnoresCase(a: string, b: string)
    requires Lower(a) == Lower(b)
    ensures NormalizeHeroName(a) == NormalizeHeroName(b)
  {
    NormalizeIsCharwise(a);
    NormalizeIsCharwise(b);
    StripLower(a);
    StripLower(b);
    NormCharsLower(Strip(a));
    NormCharsLower(Strip(b));
  }

  /** Whitespace around a name does not change its normal form. */
  lemma NormalizeIgnoresSurroundingSpace(w1: string, name: string, w2: string)
    requires AllSpace(w1) && AllSpace(w2)
    ensures NormalizeHeroName(w1 + name + w2) == NormalizeHeroName(name)
  {
    StripPadded(w1, name, w2);
  }

  /** A name that neither starts nor ends with whitespace is mapped as it stands. */
  lemma NormalizeStripped(s: string)
    requires |s| > 0 && !IsSpace(s[0]) && !IsSpace(s[|s| - 1])
    ensures NormalizeHeroName(s) == NormChars(s)
  {
    StripOfStripped(s);
    NormalizeIsCharwise(s);
  }

  /** A name with no surrounding whitespace, split anywhere, is mapped piece by piece. */
  lemma NormalizeInner(a: string, b: string)
    requires |a| > 0 && |b| > 0 && !IsSpace(a[0]) && !IsSpace(b[|b| - 1])
    ensures NormalizeHeroName(a + b) == NormChars(a) + NormChars(b)
  {
    var s := a + b;
    assert s[0] == a[0] && s[|s| - 1] == b[|b| - 1];
    NormalizeStripped(s);
    NormCharsAppend(a, b);
  }

  /** Inside a name, a space and an underscore are the same. */
  lemma NormalizeSpaceIsUnderscore(a: string, b: string)
    requires |a| > 0 && |b| > 0 && !IsSpace(a[0]) && !IsSpace(b[|b| - 1])
    ensures NormalizeHeroName(a + " " + b) == NormalizeHeroName(a + "_" + b)
  {
    assert (a + " ")[0] == a[0] && (a + "_")[0] == a[0];
    NormalizeInner(a + " ", b);
    NormalizeInner(a + "_", b);
    NormCharsAppend(a, " ");
    NormCharsAppend(a, "_");
    assert NormChars(" ") == NormChars("_") by {
      assert " "[1..] == [] && "_"[1..] == [];
    }
  }

  /** Inside a name, an apostrophe is dropped. */
  lemma NormalizeDropsApostrophe(a: string, b: string)
    requires |a| > 0 && |b| > 0 && !IsSpace(a[0]) && !IsSpace(b[|b| - 1])
    ensures NormalizeHeroName(a + "'" + b) == NormalizeHeroName(a + b)
  {
    assert (a + "'")[0] == a[0];
    NormalizeInner(a + "'", b);
    NormalizeInner(a, b);
    NormCharsAppend(a, "'");
    assert NormChars("'") == "" by {
      assert "'"[1..] == "";
    }
    assert NormChars(a + "'") == NormChars(a);
  }

  /** Normalising is not idempotent: an apostrophe that hides whitespace from `strip` goes,
      and the whitespace it uncovers is stripped the second time. */
  lemma NormalizeNotIdempotent()
    ensures NormalizeHeroName(NormalizeHeroName("'\tx")) != NormalizeHeroName("'\tx")
  {
    NormalizeQuoteTab();
    NormalizeTab();
  }

  // A leading apostrophe is dropped only after the outer whitespace is stripped, so the tab it hid survives.
  lemma NormalizeQuoteTab()
    ensures NormalizeHeroName("'\tx") == "\tx"
  {
    var s := "'\tx";
    NormalizeStripped(s);
    assert s[1..] == "\tx" && s[1..][1..] == "x" && s[1..][1..][1..] == [];
    assert NormChars("x") == "x";
    assert NormChars("\tx") == "\tx";
  }

  // Stripping the remaining tab then changes the name again.
  lemma NormalizeTab()
    ensures NormalizeHeroName("\tx") == "x"
  {
    var t := "\tx";
    assert Strip(t) == "x" by {
      SkipSpaceIs(t, 0, 1);
      BackSpaceIs(t, 1, 2, 2);
      assert t[1..2] == "x";
    }
    NormalizeIsCharwise(t);
    assert "x"[1..] == [];
    assert NormChars("x") == "x";
  }

  // ---------------------------------------------------------------- get_hero_id_map

  /** One item of the `/heroes` reply; an absent field is `None`, and a JSON null is taken as absent. */
  datatype HeroRecord = HeroRecord(localizedName: Option<string>, id: Option<int>)

  /** The `/heroes` request: it failed with an exception, or it returned the list. */
  datatype HeroListing = ListingFailed(exc: Exception) | Listed(heroes: seq<HeroRecord>)

  /** An item with both fields the comprehension reads. */
  predicate Complete(h: HeroRecord) {
    h.localizedName.Some? && h.id.Some?
  }

  /** The entry the dict comprehension assigns for one complete item. */
  function NamePair(h: HeroRecord): (string, int)
    requires Complete(h)
  {
    (NormalizeHeroName(h.localizedName.value), h.id.value)
  }

  /** The pairs the dict comprehension assigns; an item missing a field raises `KeyError`. */
  function NamePairs(hs: seq<HeroRecord>): (r: Result<seq<(string, int)>>)
    ensures r.Ok? <==> forall i :: 0 <= i < |hs| ==> Complete(hs[i])
    ensures r.Raised? ==> r.exc.KeyError?
    ensures r.Ok? ==> |r.value| == |hs|
    ensures r.Ok? ==> forall i :: 0 <= i < |hs| ==> r.value[i] == NamePair(hs[i])
  {
    if hs == [] then Ok([])
    else if hs[0].localizedName.None? then Raised(KeyError("'localized_name'"))
    else if hs[0].id.None? then Raised(KeyError("'id'"))
    else
      var tail := hs[1..];
      assert forall i :: 1 <= i < |hs| ==> hs[i] == tail[i - 1];
      match NamePairs(tail)
      case Raised(e) => Raised(e)
      case Ok(rest) =>
        var pairs := [NamePair(hs[0])] + rest;
        assert forall i :: 1 <= i < |hs| ==> pairs[i] == rest[i - 1];
        Ok(pairs)
  }

  /** `get_hero_id_map()`: normalised name to id; every failure is re-raised. */
  function HeroIdMap(l: HeroListing): (r: Result<Dict<string, int>>)
    ensures l.ListingFailed? ==> r == Raised(l.exc)
    ensures r.Ok? ==> KeysDistinct(r.value)
  {
    match l
    case ListingFailed(e) => Raised(e)
    case Listed(hs) =>
      match NamePairs(hs)
      case Raised(e) => Raised(e)
      case Ok(ps) => Ok(FromPairs(ps))
  }

  /** Every listed hero is found under its normalised name, with the id of the last hero that
      has that normal form. */
  lemma HeroIdMapFindsEveryHero(l: HeroListing, i: nat)
    requires HeroIdMap(l).Ok? && l.Listed? && i < |l.heroes|
    ensures var key := NormalizeHeroName(l.heroes[i].localizedName.value);
            Get(HeroIdMap(l).value, key) == LastValue(NamePairs(l.heroes).value, key)
            && Get(HeroIdMap(l).value, key).Some?
  {
    var ps := NamePairs(l.heroes).value;
    FromPairsGet(ps, ps[i].0);
    LastValueFound(ps, i);
  }

  /** `get_id_to_hero_map()`: the map inverted. */
  function IdToHeroMap(l: HeroListing): (r: Result<Dict<int, string>>)
    ensures HeroIdMap(l).Raised? <==> r.Raised?
    ensures r.Ok? ==> r.value == Invert(HeroIdMap(l).value)
  {
    match HeroIdMap(l)
    case Raised(e) => Raised(e)
    case Ok(m) => Ok(Invert(m))
  }

  /** `get_hero_name_by_id(hero_id)`. */
  function GetHeroNameById(l: HeroListing, heroId: int): (r: Result<Option<string>>)
    ensures HeroIdMap(l).Raised? <==> r.Raised?
  {
    match IdToHeroMap(l)
    case Raised(e) => Raised(e)
    case Ok(inv) => Ok(Get(inv, heroId))
  }

  /** `get_hero_id_by_name(name)`: the name is normalised before the lookup. */
  function GetHeroIdByName(l: HeroListing, name: string): (r: Result<Option<int>>)
    ensures HeroIdMap(l).Raised? <==> r.Raised?
    ensures r.Ok? ==> r.value == Get(HeroIdMap(l).value, NormalizeHeroName(name))
  {
    match HeroIdMap(l)
    case Raised(e) => Raised(e)
    case Ok(m) => Ok(Get(m, NormalizeHeroName(name)))
  }

  /** Each id-to-name entry of the inverted map has the matching name-to-id entry. */
  lemma NameByIdIsSound(l: HeroListing, heroId: int, name: string)
    requires GetHeroNameById(l, heroId) == Ok(Some(name))
    ensures Get(HeroIdMap(l).value, name) == Some(heroId)
  {
    InvertSound(HeroIdMap(l).value, heroId, name);
  }

  /** Every id of the name map is found by the inverted map. */
  lemma NameByIdIsComplete(l: HeroListing, i: nat)
    requires HeroIdMap(l).Ok? && i < |HeroIdMap(l).value|
    ensures GetHeroNameById(l, HeroIdMap(l).value[i].1).Ok?
    ensures GetHeroNameById(l, HeroIdMap(l).value[i].1).value.Some?
  {
    InvertComplete(HeroIdMap(l).value, i);
  }

  /** Looking an id's name up again gives the id back, when that name is in normal form. */
  lemma IdByNameOfNameById(l: HeroListing, heroId: int, name: string)
    requires GetHeroNameById(l, heroId) == Ok(Some(name))
    requires NormalizeHeroName(name) == name
    ensures GetHeroIdByName(l, name) == Ok(Some(heroId))
  {
    NameByIdIsSound(l, heroId, name);
  }

  /** Names with the same normal form resolve to the same id, or fail alike. */
  lemma IdByNameOfVariants(l: HeroListing, a: string, b: string)
    requires NormalizeHeroName(a) == NormalizeHeroName(b)
    ensures GetHeroIdByName(l, a) == GetHeroIdByName(l, b)
  {
  }

  // ---------------------------------------------------------------- get_counters

  /** One item of the matchup reply; an absent or null field is `None`: reading either fails. */
  datatype Matchup = Matchup(heroId: int, gamesPlayed: Option<int>, wins: Option<int>)

  /** An item with the `win_rate` the loop adds to it. */
  datatype Counter = Counter(item: Matchup, winRate: real)

  /** The win rate the loop computes, `None` where reading a field raises. */
  function WinRate(m: Matchup): (r: Option<real>)
    ensures m.gamesPlayed.Some? && m.gamesPlayed.value <= 0 ==> r == Some(0.0)
    ensures m.gamesPlayed.None? ==> r.None?
    ensures m.gamesPlayed.Some? && m.gamesPlayed.value > 0 ==>
              r == (if m.wins.Some? then Some(m.wins.value as real / m.gamesPlayed.value as real * 100.0) else None)
  {
    match m.gamesPlayed
    case None => None
    case Some(games) =>
      if games > 0 then
        match m.wins
        case None => None
        case Some(w) => Some(w as real / games as real * 100.0)
      else Some(0.0)
  }

  /** The loop over the reply, or `None` when it raises. */
  function WithWinRates(ms: seq<Matchup>): (r: Option<seq<Counter>>)
    ensures r.Some? <==> forall i :: 0 <= i < |ms| ==> WinRate(ms[i]).Some?
    ensures r.Some? ==> |r.value| == |ms|
    ensures r.Some? ==> forall i :: 0 <= i < |ms| ==> r.value[i] == Counter(ms[i], WinRate(ms[i]).value)
  {
    if ms == [] then Some([])
    else
      var rest := WithWinRates(ms[1..]);
      assert forall i :: 1 <= i < |ms| ==> ms[i] == ms[1..][i - 1];
      match WinRate(ms[0])
      case None => None
      case Some(w) => if rest.None? then None else Some([Counter(ms[0], w)] + rest.value)
  }

  function CounterRate(c: Counter): real {
    c.winRate
  }

  /** The win-rate ranking of all counters, before the cut. */
  function RankedCounters(cs: seq<Counter>): seq<Counter> {
    SortBy(cs, CounterRate)
  }

  /** `get_counters(hero_id, limit)`, given the matchup reply (`None` when the request or its
      decoding fails): the items by ascending win rate, cut to `[:limit]`; any failure
      gives `[]`. */
  function GetCounters(reply: Option<seq<Matchup>>, limit: int): (r: seq<Counter>)
    ensures reply.None? ==> r == []
    ensures reply.Some? && WithWinRates(reply.value).None? ==> r == []
    ensures limit >= 0 ==> |r| <= limit
    ensures reply.Some? && WithWinRates(reply.value).Some? && limit >= 0 ==>
              |r| == (if limit < |reply.value| then limit else |reply.value|)
    ensures SortedBy(r, CounterRate)
    ensures reply.Some? && WithWinRates(reply.value).Some? ==>
              |r| <= |WithWinRates(reply.value).value| && r == RankedCounters(WithWinRates(reply.value).value)[..|r|]
    ensures forall i :: 0 <= i < |r| ==> WinRate(r[i].item) == Some(r[i].winRate)
  {
    match reply
    case None => []
    case Some(ms) =>
      match WithWinRates(ms)
      case None => []
      case Some(cs) =>
        var ranked := RankedCounters(cs);
        var r := PyPrefix(ranked, limit);
        forall i | 0 <= i < |r| ensures WinRate(r[i].item) == Some(r[i].winRate) {
          assert r[i] == ranked[i];
          assert ranked[i] in multiset(cs);
        }
        r
  }

  /** The failure handling covers the whole loop: one item whose win rate cannot be computed
      empties the reply, however many other items are sound. */
  lemma OneBadItemEmptiesCounters(ms: seq<Matchup>, k: int, limit: int)
    requires 0 <= k < |ms| && WinRate(ms[k]).None?
    ensures GetCounters(Some(ms), limit) == []
  {
  }

  /** The cut keeps the lowest win rates: a matchup left out has a rate no lower than any
      kept one. */
  lemma GetCountersKeepsLowest(ms: seq<Matchup>, limit: nat, c: Counter)
    requires WithWinRates(ms).Some? && c in WithWinRates(ms).value
    requires c !in GetCounters(Some(ms), limit)
    ensures forall j :: 0 <= j < |GetCounters(Some(ms), limit)| ==> GetCounters(Some(ms), limit)[j].winRate <= c.winRate
  {
    var cs := WithWinRates(ms).value;
    var r := GetCounters(Some(ms), limit);
    assert r == SortBy(cs, CounterRate)[..if limit < |cs| then limit else |cs|];
    SortedPrefixIsLeast(cs, CounterRate, limit, c);
    assert forall j :: 0 <= j < |r| ==> r[j] == SortBy(cs, CounterRate)[j];
  }

  /** With a limit no smaller than the reply, every matchup is returned, reordered. */
  lemma GetCountersAllWhenLimitLarge(ms: seq<Matchup>, limit: int)
    requires WithWinRates(ms).Some? && limit >= |ms|
    ensures multiset(GetCounters(Some(ms), limit)) == multiset(WithWinRates(ms).value)
  {
    var cs := WithWinRates(ms).value;
    var ranked := RankedCounters(cs);
    assert GetCounters(Some(ms), limit) == ranked[..|cs|];
    assert ranked[..|cs|] == ranked;
  }

  /** A negative limit drops that many of the highest win rates instead. */
  lemma GetCountersNegativeLimit(ms: seq<Matchup>, limit: int)
    requires WithWinRates(ms).Some? && limit < 0 && -limit <= |ms|
    ensures |GetCounters(Some(ms), limit)| == |ms| + limit
  {
  }
}
