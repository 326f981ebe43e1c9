/** The rule-based recommender of `services/logic.py`: cleaning the draft's hero
    lists against the catalog, ranking heroes of the wanted role by meta win rate,
    and assembling the recommendation response. */
module Logic {
  import opened Outcomes
  import opened PyStr
  import opened Seqs
  import opened OrderedDict
  import opened StableSort
  import opened Types
  import opened Catalog

  // ---------------------------------------------------------------- clean_heroes

  /** `h.lower()` for every name of the list. */
  function LowerAll(xs: seq<string>): (r: seq<string>)
    ensures |r| == |xs|
    ensures forall i :: 0 <= i < |xs| ==> r[i] == Lower(xs[i])
  {
    seq(|xs|, i requires 0 <= i < |xs| => Lower(xs[i]))
  }

  /** Filtering keeps the relative order of first occurrences of the kept values. */
  lemma {:induction false} FilterInFirstIndex(s: seq<string>, keep: set<string>, x: string, y: string)
    requires x in keep && y in keep && x in s && y in s
    ensures x in FilterIn(s, keep) && y in FilterIn(s, keep)
    ensures FirstIndex(FilterIn(s, keep), x) < FirstIndex(FilterIn(s, keep), y)
        <==> FirstIndex(s, x) < FirstIndex(s, y)
  {
    var f := FilterIn(s, keep);
    assert s[FirstIndex(s, x)] == x && s[FirstIndex(s, y)] == y;
    if s[0] != x && s[0] != y {
      FilterInFirstIndex(s[1..], keep, x, y);
      if s[0] in keep {
        assert f == [s[0]] + FilterIn(s[1..], keep);
      } else {
        assert f == FilterIn(s[1..], keep);
      }
    } else {
      assert f == [s[0]] + FilterIn(s[1..], keep);
    }
  }

  /** `clean_heroes(raw_list, valid_heroes, max_len, role)`: lower-case every name, keep the
      catalog's names, each once in the order of its first valid occurrence, then cut to
      `max_len`. Rejected names are only printed. */
  function CleanHeroes(raw: seq<string>, valid: set<string>, maxLen: nat): (r: seq<string>)
    ensures |r| <= maxLen
    ensures NoDups(r)
    ensures forall i :: 0 <= i < |r| ==> r[i] in valid
    // exactly the first `max_len` distinct valid names, or all of them when there are fewer
    ensures var d := Dedupe(FilterIn(LowerAll(raw), valid));
      |r| == (if maxLen < |d| then maxLen else |d|) && r == d[..|r|]
    // when they fit, no valid name is lost
    ensures |Dedupe(FilterIn(LowerAll(raw), valid))| <= maxLen ==>
      forall j :: 0 <= j < |raw| && Lower(raw[j]) in valid ==> Lower(raw[j]) in r
  {
    var d := Dedupe(FilterIn(LowerAll(raw), valid));
    TakeNoDups(d, maxLen);
    Take(d, maxLen)
  }

  /** Every cleaned name is the lower-cased form of some raw name, and the cleaned names
      keep the order in which they first occur among the lower-cased raw names. */
  lemma CleanHeroesFromInput(raw: seq<string>, valid: set<string>, maxLen: nat)
    ensures var r := CleanHeroes(raw, valid, maxLen);
      && (forall i :: 0 <= i < |r| ==> exists j :: 0 <= j < |raw| && Lower(raw[j]) == r[i])
      && FirstOccurrenceOrder(r, LowerAll(raw))
  {
    var lowered := LowerAll(raw);
    var f := FilterIn(lowered, valid);
    var d := Dedupe(f);
    var r := CleanHeroes(raw, valid, maxLen);
    assert forall i :: 0 <= i < |r| ==> r[i] == d[i];
    forall i | 0 <= i < |r| ensures r[i] in lowered && exists j :: 0 <= j < |raw| && Lower(raw[j]) == r[i] {
      assert r[i] in f;
      var j := FirstIndex(lowered, r[i]);
      assert lowered[j] == Lower(raw[j]);
    }
    forall i, j | 0 <= i < j < |r| ensures FirstIndex(lowered, r[i]) < FirstIndex(lowered, r[j]) {
      assert r[i] in f && r[j] in f;
      FilterInFirstIndex(lowered, valid, r[i], r[j]);
    }
  }

  /** When the distinct catalog names fit under the cap, nothing valid is lost. */
  lemma CleanHeroesKeepsAllValid(raw: seq<string>, valid: set<string>, maxLen: nat)
    requires |Dedupe(FilterIn(LowerAll(raw), valid))| <= maxLen
    ensures forall j :: 0 <= j < |raw| && Lower(raw[j]) in valid ==> Lower(raw[j]) in CleanHeroes(raw, valid, maxLen)
  {
    var lowered := LowerAll(raw);
    var f := FilterIn(lowered, valid);
    assert CleanHeroes(raw, valid, maxLen) == Dedupe(f);
    forall j | 0 <= j < |raw| && Lower(raw[j]) in valid ensures Lower(raw[j]) in Dedupe(f) {
      assert lowered[j] == Lower(raw[j]);
      var k := FirstIndex(f, Lower(raw[j]));
    }
  }

  /** One iteration of the cleaning loop, on the de-duplicated valid prefix. */
  lemma CleanStep(xs: seq<string>, h: string, valid: set<string>)
    ensures var d := Dedupe(FilterIn(xs, valid));
            Dedupe(FilterIn(xs + [h], valid)) == if h in valid && h !in d then d + [h] else d
  {
    FilterInAppend(xs, [h], valid);
    var f := FilterIn(xs, valid);
    if h in valid {
      assert FilterIn([h], valid) == [h];
      var g := f + [h];
      assert g[..|g| - 1] == f;
    } else {
      assert FilterIn([h], valid) == [];
      assert f + [] == f;
    }
  }

  /** One iteration of the cleaning loop, stated on the raw prefix. */
  lemma CleanLoopStep(raw: seq<string>, i: nat, valid: set<string>)
    requires i < |raw|
    ensures var d := Dedupe(FilterIn(LowerAll(raw[..i]), valid));
            var h := Lower(raw[i]);
            Dedupe(FilterIn(LowerAll(raw[..i + 1]), valid)) == if h in valid && h !in d then d + [h] else d
  {
    LowerAllSnoc(raw, i);
    CleanStep(LowerAll(raw[..i]), Lower(raw[i]), valid);
  }

  // Lower-casing the first `i + 1` names appends the lower-cased name `i`.
  lemma LowerAllSnoc(raw: seq<string>, i: nat)
    requires i < |raw|
    ensures LowerAll(raw[..i + 1]) == LowerAll(raw[..i]) + [Lower(raw[i])]
  {
    var a := LowerAll(raw[..i + 1]);
    var b := LowerAll(raw[..i]) + [Lower(raw[i])];
    assert |a| == |b|;
    forall k | 0 <= k < |a| ensures a[k] == b[k] {
      if k < i {
        assert raw[..i + 1][k] == raw[..i][k];
      }
    }
  }

  /** The list the cleaning loop has built after its first `i` raw names. */
  function CleanedPrefix(raw: seq<string>, i: nat, valid: set<string>): seq<string>
    requires i <= |raw|
  {
    if i == 0 then []
    else
      var prev := CleanedPrefix(raw, i - 1, valid);
      var h := Lower(raw[i - 1]);
      if h in valid && h !in prev then prev + [h] else prev
  }

  /** The loop's running list is the de-duplicated valid prefix. */
  lemma {:induction false} CleanedPrefixIsDedupe(raw: seq<string>, i: nat, valid: set<string>)
    requires i <= |raw|
    ensures CleanedPrefix(raw, i, valid) == Dedupe(FilterIn(LowerAll(raw[..i]), valid))
  {
    if i == 0 {
      CleanedPrefixEmpty(raw, valid);
    } else {
      CleanedPrefixIsDedupe(raw, i - 1, valid);
      CleanedPrefixDedupeStep(raw, i - 1, valid);
    }
  }

  // One more name keeps the cleaning loop equal to filtering, then deduplicating.
  lemma CleanedPrefixDedupeStep(raw: seq<string>, j: nat, valid: set<string>)
    requires j < |raw|
    requires CleanedPrefix(raw, j, valid) == Dedupe(FilterIn(LowerAll(raw[..j]), valid))
    ensures CleanedPrefix(raw, j + 1, valid) == Dedupe(FilterIn(LowerAll(raw[..j + 1]), valid))
  {
    CleanLoopStep(raw, j, valid);
    CleanedPrefixStep(raw, j + 1, valid);
  }

  // Before any name is read, the loop and the reference both give the empty list.
  lemma CleanedPrefixEmpty(raw: seq<string>, valid: set<string>)
    ensures CleanedPrefix(raw, 0, valid) == Dedupe(FilterIn(LowerAll(raw[..0]), valid))
  {
    assert raw[..0] == [];
    assert LowerAll([]) == [];
  }

  // One iteration of the cleaning loop: the lower-cased name is kept when valid and new.
  lemma CleanedPrefixStep(raw: seq<string>, i: nat, valid: set<string>)
    requires 0 < i <= |raw|
    ensures var prev := CleanedPrefix(raw, i - 1, valid);
            var h := Lower(raw[i - 1]);
            CleanedPrefix(raw, i, valid) == if h in valid && h !in prev then prev + [h] else prev
  {
  }

  /** The loop of `clean_heroes`, statement by statement: it computes `CleanHeroes`. */
  method CleanHeroesLoop(raw: seq<string>, valid: set<string>, maxLen: nat) returns (r: seq<string>)
    ensures r == CleanHeroes(raw, valid, maxLen)
  {
    var cleaned: seq<string> := [];
    var i := 0;
    while i < |raw|
      invariant 0 <= i <= |raw|
      invariant cleaned == CleanedPrefix(raw, i, valid)
    {
      var hClean := Lower(raw[i]);
      if hClean in valid {
        if hClean !in cleaned {
          cleaned := cleaned + [hClean];
        }
      }
      i := i + 1;
    }
    CleanedPrefixIsDedupe(raw, |raw|, valid);
    assert raw[..|raw|] == raw;
    r := Take(cleaned, maxLen);
  }

  // ---------------------------------------------------------------- recommend_by_meta

  /** `role_map`: the catalog role tag each draft role is looked up under. */
  const RoleTags: map<string, string> := map[
    "mid" := "Midlaner",
    "safelane" := "Carry",
    "offlane" := "Offlaner",
    "support" := "Support",
    "hard support" := "Hard Support"]

  /** `role_map.get(user_role.lower(), user_role.lower())`. */
  function TargetRole(userRole: string): (t: string)
    ensures Lower(userRole) in RoleTags ==> t == RoleTags[Lower(userRole)]
    ensures Lower(userRole) !in RoleTags ==> t == Lower(userRole)
  {
    var k := Lower(userRole);
    if k in RoleTags then RoleTags[k] else k
  }

  /** A hero entry lists the target tag among its roles, ignoring case; missing roles are `[]`. */
  predicate HasRole(info: MetaValue, target: string)
    requires info.HeroStats?
  {
    Lower(target) in LowerAll(info.roles.GetOr([]))
  }

  function Reason(userRole: string): string {
    "Топ по винрейту для роли " + userRole
  }

  /** The suggestion built from one meta entry; a missing win rate scores 0. */
  function Suggest(name: string, info: MetaValue, userRole: string): HeroSuggestion
    requires info.HeroStats?
  {
    HeroSuggestion(name, info.winrate.GetOr(0.0), Some(Reason(userRole)))
  }

  /** The meta entry at `i` is a hero of the target role that is not excluded. */
  predicate Eligible(meta: Meta, excluded: set<string>, userRole: string, i: int)
    requires 0 <= i < |meta|
  {
    meta[i].0 !in excluded && meta[i].1.HeroStats? && HasRole(meta[i].1, TargetRole(userRole))
  }

  /** The meta entry at `i` is neither excluded nor a hero entry: reading its roles raises. */
  predicate Breaks(meta: Meta, excluded: set<string>, i: int)
    requires 0 <= i < |meta|
  {
    meta[i].0 !in excluded && meta[i].1.Timestamp?
  }

  /** The suggestion is the one some eligible meta entry yields. */
  ghost predicate FromEligible(meta: Meta, excluded: set<string>, userRole: string, s: HeroSuggestion) {
    exists i :: 0 <= i < |meta| && Eligible(meta, excluded, userRole, i)
      && s == Suggest(meta[i].0, meta[i].1, userRole)
  }

  const NoGetOnStr := "'str' object has no attribute 'get'"

  /** The loop of `recommend_by_meta`: in meta order, skip excluded names and keep the
      entries of the target role. Calling `.get` on a non-excluded timestamp string raises. */
  function Candidates(userRole: string, excluded: set<string>, meta: Meta): (r: Result<seq<HeroSuggestion>>)
    ensures r.Raised? ==> r.exc == AttributeError(NoGetOnStr)
  {
    if meta == [] then Ok([])
    else
      var name := meta[0].0;
      var info := meta[0].1;
      var rest := Candidates(userRole, excluded, meta[1..]);
      if name in excluded then rest
      else if info.Timestamp? then Raised(AttributeError(NoGetOnStr))
      else if rest.Raised? then rest
      else if HasRole(info, TargetRole(userRole)) then Ok([Suggest(name, info, userRole)] + rest.value)
      else rest
  }

  /** The walk fails exactly when some entry that is not excluded is the timestamp string. */
  lemma {:induction false} CandidatesRaisesIff(userRole: string, excluded: set<string>, meta: Meta)
    ensures Candidates(userRole, excluded, meta).Raised?
        <==> exists i :: 0 <= i < |meta| && Breaks(meta, excluded, i)
  {
    if meta != [] {
      var tail := meta[1..];
      CandidatesRaisesIff(userRole, excluded, tail);
      assert forall i :: 1 <= i < |meta| ==> meta[i] == tail[i - 1];
      if Breaks(meta, excluded, 0) {
        assert Candidates(userRole, excluded, meta).Raised?;
      } else {
        if exists i :: 0 <= i < |tail| && Breaks(tail, excluded, i) {
          var i :| 0 <= i < |tail| && Breaks(tail, excluded, i);
          assert Breaks(meta, excluded, i + 1);
        }
        if exists i :: 0 <= i < |meta| && Breaks(meta, excluded, i) {
          var i :| 0 <= i < |meta| && Breaks(meta, excluded, i);
          assert i != 0;
          assert Breaks(tail, excluded, i - 1);
        }
      }
    }
  }

  /** Every candidate is the suggestion of an eligible meta entry. */
  lemma {:induction false} CandidatesSound(userRole: string, excluded: set<string>, meta: Meta)
    requires Candidates(userRole, excluded, meta).Ok?
    ensures forall k :: 0 <= k < |Candidates(userRole, excluded, meta).value| ==>
              FromEligible(meta, excluded, userRole, Candidates(userRole, excluded, meta).value[k])
  {
    if meta != [] {
      var tail := meta[1..];
      var c := Candidates(userRole, excluded, meta).value;
      assert Candidates(userRole, excluded, tail).Ok?;
      CandidatesSound(userRole, excluded, tail);
      var rest := Candidates(userRole, excluded, tail).value;
      assert forall i :: 1 <= i < |meta| ==> meta[i] == tail[i - 1];
      var prepended := meta[0].0 !in excluded && meta[0].1.HeroStats?
                       && HasRole(meta[0].1, TargetRole(userRole));
      if prepended {
        assert c == [Suggest(meta[0].0, meta[0].1, userRole)] + rest;
      } else {
        assert c == rest;
      }
      forall k | 0 <= k < |c| ensures FromEligible(meta, excluded, userRole, c[k]) {
        if prepended && k == 0 {
          assert Eligible(meta, excluded, userRole, 0);
        } else {
          var k' := if prepended then k - 1 else k;
          assert c[k] == rest[k'];
          assert FromEligible(tail, excluded, userRole, rest[k']);
          var i :| 0 <= i < |tail| && Eligible(tail, excluded, userRole, i)
                   && rest[k'] == Suggest(tail[i].0, tail[i].1, userRole);
          assert Eligible(meta, excluded, userRole, i + 1);
        }
      }
    }
  }

  /** Every eligible meta entry yields a candidate. */
  lemma {:induction false} CandidatesComplete(userRole: string, excluded: set<string>, meta: Meta)
    requires Candidates(userRole, excluded, meta).Ok?
    ensures forall i :: 0 <= i < |meta| && Eligible(meta, excluded, userRole, i) ==>
              Suggest(meta[i].0, meta[i].1, userRole) in Candidates(userRole, excluded, meta).value
  {
    if meta != [] {
      var tail := meta[1..];
      var c := Candidates(userRole, excluded, meta).value;
      assert Candidates(userRole, excluded, tail).Ok?;
      CandidatesComplete(userRole, excluded, tail);
      var rest := Candidates(userRole, excluded, tail).value;
      assert forall i :: 1 <= i < |meta| ==> meta[i] == tail[i - 1];
      if Eligible(meta, excluded, userRole, 0) {
        assert c == [Suggest(meta[0].0, meta[0].1, userRole)] + rest;
      } else {
        assert c == rest;
      }
      forall i | 0 <= i < |meta| && Eligible(meta, excluded, userRole, i)
        ensures Suggest(meta[i].0, meta[i].1, userRole) in c
      {
        if i > 0 {
          assert Eligible(tail, excluded, userRole, i - 1);
          assert Suggest(tail[i - 1].0, tail[i - 1].1, userRole) in rest;
        }
      }
    }
  }

  /** The sort key of `sorted(..., key=score, reverse=True)`, as an ascending key. */
  function NegScore(s: HeroSuggestion): real {
    -s.score
  }

  /** How many suggestions `recommend_by_meta` keeps. */
  const TopCount: nat := 3

  /** The ranking step of `recommend_by_meta`: the candidates sorted best score first,
      keeping meta order among equal scores, cut to three. */
  function Ranked(cands: seq<HeroSuggestion>): (r: seq<HeroSuggestion>)
    ensures |r| == if TopCount < |cands| then TopCount else |cands|
    ensures r == SortBy(cands, NegScore)[..|r|]
  {
    SortBy(cands, NegScore)[..if TopCount < |cands| then TopCount else |cands|]
  }

  /** The ranking keeps only candidates, best score first. */
  lemma RankedFromCandidates(cands: seq<HeroSuggestion>)
    ensures forall k :: 0 <= k < |Ranked(cands)| ==> Ranked(cands)[k] in cands
    ensures forall j, k :: 0 <= j < k < |Ranked(cands)| ==> Ranked(cands)[j].score >= Ranked(cands)[k].score
  {
    var sorted := SortBy(cands, NegScore);
    var top := Ranked(cands);
    SortByMembers(cands, NegScore);
    forall j, k | 0 <= j < k < |top| ensures top[j].score >= top[k].score {
      assert NegScore(sorted[j]) <= NegScore(sorted[k]);
    }
  }

  /** A candidate left out of the ranking scores no higher than any kept one, and is left
      out only when all three places are taken. */
  lemma RankedIsTop(cands: seq<HeroSuggestion>, x: HeroSuggestion)
    requires x in cands && x !in Ranked(cands)
    ensures |Ranked(cands)| == TopCount
    ensures forall k :: 0 <= k < |Ranked(cands)| ==> x.score <= Ranked(cands)[k].score
  {
    var r := Ranked(cands);
    var sorted := SortBy(cands, NegScore);
    SortedPrefixIsLeast(cands, NegScore, TopCount, x);
    forall k | 0 <= k < |r| ensures x.score <= r[k].score {
      assert r[k] == sorted[k];
      assert NegScore(sorted[k]) <= NegScore(x);
    }
  }

  /** Among candidates of one score, the ranking keeps a prefix in candidate order. */
  lemma RankedKeepsTies(cands: seq<HeroSuggestion>, score: real)
    ensures var all := KeyFilter(cands, NegScore, -score);
            var kept := KeyFilter(Ranked(cands), NegScore, -score);
            |kept| <= |all| && kept == all[..|kept|]
  {
    SortedPrefixKeepsTies(cands, NegScore, |Ranked(cands)|, -score);
  }

  /** `recommend_by_meta(user_role, excluded, meta)`: the eligible heroes, best score first,
      cut to three; or the AttributeError a non-excluded timestamp entry raises. */
  function RecommendByMeta(userRole: string, excluded: set<string>, meta: Meta): (r: Result<seq<HeroSuggestion>>)
    ensures r.Raised? <==> exists i :: 0 <= i < |meta| && Breaks(meta, excluded, i)
    ensures r.Raised? ==> r.exc == AttributeError(NoGetOnStr)
    ensures r.Ok? ==> |r.value| <= TopCount
    ensures r.Ok? ==> forall k :: 0 <= k < |r.value| ==> FromEligible(meta, excluded, userRole, r.value[k])
    ensures r.Ok? ==> forall k :: 0 <= k < |r.value| ==> r.value[k].name !in excluded
    ensures r.Ok? ==> forall j, k :: 0 <= j < k < |r.value| ==> r.value[j].score >= r.value[k].score
  {
    CandidatesRaisesIff(userRole, excluded, meta);
    match Candidates(userRole, excluded, meta)
    case Raised(e) => Raised(e)
    case Ok(cands) =>
      CandidatesSound(userRole, excluded, meta);
      RankedFromCandidates(cands);
      Ok(Ranked(cands))
  }

  /** The ranking is the stable best-first sort of the candidates, cut to three. */
  lemma RecommendByMetaIsSortedCut(userRole: string, excluded: set<string>, meta: Meta)
    requires RecommendByMeta(userRole, excluded, meta).Ok?
    ensures Candidates(userRole, excluded, meta).Ok?
    ensures RecommendByMeta(userRole, excluded, meta).value == Ranked(Candidates(userRole, excluded, meta).value)
  {
  }

  /** The kept suggestions are the best: an eligible hero left out has a score no higher
      than any kept one, and is left out only when all three places are taken. */
  lemma RecommendByMetaIsTop(userRole: string, excluded: set<string>, meta: Meta, i: nat)
    requires RecommendByMeta(userRole, excluded, meta).Ok?
    requires i < |meta| && Eligible(meta, excluded, userRole, i)
    requires Suggest(meta[i].0, meta[i].1, userRole) !in RecommendByMeta(userRole, excluded, meta).value
    ensures var top := RecommendByMeta(userRole, excluded, meta).value;
            |top| == TopCount
            && forall k :: 0 <= k < |top| ==> meta[i].1.winrate.GetOr(0.0) <= top[k].score
  {
    RecommendByMetaIsSortedCut(userRole, excluded, meta);
    CandidatesComplete(userRole, excluded, meta);
    RankedIsTop(Candidates(userRole, excluded, meta).value, Suggest(meta[i].0, meta[i].1, userRole));
  }

  /** Ties keep meta order: the kept suggestions of any one score are a prefix of the
      eligible heroes with that score, in meta iteration order. */
  lemma RecommendByMetaKeepsTies(userRole: string, excluded: set<string>, meta: Meta, score: real)
    requires RecommendByMeta(userRole, excluded, meta).Ok?
    ensures var all := KeyFilter(Candidates(userRole, excluded, meta).value, NegScore, -score);
            var kept := KeyFilter(RecommendByMeta(userRole, excluded, meta).value, NegScore, -score);
            |kept| <= |all| && kept == all[..|kept|]
  {
    RecommendByMetaIsSortedCut(userRole, excluded, meta);
    RankedKeepsTies(Candidates(userRole, excluded, meta).value, score);
  }

  // ---------------------------------------------------------------- generate_recommendation

  const StartingItems: seq<string> := ["tango", "branches", "circlet"]
  const BuildEasy: seq<string> := ["boots", "witch_blade", "aghanims_scepter"]
  const BuildEven: seq<string> := ["boots", "kaya", "bkb"]
  const BuildHard: seq<string> := ["boots", "euls", "ghost_scepter"]

  const MaxEnemies: nat := 5
  const MaxAllies: nat := 4

  /** The warning sign the no-match warning starts with. */
  const WarningSign := "⚠️"
  const NoMatchWarning := WarningSign + " Не удалось подобрать героев по роли и мета-данным."

  function UnknownHeroWarning(hero: string): string {
    "Ваш герой '" + hero + "' не найден в базе. Игнорируется."
  }

  /** The user's hero after the catalog check: lower-cased, or absent when it was
      absent, empty or unknown. */
  function CheckedUserHero(hero: Option<string>, valid: set<string>): (h: Option<string>)
    ensures h.Some? <==> NonEmpty(hero) && Lower(hero.value) in valid
    ensures h.Some? ==> h.value == Lower(hero.value) && h.value in valid && h.value != ""
  {
    if NonEmpty(hero) && Lower(hero.value) in valid then Some(Lower(hero.value)) else None
  }

  /** `excluded_heroes`: the cleaned enemies and allies, and the checked user hero. */
  function ExcludedHeroes(enemies: seq<string>, allies: seq<string>, hero: Option<string>): (ex: set<string>)
    ensures forall x :: x in ex <==> x in enemies || x in allies || (hero.Some? && x == hero.value)
  {
    (set x | x in enemies + allies) + (if hero.Some? then {hero.value} else {})
  }

  /** `generate_recommendation(draft)`, with both catalog files as inputs. */
  function GenerateRecommendation(draft: DraftInput, files: CatalogFiles): (r: Result<RecommendationResponse>)
    ensures files.heroes.Missing? ==> r.Raised? && r.exc.FileNotFoundError?
    ensures files.heroes.Present? && files.meta.Missing? ==> r.Raised? && r.exc.FileNotFoundError?
    ensures r.Ok? ==> files.heroes.Present? && files.meta.Present?
    ensures r.Ok? ==> |r.value.suggestedHeroes| <= TopCount && |r.value.laneOpponents| <= 2
    ensures r.Ok? ==> |r.value.warnings| <= 2
    ensures r.Ok? ==> r.value.startingItems == StartingItems && r.value.buildEasy == BuildEasy
                      && r.value.buildEven == BuildEven && r.value.buildHard == BuildHard
  {
    match LoadValidHeroes(files.heroes)
    case Raised(e) => Raised(e)
    case Ok(valid) =>
      match LoadMetaData(files.meta)
      case Raised(e) => Raised(e)
      case Ok(meta) =>
        var cleanEnemy := CleanHeroes(draft.enemyHeroes, valid, MaxEnemies);
        var cleanAlly := CleanHeroes(draft.allyHeroes, valid, MaxAllies);
        var hero := CheckedUserHero(draft.userHero, valid);
        var heroWarnings := if NonEmpty(draft.userHero) && hero.None?
                            then [UnknownHeroWarning(Lower(draft.userHero.value))] else [];
        var excluded := ExcludedHeroes(cleanEnemy, cleanAlly, hero);
        if hero.Some? then
          Ok(RecommendationResponse([], Take(cleanEnemy, 2), StartingItems, BuildEasy, BuildEven,
                                    BuildHard, heroWarnings))
        else
          match RecommendByMeta(RoleName(draft.userRole), excluded, meta)
          case Raised(e) => Raised(e)
          case Ok(suggestions) =>
            var warnings := heroWarnings + (if suggestions == [] then [NoMatchWarning] else []);
            Ok(RecommendationResponse(suggestions, Take(cleanEnemy, 2), StartingItems, BuildEasy,
                                      BuildEven, BuildHard, warnings))
  }

  /** The two warnings can never be confused. */
  lemma WarningsDiffer(hero: string)
    ensures UnknownHeroWarning(hero) != NoMatchWarning
  {
    assert UnknownHeroWarning(hero)[0] == 'В';
    assert NoMatchWarning[0] == '⚠';
  }

  /** The error cases: a catalog file that is missing or malformed, or, when no valid user
      hero is given, a non-excluded timestamp entry in the meta map. */
  lemma GenerateRecommendationRaises(draft: DraftInput, files: CatalogFiles)
    ensures (!files.heroes.Present? || !files.meta.Present?) ==> GenerateRecommendation(draft, files).Raised?
    ensures (files.heroes.Present? && files.meta.Present?
             && CheckedUserHero(draft.userHero, LoadValidHeroes(files.heroes).value).Some?)
            ==> GenerateRecommendation(draft, files).Ok?
    ensures (files.heroes.Present? && files.meta.Present?
             && forall i :: 0 <= i < |files.meta.content| ==> files.meta.content[i].1.HeroStats?)
            ==> GenerateRecommendation(draft, files).Ok?
  {
    if files.heroes.Present? && files.meta.Present? {
      var valid := LoadValidHeroes(files.heroes).value;
      var meta := files.meta.content;
      var cleanEnemy := CleanHeroes(draft.enemyHeroes, valid, MaxEnemies);
      var cleanAlly := CleanHeroes(draft.allyHeroes, valid, MaxAllies);
      var hero := CheckedUserHero(draft.userHero, valid);
      var excluded := ExcludedHeroes(cleanEnemy, cleanAlly, hero);
      if forall i :: 0 <= i < |meta| ==> meta[i].1.HeroStats? {
        assert forall i :: 0 <= i < |meta| ==> !Breaks(meta, excluded, i);
      }
    }
  }

  /** The cleaned enemies and allies, as `generate_recommendation` computes them. */
  function CleanEnemy(draft: DraftInput, files: CatalogFiles): seq<string>
    requires files.heroes.Present?
  {
    CleanHeroes(draft.enemyHeroes, LoadValidHeroes(files.heroes).value, MaxEnemies)
  }

  function CleanAlly(draft: DraftInput, files: CatalogFiles): seq<string>
    requires files.heroes.Present?
  {
    CleanHeroes(draft.allyHeroes, LoadValidHeroes(files.heroes).value, MaxAllies)
  }

  function UserHero(draft: DraftInput, files: CatalogFiles): Option<string>
    requires files.heroes.Present?
  {
    CheckedUserHero(draft.userHero, LoadValidHeroes(files.heroes).value)
  }

  /** With a valid user hero there are no suggestions and no no-match warning. */
  lemma GenerateRecommendationWithHero(draft: DraftInput, files: CatalogFiles)
    requires GenerateRecommendation(draft, files).Ok?
    ensures files.heroes.Present? && files.meta.Present?
    ensures UserHero(draft, files).Some? ==>
              GenerateRecommendation(draft, files).value.suggestedHeroes == []
              && NoMatchWarning !in GenerateRecommendation(draft, files).value.warnings
  {
    if UserHero(draft, files).Some? && NonEmpty(draft.userHero) {
      WarningsDiffer(Lower(draft.userHero.value));
    }
  }

  /** Without a valid user hero, the suggestions are the meta ranking with every cleaned enemy
      and ally excluded, and the no-match warning is given exactly when that ranking is empty. */
  lemma GenerateRecommendationWithoutHero(draft: DraftInput, files: CatalogFiles)
    requires GenerateRecommendation(draft, files).Ok?
    ensures files.heroes.Present? && files.meta.Present?
    ensures var resp := GenerateRecommendation(draft, files).value;
            UserHero(draft, files).None? ==>
              RecommendByMeta(RoleName(draft.userRole),
                              ExcludedHeroes(CleanEnemy(draft, files), CleanAlly(draft, files), None),
                              files.meta.content) == Ok(resp.suggestedHeroes)
              && (NoMatchWarning in resp.warnings <==> resp.suggestedHeroes == [])
  {
    if UserHero(draft, files).None? && NonEmpty(draft.userHero) {
      WarningsDiffer(Lower(draft.userHero.value));
    }
  }

  /** Without a valid user hero, whatever the meta ranking raises is what the
      recommendation raises. */
  lemma GenerateRecommendationRankingRaises(draft: DraftInput, files: CatalogFiles)
    requires files.heroes.Present? && files.meta.Present? && UserHero(draft, files).None?
    ensures var ranked := RecommendByMeta(RoleName(draft.userRole),
                            ExcludedHeroes(CleanEnemy(draft, files), CleanAlly(draft, files), None),
                            files.meta.content);
            ranked.Raised? ==> GenerateRecommendation(draft, files) == Raised(ranked.exc)
    ensures var ranked := RecommendByMeta(RoleName(draft.userRole),
                            ExcludedHeroes(CleanEnemy(draft, files), CleanAlly(draft, files), None),
                            files.meta.content);
            ranked.Ok? ==> GenerateRecommendation(draft, files).Ok?
  {
  }

  /** No suggested hero is one of the cleaned enemies or allies, and the lane opponents are
      the first two cleaned enemies. */
  lemma GenerateRecommendationExcludesDraft(draft: DraftInput, files: CatalogFiles)
    requires GenerateRecommendation(draft, files).Ok?
    ensures files.heroes.Present? && files.meta.Present?
    ensures var resp := GenerateRecommendation(draft, files).value;
            forall k :: 0 <= k < |resp.suggestedHeroes| ==>
              resp.suggestedHeroes[k].name !in CleanEnemy(draft, files)
              && resp.suggestedHeroes[k].name !in CleanAlly(draft, files)
    ensures var resp := GenerateRecommendation(draft, files).value;
            |resp.laneOpponents| == (if |CleanEnemy(draft, files)| < 2 then |CleanEnemy(draft, files)| else 2)
            && resp.laneOpponents == CleanEnemy(draft, files)[..|resp.laneOpponents|]
  {
  }

  /** The unknown-hero warning is given exactly when a non-empty user hero is not in the
      catalog; it comes first and names the hero in lower case. */
  lemma GenerateRecommendationUnknownHero(draft: DraftInput, files: CatalogFiles)
    requires GenerateRecommendation(draft, files).Ok?
    ensures files.heroes.Present?
    ensures var resp := GenerateRecommendation(draft, files).value;
            (NonEmpty(draft.userHero) && Lower(draft.userHero.value) !in LoadValidHeroes(files.heroes).value)
            <==> (|resp.warnings| >= 1 && resp.warnings[0] == UnknownHeroWarning(Lower(draft.userHero.GetOr(""))))
  {
    WarningsDiffer(Lower(draft.userHero.GetOr("")));
  }

  /** The warnings a successful recommendation carries, from the user hero as given, the
      catalog, and the suggestions made. */
  function ExpectedWarnings(hero: Option<string>, valid: set<string>, suggestions: seq<HeroSuggestion>): seq<string> {
    (if NonEmpty(hero) && Lower(hero.value) !in valid then [UnknownHeroWarning(Lower(hero.value))] else [])
    + (if CheckedUserHero(hero, valid).None? && suggestions == [] then [NoMatchWarning] else [])
  }

  /** The warnings are determined by the user hero and the suggestions alone. */
  lemma GenerateRecommendationWarnings(draft: DraftInput, files: CatalogFiles)
    requires GenerateRecommendation(draft, files).Ok?
    ensures files.heroes.Present?
    ensures var resp := GenerateRecommendation(draft, files).value;
            resp.warnings == ExpectedWarnings(draft.userHero, LoadValidHeroes(files.heroes).value, resp.suggestedHeroes)
  {
  }

  /** Unrecognised enemy or ally names are only printed: every warning is the unknown-hero
      warning or the no-match warning. */
  lemma ListHeroesOnlyPrinted(draft: DraftInput, files: CatalogFiles)
    requires GenerateRecommendation(draft, files).Ok?
    ensures var w := GenerateRecommendation(draft, files).value.warnings;
            forall k :: 0 <= k < |w| ==>
              w[k] == UnknownHeroWarning(Lower(draft.userHero.GetOr(""))) || w[k] == NoMatchWarning
  {
    GenerateRecommendationWarnings(draft, files);
    ExpectedWarningsKnown(draft.userHero, LoadValidHeroes(files.heroes).value,
                          GenerateRecommendation(draft, files).value.suggestedHeroes);
  }

  /** Each expected warning is one of the two known texts. */
  lemma ExpectedWarningsKnown(hero: Option<string>, valid: set<string>, suggestions: seq<HeroSuggestion>)
    ensures var w := ExpectedWarnings(hero, valid, suggestions);
            forall k :: 0 <= k < |w| ==> w[k] == UnknownHeroWarning(Lower(hero.GetOr(""))) || w[k] == NoMatchWarning
  {
  }

  /** Other enemy and ally lists that lead to the same suggestions give the same warnings. */
  lemma WarningsIgnoreHeroLists(draft: DraftInput, other: DraftInput, files: CatalogFiles)
    requires other.userHero == draft.userHero
    requires GenerateRecommendation(draft, files).Ok? && GenerateRecommendation(other, files).Ok?
    requires GenerateRecommendation(other, files).value.suggestedHeroes
             == GenerateRecommendation(draft, files).value.suggestedHeroes
    ensures GenerateRecommendation(other, files).value.warnings
            == GenerateRecommendation(draft, files).value.warnings
  {
    GenerateRecommendationWarnings(draft, files);
    GenerateRecommendationWarnings(other, files);
  }
}
