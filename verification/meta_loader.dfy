/** `services/meta_loader.py`: the refresh job that turns the OpenDota hero statistics into
    the meta map `services/logic.py` ranks by. The HTTP request, the clock and the file write
    are inputs and outputs: the fetch outcome and the current time are arguments, and the
    meta file after the run is the result. `round(x, 3)` is a parameter, as floating-point
    rounding is not modelled. */
module MetaLoader {
  import opened Outcomes
  import opened PyStr
  import opened Seqs
  import opened OrderedDict
  import opened StableSort
  import opened Catalog

  const HeroPrefix := "npc_dota_hero_"
  const LastUpdatedKey := "_last_updated"

  /** One item of the `heroStats` reply; an absent field is `None`, and a JSON null is taken as absent. */
  datatype RawHero = RawHero(name: Option<string>, localizedName: Option<string>, roles: Option<seq<string>>,
                             proWin: Option<real>, proPick: Option<real>, proBan: Option<real>)

  /** `hero["name"].lower().removeprefix("npc_dota_hero_")`. */
  function ShortName(name: string): (r: string)
    ensures StartsWith(Lower(name), HeroPrefix) ==> HeroPrefix + r == Lower(name)
    ensures !StartsWith(Lower(name), HeroPrefix) ==> r == Lower(name)
    ensures forall i :: 0 <= i < |r| ==> !IsUpper(r[i])
  {
    RemovePrefix(Lower(name), HeroPrefix)
  }

  /** `hero.get("pro_pick")` is truthy: present and non-zero. */
  predicate Picked(h: RawHero) {
    h.proPick.Some? && h.proPick.value != 0.0
  }

  /** The item can be transformed: it has a name, and a picked hero has a win count. */
  predicate Transformable(h: RawHero) {
    h.name.Some? && (Picked(h) ==> h.proWin.Some?)
  }

  /** The pair `result[short] = {...}` assigns for one item, or the `KeyError` of a missing
      `name`, or of a missing `pro_win` on a picked hero. */
  function HeroEntry(h: RawHero, round3: real -> real): (r: Result<(string, MetaValue)>)
    ensures r.Ok? <==> Transformable(h)
    ensures r.Raised? ==> r.exc.KeyError?
    ensures r.Ok? ==> r.value.0 == ShortName(h.name.value) && r.value.1.HeroStats?
    ensures r.Ok? ==> r.value.1.localizedName == Some(h.localizedName.GetOr(r.value.0))
    ensures r.Ok? ==> r.value.1.roles == Some(h.roles.GetOr([]))
    ensures r.Ok? && !Picked(h) ==> r.value.1.winrate == Some(0.0)
    ensures r.Ok? && Picked(h) ==> r.value.1.winrate == Some(round3(h.proWin.value / h.proPick.value))
    ensures r.Ok? ==> r.value.1.pickRate == Some(round3(h.proPick.GetOr(0.0) / 1000.0))
    ensures r.Ok? ==> r.value.1.banRate == Some(round3(h.proBan.GetOr(0.0) / 1000.0))
  {
    match h.name
    case None => Raised(KeyError("'name'"))
    case Some(name) =>
      var short := ShortName(name);
      if Picked(h) && h.proWin.None? then Raised(KeyError("'pro_win'"))
      else
        var winrate := if Picked(h) then round3(h.proWin.value / h.proPick.value) else 0.0;
        Ok((short, HeroStats(Some(h.localizedName.GetOr(short)), Some(h.roles.GetOr([])), Some(winrate),
                             Some(round3(h.proPick.GetOr(0.0) / 1000.0)),
                             Some(round3(h.proBan.GetOr(0.0) / 1000.0)))))
  }

  /** The pairs the loop assigns, in order; the first item that cannot be transformed raises. */
  function EntryPairs(raw: seq<RawHero>, round3: real -> real): (r: Result<seq<(string, MetaValue)>>)
    ensures r.Raised? ==> r.exc.KeyError?
    ensures r.Ok? ==> |r.value| == |raw| && forall i :: 0 <= i < |raw| ==> HeroEntry(raw[i], round3) == Ok(r.value[i])
  {
    if raw == [] then Ok([])
    else
      match HeroEntry(raw[0], round3)
      case Raised(e) => Raised(e)
      case Ok(kv) =>
        match EntryPairs(raw[1..], round3)
        case Raised(e) => Raised(e)
        case Ok(rest) =>
          assert forall i :: 1 <= i < |raw| ==> raw[i] == raw[1..][i - 1];
          Ok([kv] + rest)
  }

  /** The loop fails exactly when some item cannot be transformed. */
  lemma {:induction false} EntryPairsRaisesIff(raw: seq<RawHero>, round3: real -> real)
    ensures EntryPairs(raw, round3).Ok? <==> forall i :: 0 <= i < |raw| ==> Transformable(raw[i])
  {
    if raw != [] {
      EntryPairsRaisesIff(raw[1..], round3);
      assert forall i :: 1 <= i < |raw| ==> raw[i] == raw[1..][i - 1];
      if !Transformable(raw[0]) {
        assert !HeroEntry(raw[0], round3).Ok?;
      }
    }
  }

  /** The sort key: `-winrate`; the timestamp never takes part in the sort. */
  function NegWinrate(p: (string, MetaValue)): real {
    if p.1.HeroStats? then -p.1.winrate.GetOr(0.0) else 0.0
  }

  /** `dict(sorted(result.items(), key=lambda x: -x[1]["winrate"]))`. */
  function SortedHeroes(d: Dict<string, MetaValue>): Dict<string, MetaValue> {
    FromPairs(SortBy(d, NegWinrate))
  }

  /** The dict rebuilt from the sorted items is the sorted items themselves. */
  lemma SortedHeroesIsSort(d: Dict<string, MetaValue>)
    requires KeysDistinct(d)
    ensures SortedHeroes(d) == SortBy(d, NegWinrate)
  {
    PermutedKeepsDistinct(d, SortBy(d, NegWinrate));
    FromPairsOfDistinct(SortBy(d, NegWinrate));
  }

  /** `transform_heroes(raw_heroes)` at time `now`. */
  function TransformHeroes(raw: seq<RawHero>, round3: real -> real, now: string): (r: Result<Meta>)
    ensures r.Ok? <==> forall i :: 0 <= i < |raw| ==> Transformable(raw[i])
    ensures r.Raised? ==> r.exc.KeyError?
    ensures r.Ok? ==> KeysDistinct(r.value) && Get(r.value, LastUpdatedKey) == Some(Timestamp(now))
  {
    EntryPairsRaisesIff(raw, round3);
    match EntryPairs(raw, round3)
    case Raised(e) => Raised(e)
    case Ok(ps) =>
      var sorted := SortedHeroes(FromPairs(ps));
      SetKeepsDistinct(sorted, LastUpdatedKey, Timestamp(now));
      Ok(Set(sorted, LastUpdatedKey, Timestamp(now)))
  }

  /** The hero dict before the timestamp is added, for a list that transforms. */
  function Heroes(raw: seq<RawHero>, round3: real -> real): Dict<string, MetaValue>
    requires EntryPairs(raw, round3).Ok?
  {
    SortBy(FromPairs(EntryPairs(raw, round3).value), NegWinrate)
  }

  /** No item's short name is the timestamp key. */
  predicate NoTimestampName(raw: seq<RawHero>) {
    forall i :: 0 <= i < |raw| && raw[i].name.Some? ==> ShortName(raw[i].name.value) != LastUpdatedKey
  }

  /** The result is the hero dict followed by the timestamp, as long as no hero is called
      `_last_updated`; the hero entries are in non-increasing win-rate order. */
  lemma TransformHeroesShape(raw: seq<RawHero>, round3: real -> real, now: string)
    requires TransformHeroes(raw, round3, now).Ok? && NoTimestampName(raw)
    ensures EntryPairs(raw, round3).Ok?
    ensures TransformHeroes(raw, round3, now).value == Heroes(raw, round3) + [(LastUpdatedKey, Timestamp(now))]
    ensures forall i, j :: 0 <= i < j < |Heroes(raw, round3)| ==>
              NegWinrate(Heroes(raw, round3)[i]) <= NegWinrate(Heroes(raw, round3)[j])
  {
    EntryPairsRaisesIff(raw, round3);
    var d := FromPairs(EntryPairs(raw, round3).value);
    SortedHeroesIsSort(d);
    var sorted := SortBy(d, NegWinrate);
    NoTimestampKey(raw, round3);
    PermutedKeys(d, sorted, LastUpdatedKey);
    SetAppends(sorted, LastUpdatedKey, Timestamp(now));
  }

  /** Without a hero called `_last_updated`, the hero dict has no such key. */
  lemma NoTimestampKey(raw: seq<RawHero>, round3: real -> real)
    requires EntryPairs(raw, round3).Ok? && NoTimestampName(raw)
    ensures LastUpdatedKey !in Keys(FromPairs(EntryPairs(raw, round3).value))
  {
    var ps := EntryPairs(raw, round3).value;
    var ks := Keys(ps);
    forall j | 0 <= j < |ks| ensures ks[j] != LastUpdatedKey {
      assert HeroEntry(raw[j], round3) == Ok(ps[j]);
    }
  }

  /** Ties keep insertion order: the heroes with one win rate appear in the order in which
      their names were first assigned. */
  lemma TransformHeroesKeepsTies(raw: seq<RawHero>, round3: real -> real, v: real)
    requires EntryPairs(raw, round3).Ok?
    ensures KeyFilter(Heroes(raw, round3), NegWinrate, v)
         == KeyFilter(FromPairs(EntryPairs(raw, round3).value), NegWinrate, v)
  {
    SortByStable(FromPairs(EntryPairs(raw, round3).value), NegWinrate, v);
  }

  /** Every item's short name is a key of the result, holding the entry of the last item with
      that name (a later duplicate overwrites an earlier one), unless the name is
      `_last_updated`, which the timestamp overwrites. */
  lemma TransformHeroesGet(raw: seq<RawHero>, round3: real -> real, now: string, k: string)
    requires TransformHeroes(raw, round3, now).Ok? && k != LastUpdatedKey
    ensures EntryPairs(raw, round3).Ok?
    ensures Get(TransformHeroes(raw, round3, now).value, k) == LastValue(EntryPairs(raw, round3).value, k)
  {
    EntryPairsRaisesIff(raw, round3);
    var ps := EntryPairs(raw, round3).value;
    var d := FromPairs(ps);
    var sorted := SortBy(d, NegWinrate);
    SortedHeroesIsSort(d);
    SetOther(sorted, LastUpdatedKey, Timestamp(now), k);
    PermutedGet(d, sorted, k);
    FromPairsGet(ps, k);
  }

  /** Each item of the reply is found in the result under its short name. */
  lemma TransformHeroesKeepsEveryHero(raw: seq<RawHero>, round3: real -> real, now: string, i: nat)
    requires TransformHeroes(raw, round3, now).Ok? && i < |raw|
    ensures raw[i].name.Some?
    ensures Get(TransformHeroes(raw, round3, now).value, ShortName(raw[i].name.value)).Some?
  {
    EntryPairsRaisesIff(raw, round3);
    var ps := EntryPairs(raw, round3).value;
    assert HeroEntry(raw[i], round3) == Ok(ps[i]);
    var k := ShortName(raw[i].name.value);
    if k != LastUpdatedKey {
      TransformHeroesGet(raw, round3, now, k);
      LastValueFound(ps, i);
    }
  }

  /** `fetch_meta_from_opendota()`: the decoded reply, or `[]` on any request error. */
  datatype Fetch = FetchFailed | Fetched(heroes: seq<RawHero>)

  function FetchMeta(f: Fetch): (r: seq<RawHero>)
    ensures f.FetchFailed? ==> r == []
    ensures f.Fetched? ==> r == f.heroes
  {
    match f
    case FetchFailed => []
    case Fetched(heroes) => heroes
  }

  /** `main()`: the meta file after the run. An empty or failed fetch leaves the file as it
      was; otherwise the transformed meta replaces it, unless the transform raises. */
  function RefreshMeta(f: Fetch, round3: real -> real, now: string, file: DataFile<Meta>): (r: Result<DataFile<Meta>>)
    ensures FetchMeta(f) == [] ==> r == Ok(file)
    ensures FetchMeta(f) != [] ==> (r.Ok? <==> TransformHeroes(FetchMeta(f), round3, now).Ok?)
    ensures FetchMeta(f) != [] && r.Ok? ==> r.value == Present(TransformHeroes(FetchMeta(f), round3, now).value)
  {
    var heroes := FetchMeta(f);
    if heroes == [] then Ok(file)
    else
      match TransformHeroes(heroes, round3, now)
      case Raised(e) => Raised(e)
      case Ok(meta) => Ok(Present(meta))
  }

  /** A fetch error never touches the meta file. */
  lemma FetchErrorKeepsFile(round3: real -> real, now: string, file: DataFile<Meta>)
    ensures RefreshMeta(FetchFailed, round3, now, file) == Ok(file)
  {
  }

  /** A refresh that writes leaves a meta file holding the timestamp. */
  lemma RefreshWritesTimestamp(f: Fetch, round3: real -> real, now: string, file: DataFile<Meta>)
    requires RefreshMeta(f, round3, now, file).Ok? && RefreshMeta(f, round3, now, file) != Ok(file)
    ensures var written := RefreshMeta(f, round3, now, file).value;
            written.Present? && Get(written.content, LastUpdatedKey) == Some(Timestamp(now))
  {
  }

  /** `fetch_and_save_meta()`, the job the scheduler runs every three days: it fetches and
      transforms like `main()`, but throws the transformed meta away and never calls
      `save_meta`. The meta file is never written; only the transform's error escapes. */
  function ScheduledRefresh(f: Fetch, round3: real -> real, now: string, file: DataFile<Meta>): (r: Result<DataFile<Meta>>)
    ensures r.Ok? ==> r.value == file
    ensures r.Raised? <==> FetchMeta(f) != [] && TransformHeroes(FetchMeta(f), round3, now).Raised?
    ensures r.Raised? ==> r.exc == TransformHeroes(FetchMeta(f), round3, now).exc
  {
    var heroes := FetchMeta(f);
    if heroes == [] then Ok(file)
    else
      match TransformHeroes(heroes, round3, now)
      case Raised(e) => Raised(e)
      case Ok(_) => Ok(file)
  }

  /** The scheduled job fails exactly when `main()` does, with the same error, but where
      `main()` writes a fresh meta file the job leaves the old one. */
  lemma ScheduledRefreshWritesNothing(f: Fetch, round3: real -> real, now: string, file: DataFile<Meta>)
    ensures ScheduledRefresh(f, round3, now, file).Raised? <==> RefreshMeta(f, round3, now, file).Raised?
    ensures ScheduledRefresh(f, round3, now, file).Raised? ==>
              ScheduledRefresh(f, round3, now, file) == RefreshMeta(f, round3, now, file)
    ensures RefreshMeta(f, round3, now, file).Ok? && RefreshMeta(f, round3, now, file) != Ok(file) ==>
              ScheduledRefresh(f, round3, now, file) == Ok(file)
  {
  }
}
