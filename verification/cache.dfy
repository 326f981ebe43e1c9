/** The detailed-build cache of `services/cache.py`: one JSON file per build id under
    `cache/`. The file system is a map from pathlib path to what the file holds, together
    with two maps of errors: the error `open(path, "w")` raises for each path it cannot
    open for writing (a missing parent directory, a directory in the way, no permission),
    and the error `path.exists()` lets escape for each path it cannot stat. On Python 3.9
    to 3.12 that is every stat error except ENOENT, ENOTDIR, EBADF and ELOOP, for example
    ENAMETOOLONG for an overlong id or EACCES under a directory without search
    permission; on later versions the second map is empty. Nothing here creates a
    directory or changes a permission, so neither error map changes. */
module BuildCache {
  import opened Outcomes
  import opened PyStr
  import opened Json
  import opened PosixPath

  /** What a cache file holds: a document `json.dump` wrote, or bytes `json.load` rejects. */
  datatype Stored = Written(doc: Json) | Unreadable

  datatype Cache = Cache(files: map<Path, Stored>, writeErrors: map<Path, Exception>,
                         statErrors: map<Path, Exception>)

  const CacheDirName := "cache"

  /** `CACHE_DIR = Path("cache")`. */
  const CacheDir := Path("", [CacheDirName])

  /** `_get_cache_path(build_id)`: `CACHE_DIR / f"{build_id}.json"`, joined by pathlib. An id
      without a slash names `cache/<id>.json`; an id with slashes reaches into
      subdirectories, with empty and `.` segments dropped; an id that starts with a slash
      replaces the cache directory altogether. */
  function CachePath(buildId: string): (p: Path)
    ensures '/' !in buildId ==> p == Path("", [CacheDirName, buildId + ".json"])
    ensures buildId != [] && buildId[0] == '/' ==> p == Parse(buildId + ".json") && p.root != ""
    ensures buildId == [] || buildId[0] != '/' ==>
              p.root == "" && |p.parts| >= 2 && p.parts[0] == CacheDirName
    ensures var segs := Split(buildId);
            |p.parts| >= 1 && p.parts[|p.parts| - 1] == segs[|segs| - 1] + ".json"
  {
    var file := buildId + ".json";
    var segs := Split(buildId);
    assert '/' !in segs[|segs| - 1] + ".json";
    ParseAppend(buildId, ".json");
    assert '/' !in buildId ==> segs == [buildId] by {
      if '/' !in buildId { SplitNoSlash(buildId); }
    }
    assert buildId != [] ==> file[0] == buildId[0];
    Div(CacheDir, file)
  }

  /** Ids without a slash have distinct files. */
  lemma CachePathInjective(a: string, b: string)
    requires '/' !in a && '/' !in b
    requires CachePath(a) == CachePath(b)
    ensures a == b
  {
    assert a + ".json" == b + ".json";
    assert a == (a + ".json")[..|a|] && b == (b + ".json")[..|b|];
  }

  /** Ids that differ only by a leading `./` share one file. */
  lemma CachePathDotSlash(buildId: string)
    requires buildId == [] || buildId[0] != '/'
    ensures CachePath("./" + buildId) == CachePath(buildId)
  {
    assert "./" + buildId + ".json" == "./" + (buildId + ".json");
    if buildId == [] {
      assert buildId + ".json" == ".json";
    } else {
      assert (buildId + ".json")[0] == buildId[0];
    }
    DotSlashDropped(buildId + ".json");
  }

  /** `save_build_to_cache(build_id, data)`: (over)writes the id's file, or raises the error
      opening it for writing raises and changes nothing. */
  function SaveBuild(c: Cache, buildId: string, data: Json): (r: Result<Cache>)
    ensures r.Raised? <==> CachePath(buildId) in c.writeErrors
    ensures r.Raised? ==> r.exc == c.writeErrors[CachePath(buildId)]
    ensures r.Ok? ==> r.value.writeErrors == c.writeErrors && r.value.statErrors == c.statErrors
    ensures r.Ok? ==> r.value.files.Keys == c.files.Keys + {CachePath(buildId)}
    ensures r.Ok? ==> r.value.files[CachePath(buildId)] == Written(data)
    ensures r.Ok? ==> forall p :: p in c.files && p != CachePath(buildId) ==> r.value.files[p] == c.files[p]
  {
    var p := CachePath(buildId);
    if p in c.writeErrors then Raised(c.writeErrors[p])
    else Ok(c.(files := c.files[p := Written(data)]))
  }

  /** `load_build_from_cache(build_id)`: the stat error `path.exists()` lets escape, which
      is raised outside the `try`; otherwise the stored document, or `None` for a missing
      or unreadable file. */
  function LoadBuild(c: Cache, buildId: string): (r: Result<Option<Json>>)
    ensures r.Raised? <==> CachePath(buildId) in c.statErrors
    ensures r.Raised? ==> r.exc == c.statErrors[CachePath(buildId)]
    ensures r.Ok? && CachePath(buildId) !in c.files ==> r.value.None?
    ensures r.Ok? && CachePath(buildId) in c.files && c.files[CachePath(buildId)].Unreadable? ==> r.value.None?
    ensures r.Ok? && r.value.Some? ==> c.files[CachePath(buildId)] == Written(r.value.value)
  {
    var p := CachePath(buildId);
    if p in c.statErrors then Raised(c.statErrors[p])
    else if p !in c.files then Ok(None)
    else match c.files[p]
      case Written(doc) => Ok(Some(doc))
      case Unreadable => Ok(None)
  }

  /** Where the file can be opened for writing, the save succeeds, and loading what was just
      saved gives it back, unless stating the file raises, which the save does not change. */
  lemma SaveThenLoad(c: Cache, buildId: string, data: Json)
    requires CachePath(buildId) !in c.writeErrors
    ensures SaveBuild(c, buildId, data).Ok?
    ensures CachePath(buildId) !in c.statErrors ==>
              LoadBuild(SaveBuild(c, buildId, data).value, buildId) == Ok(Some(data))
    ensures CachePath(buildId) in c.statErrors ==>
              LoadBuild(SaveBuild(c, buildId, data).value, buildId) == Raised(c.statErrors[CachePath(buildId)])
  {
  }

  /** The last write wins. */
  lemma SaveOverwrites(c: Cache, buildId: string, first: Json, second: Json)
    ensures SaveBuild(c, buildId, first).Ok? ==>
              SaveBuild(SaveBuild(c, buildId, first).value, buildId, second) == SaveBuild(c, buildId, second)
  {
    var p := CachePath(buildId);
    if p !in c.writeErrors {
      assert c.files[p := Written(first)][p := Written(second)] == c.files[p := Written(second)];
    }
  }

  /** Saving one id leaves what every id with another path loads as it was. */
  lemma SaveKeepsOthers(c: Cache, buildId: string, data: Json, other: string)
    requires CachePath(other) != CachePath(buildId)
    ensures SaveBuild(c, buildId, data).Ok? ==>
              LoadBuild(SaveBuild(c, buildId, data).value, other) == LoadBuild(c, other)
  {
  }

  /** For ids without a slash, saving one id leaves what every other id loads as it was. */
  lemma SaveKeepsOtherIds(c: Cache, buildId: string, data: Json, other: string)
    requires '/' !in buildId && '/' !in other && other != buildId
    ensures SaveBuild(c, buildId, data).Ok? ==>
              LoadBuild(SaveBuild(c, buildId, data).value, other) == LoadBuild(c, other)
  {
    if CachePath(other) == CachePath(buildId) {
      CachePathInjective(other, buildId);
    }
    SaveKeepsOthers(c, buildId, data, other);
  }

  /** Saving under `./<id>` writes the file of `<id>`: the next load of `<id>` returns it
      wherever the file can be stated. */
  lemma SaveThroughDotSlash(c: Cache, buildId: string, data: Json)
    requires buildId == [] || buildId[0] != '/'
    requires CachePath(buildId) !in c.writeErrors
    ensures SaveBuild(c, "./" + buildId, data).Ok?
    ensures CachePath(buildId) !in c.statErrors ==>
              LoadBuild(SaveBuild(c, "./" + buildId, data).value, buildId) == Ok(Some(data))
  {
    CachePathDotSlash(buildId);
  }

  /** An empty cache directory loads nothing for every id it can stat. */
  lemma NeverSavedLoadsNothing(writeErrors: map<Path, Exception>, statErrors: map<Path, Exception>,
                               buildId: string)
    ensures CachePath(buildId) !in statErrors ==>
              LoadBuild(Cache(map[], writeErrors, statErrors), buildId) == Ok(None)
  {
  }

  /** A lookup whose stat fails raises that error, whatever the file holds and whether or
      not a save went before. */
  lemma StatErrorEscapes(c: Cache, buildId: string, data: Json)
    requires CachePath(buildId) in c.statErrors
    ensures LoadBuild(c, buildId) == Raised(c.statErrors[CachePath(buildId)])
    ensures SaveBuild(c, buildId, data).Ok? ==>
              LoadBuild(SaveBuild(c, buildId, data).value, buildId) == LoadBuild(c, buildId)
  {
  }
}
