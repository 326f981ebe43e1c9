/** The two catalog files the recommender reads: the hero list (`data/heroes.json`)
    and the meta statistics (`data/meta.json`), with the loaders' error behaviour. */
module Catalog {
  import opened Outcomes
  import opened PyStr
  import opened OrderedDict

  /** One value of the meta map. Hero entries are objects whose fields may be
      absent; the refresh job also stores a timestamp string under `_last_updated`. */
  datatype MetaValue =
    | HeroStats(localizedName: Option<string>, roles: Option<seq<string>>, winrate: Option<real>,
                pickRate: Option<real>, banRate: Option<real>)
    | Timestamp(iso: string)

  /** The meta map in the order `json.load` reads it. */
  type Meta = Dict<string, MetaValue>

  /** The state of a data file on disk: absent, not valid JSON, or loaded. */
  datatype DataFile<T> = Missing | Malformed(error: string) | Present(content: T)

  /** The two files one recommendation reads; the hero list holds the `name` of each hero. */
  datatype CatalogFiles = CatalogFiles(heroes: DataFile<seq<string>>, meta: DataFile<Meta>)

  const HeroesPath := "data/heroes.json"
  const MetaPath := "data/meta.json"

  /** `load_valid_heroes`: the lower-cased hero names, or the error the missing or
      malformed file raises. */
  function LoadValidHeroes(f: DataFile<seq<string>>): (r: Result<set<string>>)
    ensures f.Missing? <==> r.Raised? && r.exc.FileNotFoundError?
    ensures f.Malformed? <==> r.Raised? && r.exc.JsonDecodeError?
    ensures f.Present? ==> r.Ok?
    ensures f.Present? ==> forall i :: 0 <= i < |f.content| ==> Lower(f.content[i]) in r.value
    ensures f.Present? ==> forall x :: x in r.value ==>
              exists i :: 0 <= i < |f.content| && Lower(f.content[i]) == x
  {
    match f
    case Missing => Raised(FileNotFoundError("Файл " + HeroesPath + " не найден. Обнови его с помощью скрипта."))
    case Malformed(e) => Raised(JsonDecodeError(e))
    case Present(names) => Ok(set i | 0 <= i < |names| :: Lower(names[i]))
  }

  /** `load_meta_data`: the meta map as stored, or the error the missing or malformed file raises. */
  function LoadMetaData(f: DataFile<Meta>): (r: Result<Meta>)
    ensures f.Missing? <==> r.Raised? && r.exc.FileNotFoundError?
    ensures f.Malformed? <==> r.Raised? && r.exc.JsonDecodeError?
    ensures f.Present? ==> r == Ok(f.content)
  {
    match f
    case Missing => Raised(FileNotFoundError("Файл " + MetaPath + " не найден. Запусти meta_loader.py."))
    case Malformed(e) => Raised(JsonDecodeError(e))
    case Present(m) => Ok(m)
  }
}
