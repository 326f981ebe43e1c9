# Dota 2 draft helper: a Dafny model of the recommendation core

This project models the core of a Dota 2 drafting assistant. Given a validated draft, the
service recommends a hero and a build:
- the draft has enemy heroes, ally heroes, the player's role and an optional hero of their own;
- a chat model is asked first;
- when that path is off or fails, a rule-based recommendation ranks catalog heroes by
  professional win rate.

Around that pipeline the model covers the following:
- the JSON-block extraction and the gates applied to the model's replies;
- the build-options and detailed-build generators, with their file cache;
- the recommendation prompt;
- the HTTP handler's error mapping;
- the job that rebuilds the meta file from OpenDota hero statistics;
- the hero-name helpers of the OpenDota client.

Everything is pure and functional. The chat model's reply, the catalog files, the cache
directory, the clock and the HTTP replies are parameters. JSON parsing, the JSON-schema check
and the pydantic constructors the code calls are fields of a record of functions.

Modules follow the source files:

| module | source |
|---|---|
| `Types` | `models/types.py` |
| `Catalog` | the two loaders of `services/logic.py` |
| `Logic` | `services/logic.py` |
| `JsonBlock` | `extract_json_block` of `services/openai_generator.py` |
| `OpenaiGenerator` | `services/openai_generator.py` |
| `BuildCache` | `services/cache.py` |
| `PromptBuilder` | `services/prompt_builder.py` |
| `HeroRecommender` | `services/hero_recommender.py` |
| `MetaAnalyzer` | `services/meta_analyzer.py` |
| `MetaLoader` | `services/meta_loader.py` |
| `ApiClients` | `services/api_clients.py` |
| `PipelineProperties` | properties that span several of the above |

Python built-ins have their own modules:
- `Outcomes`: `Option`, `Result`, and the exceptions the core raises;
- `PyStr`: `strip`, `lower`, `join`, `replace`, `removeprefix`;
- `Seqs`: `dict.fromkeys`, slicing;
- `OrderedDict`: insertion-ordered dicts as sequences of pairs;
- `StableSort`: `sorted` as a stable insertion sort;
- `Json`: JSON documents, `get`, `setdefault`;
- `PosixPath`: `pathlib.PurePosixPath` parsing and its `/` operator.

A dict whose order matters is a sequence of pairs. Assignment replaces a present key in place
and appends a new one. The meta map is such a dict, because its order decides ties in the
ranking. Its values are hero entries or the `_last_updated` timestamp string the refresh job
writes.

## Model

| member | source | states |
|---|---|---|
| Types.ParseRole | models/types.py:4-9 | the role literal accepts exactly the five names of `VALID_ROLES`, case-sensitively, and maps each back to its name |
| Types.RoleNameRoundTrip | models/types.py:4-9 | every role's name is a valid role and parses back to that role |
| Types.RemoveDuplicates | models/types.py:12-14 | the validated list is exactly the first 5 distinct names of the input, or all of them when there are fewer (exact string equality), so it has `min(5, distinct)` names, none twice, in the order of their first occurrence; a missing list gives `[]`; when at most 5 distinct names are given, every input name is kept |
| Types.RemoveDuplicatesIdempotent | models/types.py:12-14 | validating a validated list gives it back unchanged |
| Types.MakeDraftInput | models/types.py:6-14 | a draft is built exactly when the role is valid, else a ValueError; both lists are validated, and role and hero are kept as given |
| Catalog.LoadValidHeroes | services/logic.py:12-17 | a missing file raises FileNotFoundError and a malformed one a JSON error; otherwise the result is exactly the set of lower-cased hero names |
| Catalog.LoadMetaData | services/logic.py:20-24 | a missing file raises FileNotFoundError and a malformed one a JSON error; otherwise the meta map is returned as stored |
| Logic.CleanHeroes | services/logic.py:27-36 | the cleaned list is exactly the first `max_len` distinct lower-cased catalog names of the input, or all of them when there are fewer: none twice, each in the catalog, and when they fit no lower-cased input name that is in the catalog is lost |
| Logic.CleanHeroesFromInput | services/logic.py:29-33 | every cleaned name is the lower-cased form of some raw name, in the order of first occurrence among the lower-cased raw names |
| Logic.CleanHeroesKeepsAllValid | services/logic.py:27-36 | when the distinct catalog names in the input fit under the cap, every raw name whose lower-cased form is in the catalog is kept |
| Logic.FilterInFirstIndex | services/logic.py:29-33 | dropping unknown names keeps the relative order of first occurrences of the known ones |
| Logic.CleanStep | services/logic.py:29-33 | one loop iteration appends the lower-cased name exactly when it is valid and not yet kept |
| Logic.CleanedPrefixIsDedupe | services/logic.py:28-33 | after any number of iterations, the loop's list equals the first-occurrence de-duplication of the valid lower-cased prefix |
| Logic.CleanHeroesLoop | services/logic.py:27-36 | the statement-by-statement loop computes the same list as the reference definition |
| Logic.TargetRole | services/logic.py:40-49 | a draft role found in `role_map` after lower-casing gives its catalog tag; any other role is used lower-cased |
| Logic.Candidates | services/logic.py:51-59 | the walk over the meta map raises only the AttributeError of `.get` on a string |
| Logic.CandidatesRaisesIff | services/logic.py:51-54 | the walk raises exactly when some non-excluded meta entry is the timestamp string |
| Logic.CandidatesSound | services/logic.py:51-59 | every candidate is the suggestion of a non-excluded hero entry that lists the target tag among its roles, ignoring case |
| Logic.CandidatesComplete | services/logic.py:51-59 | every non-excluded hero entry of the target role yields a candidate |
| Logic.Ranked | services/logic.py:62 | the ranking has `min(3, #candidates)` items and is a prefix of the stable best-first sort |
| Logic.RankedFromCandidates | services/logic.py:62 | ranked suggestions are candidates, in non-increasing score order |
| Logic.RankedIsTop | services/logic.py:62 | a candidate left out scores no higher than any kept one, and is left out only when all three places are taken |
| Logic.RankedKeepsTies | services/logic.py:62 | among candidates of equal score, the kept ones are a prefix of them in candidate order |
| Logic.RecommendByMeta | services/logic.py:39-63 | raises exactly when a non-excluded entry is the timestamp; otherwise at most 3 suggestions, each from an eligible entry, none excluded, in non-increasing score order |
| Logic.RecommendByMetaIsSortedCut | services/logic.py:61-63 | a successful ranking is the stable best-first sort of the candidates, cut to three |
| Logic.RecommendByMetaIsTop | services/logic.py:61-63 | an eligible hero left out has a win rate no higher than every kept score, and only when three are kept |
| Logic.RecommendByMetaKeepsTies | services/logic.py:61-63 | equal scores keep meta iteration order: the kept suggestions of one score are a prefix of the eligible heroes with that score |
| Logic.CheckedUserHero | services/logic.py:74-77 | the user hero survives exactly when it is non-empty and its lower-cased form is in the catalog, and then it is that lower-cased form |
| Logic.ExcludedHeroes | services/logic.py:79-81 | the excluded set is exactly the cleaned enemies, the cleaned allies and the checked user hero |
| Logic.GenerateRecommendation | services/logic.py:66-99 | a missing catalog file raises FileNotFoundError; a success has at most 3 suggestions, at most 2 lane opponents, at most 2 warnings, and the four fixed item lists |
| Logic.WarningsDiffer | services/logic.py:76-87 | the unknown-hero warning and the no-match warning are never the same text |
| Logic.GenerateRecommendationRaises | services/logic.py:66-99 | missing or malformed files raise; with both files present, a valid user hero always succeeds, and so does a meta map with hero entries only |
| Logic.GenerateRecommendationWithHero | services/logic.py:83-85 | with a valid user hero there are no suggestions and no no-match warning |
| Logic.GenerateRecommendationWithoutHero | services/logic.py:83-87 | without a valid user hero, the suggestions are the meta ranking that excludes the cleaned enemies and allies, and the no-match warning is given exactly when it is empty |
| Logic.GenerateRecommendationRankingRaises | services/logic.py:83-85 | without a valid user hero, an error of the ranking is the error of the recommendation, and a successful ranking makes the recommendation succeed |
| Logic.GenerateRecommendationExcludesDraft | services/logic.py:79-89 | no suggestion is a cleaned enemy or ally, and the lane opponents are the first two cleaned enemies |
| Logic.GenerateRecommendationUnknownHero | services/logic.py:74-77 | the unknown-hero warning comes first exactly when a non-empty user hero is not in the catalog, and it names the hero lower-cased |
| Logic.GenerateRecommendationWarnings | services/logic.py:74-87 | the warnings are determined by the user hero, the catalog and the suggestions alone |
| Logic.ListHeroesOnlyPrinted | services/logic.py:29-35 | unknown enemy or ally names add no warning: each warning is the unknown-hero or the no-match text |
| Logic.WarningsIgnoreHeroLists | services/logic.py:71-87 | drafts that differ only in their hero lists, and lead to the same suggestions, get the same warnings |
| JsonBlock.FindClose | services/openai_generator.py:41 | the lazy `.*?` stops at the nearest closing brace followed by whitespace and a fence, and none is skipped |
| JsonBlock.MatchAt | services/openai_generator.py:41 | a match at a start position needs a fence, then the optional tag and whitespace, then an opening brace; the group ends at a closing brace that whitespace and a fence follow |
| JsonBlock.FirstFromSkips | services/openai_generator.py:41 | the left-to-right search passes only over positions where the pattern fails |
| JsonBlock.SearchFromSkips | services/openai_generator.py:41 | `re.search` returns the first matching start position, and finds none only when no position matches |
| JsonBlock.SearchFromFirst | services/openai_generator.py:41 | when `k` matches and nothing before it does, the search returns `k` |
| JsonBlock.ExtractJsonBlock | services/openai_generator.py:40-42 | the result is the stripped text exactly when the search finds no match, and otherwise a captured group that starts with `{` and ends with `}` |
| JsonBlock.FirstMatchWins | services/openai_generator.py:40-42 | the group captured is the one at the first matching position of the stripped text; later fenced blocks are ignored |
| JsonBlock.NoObjectNoUnwrap | services/openai_generator.py:40-42 | text without an opening brace comes back stripped and unchanged |
| JsonBlock.FencedArrayNotUnwrapped | services/openai_generator.py:40-42 | a `json`-fenced array without backticks, objects inside it included, comes back whole with its fences, because the pattern needs a brace right after the opening fence |
| JsonBlock.NoMatchInFencedArray | services/openai_generator.py:40-42 | in a fenced array no start position matches the pattern |
| JsonBlock.FenceOnlyAtEnds | services/openai_generator.py:40-42 | in a fenced array without backticks, three backticks start only at the two fences |
| JsonBlock.FencedObjectRoundTrip | services/openai_generator.py:40-42 | an object without backticks wrapped in a `json` fence is recovered exactly |
| OpenaiGenerator.ChatCompletion | services/openai_generator.py:46-81 | `None` when the key is missing or lacks `sk-` (the ValueError of `get_openai_client`, lines 46-51, caught in `chat_completion`), when the call raises, or when there is no choice; otherwise the first choice's message (`chat_completion`, lines 66-81); it never raises |
| OpenaiGenerator.ValidateOpenaiJson | services/openai_generator.py:54-63 | true on a conforming document, false on a schema violation, and any other failure escapes |
| OpenaiGenerator.RecommendWithPrompt | services/openai_generator.py:89-104 | the model's response is returned exactly when every gate passes; a reply without content raises outside the `try`; every other outcome is `generate_recommendation(draft)` |
| OpenaiGenerator.GenerateOpenaiRecommendation | services/openai_generator.py:85-104 | for a draft read with its aspect, an accepted reply to the built prompt is what the caller gets |
| OpenaiGenerator.GenerateOpenaiRecommendationAsWritten | services/prompt_builder.py:35 | on the declared draft record, the prompt cannot be built, so the call raises an AttributeError |
| OpenaiGenerator.AiResponseOnlyWhenAccepted | services/openai_generator.py:89-104 | every answer is the rule-based one, the missing-content error, or the model's response after every gate passed |
| OpenaiGenerator.NoAnswerFallsBack | services/openai_generator.py:90-95 | no reply, or a reply reading "null", "none" or "" in any case, gives the rule-based answer |
| OpenaiGenerator.SchemaRejectionFallsBack | services/openai_generator.py:97-104 | a schema violation or schema failure gives the rule-based answer |
| OpenaiGenerator.VariantsOf | services/openai_generator.py:133-134 | an array gives its items exactly when every item is an object the variant constructor accepts; an empty object or string gives no variants; anything else fails |
| OpenaiGenerator.OptionsFromReply | services/openai_generator.py:129-137 | no reply gives `fallback_build_options(None)`, any fallback is called with `None`, and variants are always accepted objects |
| OpenaiGenerator.BuildOptionsFromArray | services/openai_generator.py:132-134 | a reply holding an array of accepted objects gives exactly those objects as variants |
| OpenaiGenerator.BuildOptionsParseFailure | services/openai_generator.py:132-137 | a reply that does not parse, or has no content, gives the fallback |
| OpenaiGenerator.OptionsFromReplyAsWritten | services/openai_generator.py:129-137 | as written, the call succeeds only with variants |
| OpenaiGenerator.BuildOptionsAsWrittenRaises | services/openai_generator.py:129-137 | the code as written agrees with the intended generator on every parsed reply, and raises NameError exactly where the fallback is meant |
| OpenaiGenerator.FillFromFirst | services/openai_generator.py:144-148 | `setdefault` over the keys adds exactly the missing ones, each with the first build's value or null, and leaves present keys alone |
| OpenaiGenerator.Normalize | services/openai_generator.py:141-149 | without a non-empty `builds` list the document is unchanged; with one, only the nine keys are added, present keys keep their values, and it raises exactly when the first build is no object; a document that is no object raises |
| OpenaiGenerator.NormalizeFillsFromFirst | services/openai_generator.py:142-148 | each of the nine keys missing from the document gets the first build's value for it, null when absent |
| OpenaiGenerator.NormalizeIdempotent | services/openai_generator.py:141-149 | normalising twice is normalising once |
| OpenaiGenerator.FillOfFilled | services/openai_generator.py:144-148 | filling a document that already has every key changes nothing |
| OpenaiGenerator.WithDefaults | services/openai_generator.py:189-191 | `warnings`, `source` and `builds` are always present afterwards, default to `[]`, `"openai"` and `[]`, and existing values are kept |
| OpenaiGenerator.DetailedDocument | services/openai_generator.py:186-191 | a document built from a reply is a truthy object carrying the three defaulted keys |
| OpenaiGenerator.AskModel | services/openai_generator.py:177-200 | the model path never raises; it returns the document exactly when one was built, the schema check did not fail, and the constructor accepts it, else the fallback for the same arguments; a save that raises (the file cannot be opened for writing) is caught by the same `try` and gives the fallback; the cache is written exactly when the document conforms and its file can be opened |
| OpenaiGenerator.DetailedFromReply | services/openai_generator.py:152-200 | the cache lookup runs outside the `try`: a stat error it raises escapes unchanged; a truthy cached document is answered from the cache without writing, raising when the constructor rejects it; on a miss the model path runs |
| OpenaiGenerator.DetailedBuildRaisesOnlyOnCache | services/openai_generator.py:160-163 | the call raises exactly when stating the id's cache file raises, or when a cached document is rejected by the constructor |
| OpenaiGenerator.StatErrorEscapesDetailedBuild | services/openai_generator.py:160 | an id whose cache file cannot be stated, such as one too long for a file name, makes the call raise that error before the model is asked, and nothing is written |
| OpenaiGenerator.CacheHitIgnoresModel | services/openai_generator.py:160-163 | on a cache hit, or a lookup that raises, the answer does not depend on what the model would reply |
| OpenaiGenerator.CacheKeyIsBuildId | services/openai_generator.py:160-163 | a cache hit answers every request with that build id alike, whatever its hero, role, aspect or draft |
| OpenaiGenerator.CacheWrittenOnlyWhenConforming | services/openai_generator.py:193-194 | the cache changes only on a miss, only by a save that succeeded, only with a conforming document that carries the defaulted keys, and only under the request's id |
| OpenaiGenerator.UnvalidatedDocumentReturned | services/openai_generator.py:193-196 | a document violating the schema is still returned when the constructor accepts it, and the cache is left alone |
| OpenaiGenerator.ReplayFromCache | services/openai_generator.py:160-163 | after an answer built from a conforming, accepted document, the next request with that id gets the same answer from the cache |
| OpenaiGenerator.FailedSaveFallsBack | services/openai_generator.py:193-200 | a conforming document whose cache file cannot be opened for writing gives the fallback, even when the constructor would accept it, and leaves the cache as it was |
| OpenaiGenerator.RejectedConformingDocumentPoisonsCache | services/openai_generator.py:193-200 | a conforming document that the constructor rejects is cached anyway when its file can be written: this call falls back, and the next one with that id raises |
| BuildCache.CachePath | services/cache.py:5-9 | pathlib's join of `cache` and `<id>.json`: an id without a slash names exactly `cache/<id>.json`; an id that starts with a slash replaces the directory and gives an absolute path; any other id stays under `cache`; the last part is the id's last segment with `.json` |
| BuildCache.CachePathInjective | services/cache.py:8-9 | ids without a slash have distinct files |
| BuildCache.CachePathDotSlash | services/cache.py:8-9 | an id and the same id behind `./` share one file, as pathlib drops the `.` segment |
| BuildCache.SaveBuild | services/cache.py:11-14 | saving raises exactly the error opening the file for writing raises, and then changes nothing; otherwise it writes the id's file and leaves every other file as it was |
| BuildCache.LoadBuild | services/cache.py:16-24 | the load raises exactly the error `path.exists()` lets escape, outside the `try`; otherwise a missing or unreadable file loads as `None`, and a document loaded is the one stored |
| BuildCache.SaveThenLoad | services/cache.py:11-22 | where the file can be opened for writing, the save succeeds, and loading gives the saved document back, or raises the stat error when the file cannot be stated |
| BuildCache.SaveOverwrites | services/cache.py:13-14 | after a successful save, the last write wins |
| BuildCache.SaveKeepsOthers | services/cache.py:8-14 | saving one id leaves unchanged what every id with another pathlib path loads |
| BuildCache.SaveKeepsOtherIds | services/cache.py:8-14 | among ids without a slash, saving one id leaves what every other id loads unchanged |
| BuildCache.SaveThroughDotSlash | services/cache.py:8-22 | saving under `./<id>` is seen by the next load of `<id>` where its file can be stated |
| BuildCache.NeverSavedLoadsNothing | services/cache.py:18-19 | an empty cache directory loads `None` for every id whose file can be stated |
| BuildCache.StatErrorEscapes | services/cache.py:17-19 | a file that cannot be stated makes the load raise that error, and a save does not change that |
| PosixPath.Split | services/cache.py:9 | `str.split("/")`: at least one segment, none holding a slash |
| PosixPath.SplitJoin | services/cache.py:9 | joining the segments with `/` gives the text back |
| PosixPath.Keep | services/cache.py:9 | the parts pathlib keeps are the segments other than `""` and `.`, and each is kept |
| PosixPath.Parse | services/cache.py:9 | a path is relative exactly when it does not start with a slash; its root is `""`, `/` or `//`, and every part is kept |
| PosixPath.ParseName | services/cache.py:9 | a slash-free name other than `""` and `.` is a one-part relative path |
| PosixPath.DotSlashDropped | services/cache.py:9 | a leading `./` does not change a relative path |
| PromptBuilder.ReadTemplate | services/prompt_builder.py:16-20 | a missing file gives exactly `# WARNING: <filename> not found.`; otherwise the stripped file text |
| PromptBuilder.ReadTemplateStripped | services/prompt_builder.py:20 | a template read from a file neither starts nor ends with whitespace |
| PromptBuilder.LoadTemplates | services/prompt_builder.py:7-14 | each of the five templates is read from its own file |
| PromptBuilder.RecommendPromptParts | services/prompt_builder.py:22-44 | the base template, role, allies and enemies joined by `, `, then exactly one of the two hero lines, the aspect line exactly when an aspect is given, then the separator and the four section templates in order |
| PromptBuilder.BuildRecommendPromptAsWritten | services/prompt_builder.py:35 | the declared draft record has no `aspect`, so building the prompt raises an AttributeError |
| PromptBuilder.PromptStartsWithBase | services/prompt_builder.py:22-46 | the prompt opens with the base template and a blank line |
| PromptBuilder.PromptEndsWithSections | services/prompt_builder.py:38-46 | whatever the draft, the prompt closes with the separator and the skills, items, strategy and lane templates, one blank line apart |
| HeroRecommender.RecommendHeroAndBuild | services/hero_recommender.py:10-35 | with the model path on and answering, its answer is returned unchanged; otherwise the rule-based answer |
| HeroRecommender.RecommendRaisesOnlyFromFallback | services/hero_recommender.py:24-35 | an error escapes only from the rule-based path, and only when it was used; a model error never escapes |
| HeroRecommender.OfflineIgnoresModel | services/hero_recommender.py:17-31 | with the model path off, its outcome does not matter |
| HeroRecommender.FailingModelIsFallback | services/hero_recommender.py:24-31 | a model path that raises gives the rule-based answer |
| MetaAnalyzer.ErrorReply | services/meta_analyzer.py:65-75 | a ValueError, parse and validation errors included, is 400 with its message; FileNotFoundError is 500 with the meta-file detail; anything else is 500 with the internal-error detail |
| MetaAnalyzer.Reply | services/meta_analyzer.py:47-75 | a value is a 200 carrying it; an exception is its error reply |
| MetaAnalyzer.RecommendTeam | services/meta_analyzer.py:36-75 | an absent `use_openai` means true; the model's answer is returned when enabled and answering; otherwise the rule-based outcome, mapped to HTTP |
| MetaAnalyzer.HandlerAgreesWithService | services/meta_analyzer.py:47-63 | the handler's reply is the outcome of `recommend_hero_and_build`, mapped to HTTP |
| MetaAnalyzer.MissingCatalogReplies | services/meta_analyzer.py:65-71 | on the rule-based path, a missing meta file is the 500 naming it, or a 400 when the hero file is malformed |
| MetaLoader.ShortName | services/meta_loader.py:29 | the key is the lower-cased name with the `npc_dota_hero_` prefix removed when present |
| MetaLoader.HeroEntry | services/meta_loader.py:29-36 | an item without `name`, or a picked hero without `pro_win`, raises KeyError; otherwise `localized_name` defaults to the key, `roles` to `[]`, and `winrate` is 0 unless picked |
| MetaLoader.EntryPairs | services/meta_loader.py:28-36 | the loop assigns one entry per item in order, and raises KeyError otherwise |
| MetaLoader.EntryPairsRaisesIff | services/meta_loader.py:28-36 | the loop succeeds exactly when every item can be transformed |
| MetaLoader.SortedHeroesIsSort | services/meta_loader.py:38 | rebuilding the dict from the sorted items is the stable sort by descending win rate |
| MetaLoader.TransformHeroes | services/meta_loader.py:26-40 | succeeds exactly when every item can be transformed; the result has distinct keys and the timestamp under `_last_updated` |
| MetaLoader.TransformHeroesShape | services/meta_loader.py:38-40 | without a hero called `_last_updated`, the result is the hero entries in non-increasing win-rate order followed by the timestamp, last |
| MetaLoader.NoTimestampKey | services/meta_loader.py:28-39 | without a hero called `_last_updated`, the hero dict has no such key |
| MetaLoader.TransformHeroesKeepsTies | services/meta_loader.py:38 | heroes of equal win rate stay in the order their keys were first assigned |
| MetaLoader.TransformHeroesGet | services/meta_loader.py:28-39 | each key other than `_last_updated` holds the entry of the last item with that short name |
| MetaLoader.TransformHeroesKeepsEveryHero | services/meta_loader.py:28-38 | every item of the reply is found under its short name |
| MetaLoader.FetchMeta | services/meta_loader.py:15-23 | a request error gives `[]`; otherwise the decoded reply |
| MetaLoader.RefreshMeta | services/meta_loader.py:50-59 | an empty or failed fetch leaves the meta file as it was; otherwise the file becomes the transformed meta, unless the transform raises |
| MetaLoader.FetchErrorKeepsFile | services/meta_loader.py:21-23 | a fetch error never touches the meta file |
| MetaLoader.RefreshWritesTimestamp | services/meta_loader.py:50-59 | a refresh that writes leaves a meta file holding the timestamp |
| MetaLoader.ScheduledRefresh | services/meta_loader.py:62-65 | the scheduled job never changes the meta file; it raises exactly when the fetch is non-empty and the transform raises, with that error |
| MetaLoader.ScheduledRefreshWritesNothing | services/meta_loader.py:50-65 | the scheduled job fails exactly when `main()` fails, with the same error, and where `main()` writes a fresh meta file the job leaves the old one |
| ApiClients.NormalizeHeroName | services/api_clients.py:45-46 | the normal form has no space, no apostrophe and no upper-case letter |
| ApiClients.NormalizeIsCharwise | services/api_clients.py:45-46 | the normal form is the stripped name mapped character by character |
| ApiClients.NormalizeIgnoresCase | services/api_clients.py:45-46 | names that differ only in case have the same normal form |
| ApiClients.NormalizeIgnoresSurroundingSpace | services/api_clients.py:45-46 | whitespace around a name does not change its normal form |
| ApiClients.NormalizeSpaceIsUnderscore | services/api_clients.py:45-46 | inside a name, a space and an underscore normalise alike |
| ApiClients.NormalizeDropsApostrophe | services/api_clients.py:45-46 | inside a name, an apostrophe is dropped |
| ApiClients.NormalizeNotIdempotent | services/api_clients.py:45-46 | normalising twice can differ from normalising once, when an apostrophe hid whitespace from `strip` |
| ApiClients.NamePairs | services/api_clients.py:24-27 | the comprehension succeeds exactly when every item has both fields, and then pairs each normalised name with its id, in order |
| ApiClients.HeroIdMap | services/api_clients.py:13-33 | a failed listing re-raises its error; a map built has distinct keys |
| ApiClients.HeroIdMapFindsEveryHero | services/api_clients.py:24-27 | every listed hero is found under its normalised name, with the id of the last hero of that normal form |
| ApiClients.IdToHeroMap | services/api_clients.py:36-42 | the inverted map fails exactly when the name map fails, and is its inversion |
| ApiClients.GetHeroIdByName | services/api_clients.py:84-88 | the name is normalised before the lookup, and failures of the map escape |
| ApiClients.GetHeroNameById | services/api_clients.py:77-81 | failures of the map escape |
| ApiClients.NameByIdIsSound | services/api_clients.py:36-42 | each id-to-name pair of the inverted map has the matching name-to-id pair |
| ApiClients.NameByIdIsComplete | services/api_clients.py:36-42 | every id of the name map has a name in the inverted map |
| ApiClients.IdByNameOfNameById | services/api_clients.py:77-88 | looking up the name found for an id gives that id back, when the name is in normal form |
| ApiClients.IdByNameOfVariants | services/api_clients.py:84-88 | names with the same normal form resolve to the same id |
| ApiClients.WinRate | services/api_clients.py:60-64 | with games played the win rate is `wins / games_played * 100`, and an item without `wins` fails; no games played gives win rate 0 whether or not `wins` is present; an item without `games_played` fails |
| ApiClients.WithWinRates | services/api_clients.py:60-64 | the loop succeeds exactly when every item has a win rate, and then adds it to each item in order |
| ApiClients.GetCounters | services/api_clients.py:50-73 | any failure gives `[]`; otherwise, for `limit >= 0`, exactly `min(limit, n)` of the `n` items, in non-decreasing win-rate order, forming a prefix of the stable ranking, each with the win rate its item gives |
| ApiClients.OneBadItemEmptiesCounters | services/api_clients.py:59-73 | the `try` covers the whole loop: one item whose win rate cannot be computed makes the whole result `[]`, whatever the other items and the limit |
| ApiClients.GetCountersKeepsLowest | services/api_clients.py:66-67 | an item left out has a win rate no lower than any kept one |
| ApiClients.GetCountersAllWhenLimitLarge | services/api_clients.py:66-67 | with a limit no smaller than the reply, every item is returned, reordered |
| ApiClients.GetCountersNegativeLimit | services/api_clients.py:67 | a negative limit drops that many of the highest win rates instead |
| OrderedDict.Set | services/meta_loader.py:30 | assignment makes the key hold the value, keeps the key order of a present key, and appends a new key |
| OrderedDict.SetOther | services/meta_loader.py:30 | assignment leaves every other key's value as it was |
| OrderedDict.FromPairs | services/meta_loader.py:38 | `dict(pairs)` has distinct keys, in the order of their first occurrence |
| OrderedDict.FromPairsGet | services/meta_loader.py:38 | in `dict(pairs)`, a key holds the value of its last pair |
| OrderedDict.InvertSound | services/api_clients.py:42 | every pair of the inverted dict comes from a pair of the original |
| OrderedDict.InvertComplete | services/api_clients.py:42 | every value of the original dict is a key of the inverted one |
| StableSort.SortBy | services/logic.py:62 | the sort is a permutation of its input, in non-decreasing key order |
| StableSort.SortByStable | services/logic.py:62 | for every key value, the elements with that key keep their input order |
| StableSort.SortedPrefixIsLeast | services/api_clients.py:66-67 | an element can be left out of a prefix of the sort only when the prefix is shorter than the list, and its key is then no smaller than any kept |
| StableSort.SortedPrefixKeepsTies | services/logic.py:62 | cutting the sort keeps, among equal keys, a prefix of their input order |
| Seqs.Dedupe | models/types.py:14 | `dict.fromkeys` keeps every value once, in the order of first occurrence, and loses none |
| Seqs.DedupeOfNoDups | models/types.py:14 | de-duplicating a list without duplicates changes nothing |
| Seqs.PyPrefix | services/api_clients.py:67 | `s[:n]` is a prefix of `s` of length `min(n, len)`, or `len + n` floored at 0 for a negative `n` |
| PyStr.StripSpec | services/prompt_builder.py:20 | `strip()` keeps the longest slice that neither starts nor ends with whitespace, everything cut off being whitespace |
| PyStr.SkipSpace | services/openai_generator.py:41 | `\s*`, like the leading cut of `strip()`, consumes the maximal run of whitespace |
| PyStr.StripLower | services/api_clients.py:46 | lower-casing and stripping commute |
| PyStr.StripPadded | services/openai_generator.py:41 | whitespace around a text does not change its `strip()` |
| PyStr.JoinEndsWithLast | services/prompt_builder.py:46 | a join of more than `k` parts ends with the separator and the join of the last `k` parts |
| PyStr.RemovePrefix | services/meta_loader.py:29 | `removeprefix` removes the prefix exactly when the text starts with it |
| PyStr.ReplaceChar | services/api_clients.py:46 | every character of the result comes from the input or the replacement; the replaced character is gone when the replacement does not hold it |
| PyStr.ReplaceCharAbsent | services/api_clients.py:46 | a string without the pattern character comes back unchanged |
| PyStr.ReplaceCharSingle | services/api_clients.py:46 | on one character, `replace` gives the replacement where it is the pattern and the character itself elsewhere |
| PyStr.ReplaceCharAppend | services/api_clients.py:46 | replacing distributes over concatenation, so with `ReplaceCharSingle` the result is the per-character replacement of the input |
| PipelineProperties.AspectFinding | services/prompt_builder.py:35 | as written, every request is answered by the rule-based recommendation, whatever the model would say |
| PipelineProperties.AspectCorrected | services/prompt_builder.py:35-36 | with the aspect read, an accepted model answer reaches the client, and the prompt has the aspect line exactly when an aspect is given |
| PipelineProperties.TimestampBreaksRanking | services/logic.py:51-54 | a meta map holding the timestamp, not excluded, makes the ranking raise |
| PipelineProperties.TimestampNotExcluded | services/logic.py:79-81 | when no catalog hero is called `_last_updated`, no excluded hero is |
| PipelineProperties.RefreshedMetaBreaksRanking | services/meta_loader.py:39 | after `main()` rebuilds the meta file, a recommendation without a valid user hero raises; the scheduled job writes no file, so only a run of `main()` reaches this state |
| PipelineProperties.RefreshedMetaFailsEndpoint | services/meta_analyzer.py:73-75 | after a refresh, such a request on the rule-based path gets a plain 500 |

## Left out

- Network, file and process I/O are inputs of the model: the OpenAI client call, the OpenDota requests, reading `heroes.json` and the prompt files, writing `meta.json`, and `Path.exists`. For the cache directory, the model takes three inputs: what every file holds, which error `open(path, "w")` raises for each path that cannot be opened for writing, and which error `path.exists()` lets escape for each path it cannot stat. On Python 3.9 to 3.12 that is every stat error except ENOENT, ENOTDIR, EBADF and ELOOP, such as ENAMETOOLONG or EACCES; on later versions that map is empty. The model does not relate the two error maps, although a path that cannot be stated usually cannot be opened either.
- The chat model is a function from request to reply. JSON parsing, the JSON-schema check, and the `RecommendationResponse`, `DetailedBuildResponse` and `BuildVariant` constructors are fields of a record of functions, because the schema file and those two record types are not part of this model. The constructor fields are consulted only on a JSON object: `**` of anything else fails before a constructor runs.
- `fallback_detailed_build` and `fallback_build_options` are not part of this model. Their values are recorded as the call with its arguments.
- OpenaiGenerator.GenerateBuildOptions and OpenaiGenerator.GenerateDetailedBuild carry no contract of their own. They pass the model's reply to `OptionsFromReply` and `DetailedFromReply`, which carry the contracts.
- `OPENAI_MODEL`, `OPENAI_TEMP` and `OPENAI_MAX_TOKENS` from the environment are left out. `MAX_TOKENS` is its default, 2000, and the model name and temperature are not modelled.
- `round(x, 3)` is a parameter function, and rates are reals. The meta loader's `/ 1000` for pick and ban rates and `get_counters`' `wins / games_played * 100` are modelled exactly over the reals. Float division and rounding error are left out.
- `str.lower()` and whitespace cover ASCII only. Unicode case mapping and Unicode whitespace are left out.
- The `repr` of a list in the build prompts does not escape quotes inside names.
- JSON `null` stands for Python's `None` in documents. `json.dump`/`json.load` are taken to round-trip a document.
- Exception texts are kept only where the code shows them. The text of a pydantic or schema error is abstract.
- MetaLoader.HeroEntry: a JSON `null` in a `heroStats` field is not told apart from an absent field. In the code, a null `pro_pick` gives `winrate` 0 and then raises TypeError at `None / 1000`, and a null `pro_ban` raises TypeError. A null `localized_name` or `roles` is stored as null, a null `name` raises AttributeError, and a null `pro_win` on a picked hero raises TypeError. The model treats every null as an absent field.
- ApiClients.NamePairs: a JSON `null` in a `/heroes` item is not told apart from an absent field. In the code, a null `localized_name` raises AttributeError in `normalize_hero_name`, not KeyError, and a null `id` is stored as null in the map. The model treats both as absent, which raises KeyError.
- Types.RemoveDuplicates: the input is a list of strings or missing/`None`. Because the validator runs with `pre=True`, a raw string would be split into its characters, any other falsy value such as `""` or `0` gives `[]`, and a non-iterable raises. Those inputs are not modelled.
- In `get_counters`, a null `games_played` or `wins` raises TypeError inside the `try`, so it gives `[]` just as an absent field does. The model's `None` covers both.
- Logic.Candidates: a meta file whose hero entry has a null `roles` is not modelled, because the loader's null is taken as absent. In the code, `info.get("roles", [])` then returns `None`, the loop over it raises TypeError, and the handler answers 500. Logic.CandidatesRaisesIff therefore covers only the meta files in which every hero entry has a list of roles or none. Likewise, a meta file written some other way with a null `winrate` is not modelled: the sort would raise TypeError once it compares `None` with a number.
- BuildCache.CachePath: files are told apart by their pathlib path. The operating system's own resolution of `..` and symbolic links is left out, and so is the working directory. Two paths that pathlib keeps apart, such as `cache/x/../a.json` and `cache/a.json`, or a relative and an absolute path, are taken as two files. The same goes for names that differ only in case on a case-insensitive file system.
- BuildCache.SaveKeepsOthers: for the reason above, it is stated for distinct pathlib paths. Ids whose paths meet only through `..` or a symbolic link can still share one file. SaveKeepsOtherIds, for ids without a slash, is not affected.
- BuildCache.SaveBuild: a failure of `json.dump` after the file was opened is left out. An example is a string holding a lone surrogate, which UTF-8 cannot encode. Such a failure would leave a truncated file behind.
- The hero file is modelled as a list of names. An entry without `name`, or a name that is not a string, is left out.
- `save_meta` is modelled only through its effect in `main`: the meta file becomes the transformed map. `fetch_and_save_meta` (meta_loader.py:62-65), the job the scheduler registers every three days (scheduler.py:13-18), discards the transformed meta and never calls `save_meta`. So the scheduled refresh writes nothing, and MetaLoader.ScheduledRefresh models it as such. The scheduler itself, with its timing and threads, and `scripts/update_heroes.py` are left out.
- Logging, `print`, `lru_cache` memoisation, `load_dotenv`, FastAPI routing and the rate limiter are left out.
- Metadata of the request, such as the client address, is left out.

## Findings

| source | as written | input that shows it | evidently intended | confidence | as-written member | corrected member |
|---|---|---|---|---|---|---|
| services/prompt_builder.py:35 | `build_recommend_prompt` reads `draft.aspect`, but `DraftInput` declares no `aspect` field (models/types.py:6-10). The attribute access raises, and the callers catch it, so the model is never asked and every request gets the rule-based answer. | any draft, e.g. `{"enemy_heroes": [], "ally_heroes": [], "user_role": "mid"}` | the draft carries an optional aspect: the prompt has the aspect line when one is given, and an accepted model answer reaches the client | not executed | OpenaiGenerator.GenerateOpenaiRecommendationAsWritten, PipelineProperties.AspectFinding | OpenaiGenerator.GenerateOpenaiRecommendation, PipelineProperties.AspectCorrected |
| services/openai_generator.py:129-137 | `generate_build_options` calls `fallback_build_options(None)` on a missing reply and on a parse error. That name is neither defined in the file nor imported (lines 18-29), so both paths raise NameError. | a model reply of `None`, or a reply of `"not json"` | both failure paths return the fallback options | not executed | OpenaiGenerator.OptionsFromReplyAsWritten, OpenaiGenerator.BuildOptionsAsWrittenRaises | OpenaiGenerator.OptionsFromReply |
