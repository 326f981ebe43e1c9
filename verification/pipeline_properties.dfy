/** Properties that span several services: what the draft's missing aspect does to the
    model path, and what the meta file written by the loader does to the rule-based
    ranking behind the recommend endpoint. */
module PipelineProperties {
  import opened Outcomes
  import opened PyStr
  import opened OrderedDict
  import opened Types
  import opened Catalog
  import opened Logic
  import opened PromptBuilder
  import opened OpenaiGenerator
  import HeroRecommender
  import MetaAnalyzer
  import MetaLoader

  // ---------------------------------------------------------------- the draft's aspect

  /** As written, the model is never consulted: building the prompt reads an `aspect` the
      draft record does not have, the resulting AttributeError is caught by
      `recommend_hero_and_build`, and every request, whatever the model would have said, is
      answered by the rule-based recommendation. */
  lemma AspectFinding(d: DraftInput, aspect: Option<string>, useOpenai: bool, t: Templates, chat: Chat,
                      col: Collaborators, files: CatalogFiles)
    ensures HeroRecommender.RecommendHeroAndBuild(d, useOpenai,
              GenerateOpenaiRecommendationAsWritten(d, t, chat, col, files), files)
         == GenerateRecommendation(d, files)
    ensures MetaAnalyzer.RecommendTeam(d, Some(useOpenai),
              GenerateOpenaiRecommendationAsWritten(d, t, chat, col, files), files)
         == MetaAnalyzer.Reply(GenerateRecommendation(d, files))
    ensures var q := DraftWithAspect(d, aspect);
            AiAccepted(chat(RecommendRequest(t, q)), col) && useOpenai
            ==> (HeroRecommender.RecommendHeroAndBuild(d, useOpenai,
                   GenerateOpenaiRecommendation(q, t, chat, col, files), files)
                 == Ok(AiResponse(chat(RecommendRequest(t, q)), col)))
  {
  }

  /** With the draft read together with its aspect, the model path does what the service
      promises: an accepted model answer is what the caller gets, and the prompt sent for it
      has the aspect line after the hero line when an aspect is given, and one part fewer
      when none is. */
  lemma AspectCorrected(d: DraftInput, aspect: Option<string>, t: Templates, chat: Chat,
                        col: Collaborators, files: CatalogFiles)
    ensures var q := DraftWithAspect(d, aspect);
            AiAccepted(chat(RecommendRequest(t, q)), col)
            ==> (MetaAnalyzer.RecommendTeam(d, None, GenerateOpenaiRecommendation(q, t, chat, col, files), files)
                 == MetaAnalyzer.Reply200(AiResponse(chat(RecommendRequest(t, q)), col)))
    ensures var parts := RecommendPromptParts(t, DraftWithAspect(d, aspect));
            (NonEmpty(aspect) ==> AspectLine(aspect.value) in parts)
            && (!NonEmpty(aspect) <==> |parts| == |RecommendPromptParts(t, DraftWithAspect(d, None))|)
  {
    var parts := RecommendPromptParts(t, DraftWithAspect(d, aspect));
    if NonEmpty(aspect) {
      assert parts[5] == AspectLine(aspect.value);
    }
  }

  // ---------------------------------------------------------------- the refreshed meta file

  /** A non-excluded timestamp entry makes the ranking raise. */
  lemma TimestampBreaksRanking(meta: Meta, excluded: set<string>, role: string, now: string)
    requires Get(meta, MetaLoader.LastUpdatedKey) == Some(Timestamp(now))
    requires MetaLoader.LastUpdatedKey !in excluded
    ensures RecommendByMeta(role, excluded, meta) == Raised(AttributeError(NoGetOnStr))
  {
    assert (MetaLoader.LastUpdatedKey, Timestamp(now)) in meta;
    var i :| 0 <= i < |meta| && meta[i] == (MetaLoader.LastUpdatedKey, Timestamp(now));
    assert Breaks(meta, excluded, i);
  }

  /** When no hero of the catalog is called `_last_updated`, no cleaned draft hero is. */
  lemma TimestampNotExcluded(draft: DraftInput, files: CatalogFiles)
    requires files.heroes.Present?
    requires forall i :: 0 <= i < |files.heroes.content| ==> Lower(files.heroes.content[i]) != MetaLoader.LastUpdatedKey
    ensures MetaLoader.LastUpdatedKey !in ExcludedHeroes(CleanEnemy(draft, files), CleanAlly(draft, files), None)
  {
    assert MetaLoader.LastUpdatedKey !in LoadValidHeroes(files.heroes).value;
  }

  /** The meta file the loader writes carries its `_last_updated` timestamp next to the hero
      entries. When no valid hero of the user is given and no hero of the catalog is called
      `_last_updated`, the ranking reads the timestamp's roles, and the rule-based
      recommendation raises the AttributeError of `.get` on a string. */
  lemma RefreshedMetaBreaksRanking(draft: DraftInput, names: seq<string>, raw: seq<MetaLoader.RawHero>,
                                   round3: real -> real, now: string)
    requires MetaLoader.TransformHeroes(raw, round3, now).Ok?
    requires forall i :: 0 <= i < |names| ==> Lower(names[i]) != MetaLoader.LastUpdatedKey
    requires CheckedUserHero(draft.userHero, LoadValidHeroes(Present(names)).value).None?
    ensures GenerateRecommendation(draft,
              CatalogFiles(Present(names), Present(MetaLoader.TransformHeroes(raw, round3, now).value)))
         == Raised(AttributeError(NoGetOnStr))
  {
    var meta := MetaLoader.TransformHeroes(raw, round3, now).value;
    var files := CatalogFiles(Present(names), Present(meta));
    TimestampNotExcluded(draft, files);
    TimestampBreaksRanking(meta, ExcludedHeroes(CleanEnemy(draft, files), CleanAlly(draft, files), None),
                           RoleName(draft.userRole), now);
    GenerateRecommendationRankingRaises(draft, files);
  }

  /** Through the endpoint: after a successful refresh, a request without a valid hero of
      its own that the model path does not answer gets a plain 500. */
  lemma RefreshedMetaFailsEndpoint(draft: DraftInput, names: seq<string>, f: MetaLoader.Fetch,
                                   round3: real -> real, now: string, file: DataFile<Meta>,
                                   useOpenai: Option<bool>, ai: Result<RecommendationResponse>)
    requires MetaLoader.FetchMeta(f) != [] && MetaLoader.RefreshMeta(f, round3, now, file).Ok?
    requires forall i :: 0 <= i < |names| ==> Lower(names[i]) != MetaLoader.LastUpdatedKey
    requires CheckedUserHero(draft.userHero, LoadValidHeroes(Present(names)).value).None?
    requires !(useOpenai.GetOr(true) && ai.Ok?)
    ensures MetaAnalyzer.RecommendTeam(draft, useOpenai, ai,
              CatalogFiles(Present(names), MetaLoader.RefreshMeta(f, round3, now, file).value))
         == MetaAnalyzer.HttpError(500, MetaAnalyzer.InternalDetail)
  {
    RefreshedMetaBreaksRanking(draft, names, MetaLoader.FetchMeta(f), round3, now);
  }
}
