/** `services/hero_recommender.py`: the entry point that tries the language-model path and
    falls back to the rule-based recommendation. The model path's outcome is an argument, so
    that the path as written and the path with the draft's aspect can both be plugged in. */
module HeroRecommender {
  import opened Outcomes
  import opened Types
  import opened Catalog
  import opened Logic

  /** `recommend_hero_and_build(draft, use_openai)`, given what
      `generate_openai_recommendation(draft)` does: a model answer is returned as it is; when
      the model path is off or raises, the rule-based answer is returned, and whatever that
      raises is re-raised. */
  function RecommendHeroAndBuild(draft: DraftInput, useOpenai: bool, ai: Result<RecommendationResponse>,
                                 files: CatalogFiles): (r: Result<RecommendationResponse>)
    ensures useOpenai && ai.Ok? ==> r == ai
    ensures !(useOpenai && ai.Ok?) ==> r == GenerateRecommendation(draft, files)
  {
    if useOpenai && ai.Ok? then ai else GenerateRecommendation(draft, files)
  }

  /** `use_openai` defaults to true. */
  const DefaultUseOpenai := true

  /** The call raises only with what the rule-based recommendation raises, and only when it
      was needed; an error of the model path never escapes. */
  lemma RecommendRaisesOnlyFromFallback(draft: DraftInput, useOpenai: bool, ai: Result<RecommendationResponse>,
                                        files: CatalogFiles)
    ensures RecommendHeroAndBuild(draft, useOpenai, ai, files).Raised? ==>
              RecommendHeroAndBuild(draft, useOpenai, ai, files) == GenerateRecommendation(draft, files)
              && !(useOpenai && ai.Ok?)
    ensures GenerateRecommendation(draft, files).Ok? ==> RecommendHeroAndBuild(draft, useOpenai, ai, files).Ok?
  {
  }

  /** With the model path off, its outcome does not matter. */
  lemma OfflineIgnoresModel(draft: DraftInput, ai1: Result<RecommendationResponse>, ai2: Result<RecommendationResponse>,
                            files: CatalogFiles)
    ensures RecommendHeroAndBuild(draft, false, ai1, files) == RecommendHeroAndBuild(draft, false, ai2, files)
  {
  }

  /** A model path that always raises makes the call the rule-based recommendation. */
  lemma FailingModelIsFallback(draft: DraftInput, useOpenai: bool, e: Exception, files: CatalogFiles)
    ensures RecommendHeroAndBuild(draft, useOpenai, Raised(e), files) == GenerateRecommendation(draft, files)
  {
  }
}
