/** `services/meta_analyzer.py`: the `POST /api/recommend` handler. The rate limiter, the
    request logging and the client address are left out; the handler's choice between the
    two recommenders and its mapping of errors to HTTP replies are modelled. */
module MetaAnalyzer {
  import opened Outcomes
  import opened Types
  import opened Catalog
  import opened Logic
  import HeroRecommender

  /** What the handler sends back: the response body, or an `HTTPException`. */
  datatype HttpReply = Reply200(body: RecommendationResponse) | HttpError(status: int, detail: string)

  const MetaMissingDetail := "Файл с мета-данными не найден."
  const InternalDetail := "Внутренняя ошибка сервера."

  /** The `except` clauses in order: a `ValueError` (JSON and validation errors included) is a
      400 carrying its text; a missing file is a 500 naming the meta file; anything else is a
      plain 500. */
  function ErrorReply(e: Exception): (r: HttpReply)
    ensures r.HttpError?
    ensures r.status == 400 <==> e.IsValueError()
    ensures e.IsValueError() ==> r.detail == e.message
    ensures !e.IsValueError() ==> r.status == 500
    ensures e.FileNotFoundError? ==> r.detail == MetaMissingDetail
    ensures !e.IsValueError() && !e.FileNotFoundError? ==> r.detail == InternalDetail
  {
    if e.IsValueError() then HttpError(400, e.message)
    else if e.FileNotFoundError? then HttpError(500, MetaMissingDetail)
    else HttpError(500, InternalDetail)
  }

  /** A value or exception turned into the handler's reply. */
  function Reply(r: Result<RecommendationResponse>): (h: HttpReply)
    ensures r.Ok? <==> h.Reply200?
    ensures r.Ok? ==> h.body == r.value
    ensures r.Raised? ==> h == ErrorReply(r.exc)
  {
    match r
    case Ok(v) => Reply200(v)
    case Raised(e) => ErrorReply(e)
  }

  /** `recommend_team(request, draft, use_openai)`, given what
      `generate_openai_recommendation(draft)` does; an absent query parameter means true. */
  function RecommendTeam(draft: DraftInput, useOpenai: Option<bool>, ai: Result<RecommendationResponse>,
                         files: CatalogFiles): (h: HttpReply)
    ensures useOpenai.GetOr(true) && ai.Ok? ==> h == Reply200(ai.value)
    ensures !(useOpenai.GetOr(true) && ai.Ok?) ==> h == Reply(GenerateRecommendation(draft, files))
  {
    var result :=
      if useOpenai.GetOr(HeroRecommender.DefaultUseOpenai) then
        match ai
        case Ok(v) => Ok(v)
        case Raised(_) => GenerateRecommendation(draft, files)
      else GenerateRecommendation(draft, files);
    Reply(result)
  }

  /** The handler and `recommend_hero_and_build` pick the same recommendation: the handler's
      reply is the service's outcome turned into HTTP. */
  lemma HandlerAgreesWithService(draft: DraftInput, useOpenai: Option<bool>, ai: Result<RecommendationResponse>,
                                 files: CatalogFiles)
    ensures RecommendTeam(draft, useOpenai, ai, files)
         == Reply(HeroRecommender.RecommendHeroAndBuild(draft, useOpenai.GetOr(true), ai, files))
  {
  }

  /** When the rule-based path runs, a missing meta file never reaches the client as a success:
      the reply is the 500 naming the meta file, or a 400 carrying the parser's message when
      the hero file read before it is malformed. */
  lemma MissingCatalogReplies(draft: DraftInput, useOpenai: Option<bool>, ai: Result<RecommendationResponse>,
                              files: CatalogFiles)
    requires !(useOpenai.GetOr(true) && ai.Ok?)
    requires files.meta.Missing?
    ensures RecommendTeam(draft, useOpenai, ai, files) == HttpError(500, MetaMissingDetail)
            || RecommendTeam(draft, useOpenai, ai, files).status == 400
  {
    GenerateRecommendationRaises(draft, files);
  }
}
