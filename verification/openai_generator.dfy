/** `services/openai_generator.py`: the three generators that ask the language model and
    fall back to rule-based or stand-in results. The model's API, `json.loads`, the JSON
    schema check and the pydantic constructors the file uses are inputs: the API key and the
    completion call are arguments of `ChatCompletion`, and the rest travel in `Collaborators`. */
module OpenaiGenerator {
  import opened Outcomes
  import opened PyStr
  import opened Json
  import opened Types
  import opened Catalog
  import opened Logic
  import opened BuildCache
  import opened PromptBuilder
  import opened JsonBlock

  // ---------------------------------------------------------------- chat_completion

  /** One request to the chat model: system message, user message and token cap. */
  datatype ChatRequest = ChatRequest(system: string, user: string, maxTokens: int)

  /** The message of the first choice; its `content` may be absent. */
  datatype Message = Message(content: Option<string>)

  /** What the client call did: it raised, or it returned the completion's choices. */
  datatype ApiCall = ApiRaised | Completion(choices: seq<Message>)

  /** The `max_tokens` default, `OPENAI_MAX_TOKENS` unset. */
  const DefaultMaxTokens := 2000

  /** `get_openai_client` accepts the key: it is set and starts with `sk-`. */
  predicate KeyAccepted(apiKey: Option<string>) {
    apiKey.Some? && StartsWith(apiKey.value, "sk-")
  }

  /** `chat_completion`: the first choice's message, or `None` when the key is missing or
      invalid, when the call raises, or when there is no choice. It never raises. */
  function ChatCompletion(apiKey: Option<string>, api: ChatRequest -> ApiCall, req: ChatRequest): (r: Option<Message>)
    ensures !KeyAccepted(apiKey) ==> r.None?
    ensures api(req).ApiRaised? || api(req) == Completion([]) ==> r.None?
    ensures r.Some? <==> KeyAccepted(apiKey) && api(req).Completion? && api(req).choices != []
    ensures r.Some? ==> r.value == api(req).choices[0]
  {
    if !KeyAccepted(apiKey) then None
    else match api(req)
      case ApiRaised => None
      case Completion(choices) => if choices == [] then None else Some(choices[0])
  }

  /** The chat model as the generators see it: `chat_completion` with the key and client fixed. */
  type Chat = ChatRequest -> Option<Message>

  // ---------------------------------------------------------------- collaborators

  /** `validate_openai_json` on one document: conforms, violates the schema (the function
      returns false), or fails otherwise, e.g. an unreadable schema file (the error escapes). */
  datatype SchemaVerdict = Conforms | Violates(message: string) | SchemaError(exc: Exception)

  /** The calls the generators make into code outside this file. */
  datatype Collaborators = Collaborators(
    loads: string -> Option<Json>,                            // json.loads; None when it raises
    schema: Json -> SchemaVerdict,                            // schema file + jsonschema.validate
    asRecommendation: Json -> Option<RecommendationResponse>, // RecommendationResponse(**parsed), on an object
    acceptsDetailed: Json -> bool,                            // DetailedBuildResponse(**doc) succeeds, on an object
    acceptsVariant: Json -> bool)                             // BuildVariant(**b) succeeds, on an object

  /** `RecommendationResponse(**parsed)`: `**` needs a mapping, so anything but a JSON object
      fails before the constructor sees it. */
  function AsRecommendation(col: Collaborators, parsed: Json): Option<RecommendationResponse> {
    if parsed.JObj? then col.asRecommendation(parsed) else None
  }

  /** `DetailedBuildResponse(**doc)` succeeds: `doc` is a JSON object the constructor accepts. */
  predicate AcceptsDetailed(col: Collaborators, doc: Json) {
    doc.JObj? && col.acceptsDetailed(doc)
  }

  /** `validate_openai_json(data)`. */
  function ValidateOpenaiJson(col: Collaborators, data: Json): (r: Result<bool>)
    ensures r == Ok(true) <==> col.schema(data) == Conforms
    ensures r == Ok(false) <==> col.schema(data).Violates?
    ensures r.Raised? <==> col.schema(data).SchemaError?
  {
    match col.schema(data)
    case Conforms => Ok(true)
    case Violates(_) => Ok(false)
    case SchemaError(e) => Raised(e)
  }

  // ---------------------------------------------------------------- generate_openai_recommendation

  /** Extracted replies that `generate_openai_recommendation` treats as no answer. */
  const NoAnswers: set<string> := {"null", "none", ""}

  const NoneHasNoStrip := "'NoneType' object has no attribute 'strip'"

  /** Every gate of the AI path passes: a reply with content, an extracted block that is no
      "null"/"none"/"" in any case, that parses, conforms to the schema and builds a response. */
  predicate AiAccepted(reply: Option<Message>, col: Collaborators) {
    reply.Some? && reply.value.content.Some?
    && var c := ExtractJsonBlock(reply.value.content.value);
    Lower(c) !in NoAnswers && col.loads(c).Some? && col.schema(col.loads(c).value) == Conforms
    && AsRecommendation(col, col.loads(c).value).Some?
  }

  /** The response the AI path builds when every gate passes. */
  function AiResponse(reply: Option<Message>, col: Collaborators): RecommendationResponse
    requires AiAccepted(reply, col)
  {
    AsRecommendation(col, col.loads(ExtractJsonBlock(reply.value.content.value)).value).value
  }

  /** `generate_openai_recommendation` once the prompt is built: ask the model, and run the
      reply through the gates; every failed gate returns `generate_recommendation(draft)`.
      A reply without content raises, as `.strip()` on `None` does outside the `try`. */
  function RecommendWithPrompt(system: string, prompt: string, draft: DraftInput, chat: Chat,
                               col: Collaborators, files: CatalogFiles): (r: Result<RecommendationResponse>)
    ensures var reply := chat(ChatRequest(system, prompt, DefaultMaxTokens));
            AiAccepted(reply, col) ==> r == Ok(AiResponse(reply, col))
    ensures var reply := chat(ChatRequest(system, prompt, DefaultMaxTokens));
            reply.Some? && reply.value.content.None? ==> r == Raised(AttributeError(NoneHasNoStrip))
    ensures var reply := chat(ChatRequest(system, prompt, DefaultMaxTokens));
            (!AiAccepted(reply, col) && !(reply.Some? && reply.value.content.None?))
            ==> r == GenerateRecommendation(draft, files)
  {
    var fallback := GenerateRecommendation(draft, files);
    match chat(ChatRequest(system, prompt, DefaultMaxTokens))
    case None => fallback
    case Some(msg) =>
      match msg.content
      case None => Raised(AttributeError(NoneHasNoStrip))
      case Some(text) =>
        var content := ExtractJsonBlock(text);
        if Lower(content) in NoAnswers then fallback
        else match col.loads(content)
          case None => fallback
          case Some(parsed) =>
            match ValidateOpenaiJson(col, parsed)
            case Raised(_) => fallback
            case Ok(valid) =>
              if !valid then fallback
              else match AsRecommendation(col, parsed)
                case None => fallback
                case Some(resp) => Ok(resp)
  }

  /** The recommendation prompt's request to the model. */
  function RecommendRequest(t: Templates, d: DraftWithAspect): ChatRequest {
    ChatRequest(t.base, BuildRecommendPrompt(t, d), DefaultMaxTokens)
  }

  /** `generate_openai_recommendation(draft)` for a draft read with its aspect. */
  function GenerateOpenaiRecommendation(d: DraftWithAspect, t: Templates, chat: Chat, col: Collaborators,
                                        files: CatalogFiles): (r: Result<RecommendationResponse>)
    ensures AiAccepted(chat(RecommendRequest(t, d)), col) ==> r == Ok(AiResponse(chat(RecommendRequest(t, d)), col))
  {
    RecommendWithPrompt(t.base, BuildRecommendPrompt(t, d), d.draft, chat, col, files)
  }

  /** `generate_openai_recommendation(draft)` on the draft record as declared: building the
      prompt raises, so the model is never asked. */
  function GenerateOpenaiRecommendationAsWritten(d: DraftInput, t: Templates, chat: Chat, col: Collaborators,
                                                 files: CatalogFiles): (r: Result<RecommendationResponse>)
    ensures r.Raised? && r.exc.AttributeError?
  {
    match BuildRecommendPromptAsWritten(t, d)
    case Raised(e) => Raised(e)
    case Ok(prompt) => RecommendWithPrompt(t.base, prompt, d, chat, col, files)
  }

  /** The AI path answers with a model-built response only when every gate passed; any other
      answer it gives is the rule-based recommendation or the missing-content error. */
  lemma AiResponseOnlyWhenAccepted(d: DraftWithAspect, t: Templates, chat: Chat, col: Collaborators,
                                   files: CatalogFiles)
    ensures var r := GenerateOpenaiRecommendation(d, t, chat, col, files);
            var reply := chat(RecommendRequest(t, d));
            r == GenerateRecommendation(d.draft, files)
            || r == Raised(AttributeError(NoneHasNoStrip))
            || (AiAccepted(reply, col) && r == Ok(AiResponse(reply, col)))
  {
  }

  /** No reply, or a reply that says "null", "None" or nothing, gives the rule-based answer. */
  lemma NoAnswerFallsBack(d: DraftWithAspect, t: Templates, chat: Chat, col: Collaborators,
                          files: CatalogFiles)
    requires var reply := chat(RecommendRequest(t, d));
             reply.None? || (reply.value.content.Some? && Lower(ExtractJsonBlock(reply.value.content.value)) in NoAnswers)
    ensures GenerateOpenaiRecommendation(d, t, chat, col, files) == GenerateRecommendation(d.draft, files)
  {
  }

  /** A schema violation or schema failure gives the rule-based answer, whatever the
      response constructor would have made of the document. */
  lemma SchemaRejectionFallsBack(d: DraftWithAspect, t: Templates, chat: Chat, col: Collaborators,
                                 files: CatalogFiles)
    requires var reply := chat(RecommendRequest(t, d));
             reply.Some? && reply.value.content.Some?
             && var c := ExtractJsonBlock(reply.value.content.value);
             col.loads(c).Some? && col.schema(col.loads(c).value) != Conforms
    ensures GenerateOpenaiRecommendation(d, t, chat, col, files) == GenerateRecommendation(d.draft, files)
  {
  }

  // ---------------------------------------------------------------- generate_build_options

  /** The arguments of `generate_build_options`. */
  datatype OptionsRequest = OptionsRequest(hero: string, role: string, aspect: string, enemyLane: seq<string>)

  /** What `generate_build_options` returns: the documents each turned into a `BuildVariant`,
      or the value of `fallback_build_options(None)`, which this file does not define. */
  datatype BuildOptions = Variants(docs: seq<Json>) | FallbackOptions(arg: Option<string>)

  /** `repr` of a list of strings, as an f-string shows it (quotes inside names not escaped). */
  function ListRepr(xs: seq<string>): string {
    "[" + Join(QuotedAll(xs), ", ") + "]"
  }

  function QuotedAll(xs: seq<string>): (r: seq<string>)
    ensures |r| == |xs|
  {
    if xs == [] then [] else ["'" + xs[0] + "'"] + QuotedAll(xs[1..])
  }

  const OptionsSystem := "Ты помощник Dota 2. Твоя задача — предлагать билд-опции."
  const OptionsMaxTokens := 1000

  function OptionsPrompt(q: OptionsRequest): string {
    "Герой: " + q.hero + "\n" + "Роль: " + q.role + "\n" + "Аспект: " + q.aspect + "\n"
    + "Враги на линии: " + ListRepr(q.enemyLane) + "\n\n"
    + "Сгенерируй 3-5 билдов (BuildVariant) с полями: id, label, description.\n"
    + "Ответ строго в JSON-массиве."
  }

  /** `[BuildVariant(**b) for b in builds]`: a list of accepted objects gives its items; an
      empty object or empty string iterates to nothing; anything else raises inside the loop. */
  function VariantsOf(builds: Json, col: Collaborators): (r: Option<seq<Json>>)
    ensures r.Some? ==> forall i :: 0 <= i < |r.value| ==> r.value[i].JObj? && col.acceptsVariant(r.value[i])
    ensures builds.JArr? ==> (r.Some? <==> forall i :: 0 <= i < |builds.items| ==>
                                builds.items[i].JObj? && col.acceptsVariant(builds.items[i]))
    ensures builds.JArr? && r.Some? ==> r.value == builds.items
    ensures !builds.JArr? ==> (r.Some? <==> builds == JObj(map[]) || builds == JStr(""))
  {
    match builds
    case JArr(xs) =>
      if forall i :: 0 <= i < |xs| ==> xs[i].JObj? && col.acceptsVariant(xs[i]) then Some(xs) else None
    case JObj(m) => if m == map[] then Some([]) else None
    case JStr(s) => if s == "" then Some([]) else None
    case _ => None
  }

  /** What the parse step of `generate_build_options` yields for one reply, `None` when it raises. */
  function ParsedOptions(msg: Message, col: Collaborators): Option<seq<Json>> {
    match msg.content
    case None => None
    case Some(text) =>
      match col.loads(ExtractJsonBlock(text))
      case None => None
      case Some(builds) => VariantsOf(builds, col)
  }

  /** The request `generate_build_options` sends. */
  function OptionsChatRequest(q: OptionsRequest): ChatRequest {
    ChatRequest(OptionsSystem, OptionsPrompt(q), OptionsMaxTokens)
  }

  /** `generate_build_options` once the model has answered its request with `reply`, with
      the fallback the two failure paths name. */
  function OptionsFromReply(reply: Option<Message>, col: Collaborators): (r: BuildOptions)
    ensures reply.None? ==> r == FallbackOptions(None)
    ensures r.FallbackOptions? ==> r.arg == None
    ensures r.Variants? ==> forall i :: 0 <= i < |r.docs| ==> r.docs[i].JObj? && col.acceptsVariant(r.docs[i])
  {
    match reply
    case None => FallbackOptions(None)
    case Some(msg) =>
      match ParsedOptions(msg, col)
      case None => FallbackOptions(None)
      case Some(docs) => Variants(docs)
  }

  /** `generate_build_options(hero, role, aspect, enemy_lane)`. */
  function GenerateBuildOptions(q: OptionsRequest, chat: Chat, col: Collaborators): BuildOptions {
    OptionsFromReply(chat(OptionsChatRequest(q)), col)
  }

  /** A reply holding a JSON array of accepted objects yields exactly those objects. */
  lemma BuildOptionsFromArray(text: string, col: Collaborators, items: seq<Json>)
    requires col.loads(ExtractJsonBlock(text)) == Some(JArr(items))
    requires forall i :: 0 <= i < |items| ==> items[i].JObj? && col.acceptsVariant(items[i])
    ensures OptionsFromReply(Some(Message(Some(text))), col) == Variants(items)
  {
  }

  /** A reply that does not parse, or whose content is missing, yields the fallback. */
  lemma BuildOptionsParseFailure(msg: Message, col: Collaborators)
    requires msg.content.None? || col.loads(ExtractJsonBlock(msg.content.value)).None?
    ensures OptionsFromReply(Some(msg), col) == FallbackOptions(None)
  {
  }

  const NoFallbackOptions := "name 'fallback_build_options' is not defined"

  /** `generate_build_options` as the file has it, once the model has answered:
      `fallback_build_options` is neither defined nor imported there, so both fallback paths
      raise `NameError`. */
  function OptionsFromReplyAsWritten(reply: Option<Message>, col: Collaborators): (r: Result<BuildOptions>)
    ensures r.Ok? ==> r.value.Variants?
  {
    match reply
    case None => Raised(NameError(NoFallbackOptions))
    case Some(msg) =>
      match ParsedOptions(msg, col)
      case None => Raised(NameError(NoFallbackOptions))
      case Some(docs) => Ok(Variants(docs))
  }

  /** `generate_build_options(hero, role, aspect, enemy_lane)` as the file has it. */
  function GenerateBuildOptionsAsWritten(q: OptionsRequest, chat: Chat, col: Collaborators): Result<BuildOptions> {
    OptionsFromReplyAsWritten(chat(OptionsChatRequest(q)), col)
  }

  /** The code as written agrees with the intended generator on every parsed reply and raises
      exactly where the intended one falls back. */
  lemma BuildOptionsAsWrittenRaises(reply: Option<Message>, col: Collaborators)
    ensures var intended := OptionsFromReply(reply, col);
            var written := OptionsFromReplyAsWritten(reply, col);
            (intended.Variants? ==> written == Ok(intended))
            && (intended.FallbackOptions? ==> written == Raised(NameError(NoFallbackOptions)))
  {
  }

  // ---------------------------------------------------------------- normalize_openai_detailed_response

  /** The keys `normalize_openai_detailed_response` copies from the first build. */
  const DetailKeys: seq<string> := ["starting_items", "early_game_items", "mid_game_items", "late_game_items",
                                    "situational_items", "skill_build", "talents", "game_plan", "item_explanations"]

  /** `parsed.setdefault(key, first.get(key))` for each key in turn. */
  function FillFromFirst(m: map<string, Json>, first: map<string, Json>, keys: seq<string>): (r: map<string, Json>)
    ensures forall k :: k in r <==> k in m || k in keys
    ensures forall k :: k in m ==> r[k] == m[k]
    ensures forall i :: 0 <= i < |keys| && keys[i] !in m ==> r[keys[i]] == GetOrNull(first, keys[i])
    decreases |keys|
  {
    if keys == [] then m
    else
      var r := FillFromFirst(SetDefault(m, keys[0], GetOrNull(first, keys[0])), first, keys[1..]);
      assert forall i :: 1 <= i < |keys| ==> keys[i] == keys[1..][i - 1];
      assert forall k :: k in keys <==> k == keys[0] || k in keys[1..];
      r
  }

  const NoGetOnList := "object has no attribute 'get'"

  /** `builds` is a non-empty list. */
  predicate HasBuilds(m: map<string, Json>) {
    "builds" in m && m["builds"].JArr? && m["builds"].items != []
  }

  /** `normalize_openai_detailed_response(parsed)`: when `builds` is a non-empty list, the nine
      keys missing from the document are filled from its first build. A document that is no
      object, or a first build that is no object, raises (`.get` on a non-dict). */
  function Normalize(parsed: Json): (r: Result<Json>)
    ensures !parsed.JObj? ==> r.Raised? && r.exc.AttributeError?
    ensures parsed.JObj? && !HasBuilds(parsed.fields) ==> r == Ok(parsed)
    ensures parsed.JObj? && HasBuilds(parsed.fields) ==>
              (r.Raised? <==> !parsed.fields["builds"].items[0].JObj?)
    ensures r.Ok? ==> r.value.JObj? && parsed.JObj?
    ensures r.Ok? ==> forall k :: k in parsed.fields ==> k in r.value.fields && r.value.fields[k] == parsed.fields[k]
    ensures r.Ok? && HasBuilds(parsed.fields) ==>
              forall k :: k in r.value.fields <==> k in parsed.fields || k in DetailKeys
    ensures r.Ok? && !HasBuilds(parsed.fields) ==> r.value.fields.Keys == parsed.fields.Keys
  {
    match parsed
    case JObj(m) =>
      if HasBuilds(m) then
        match m["builds"].items[0]
        case JObj(first) => Ok(JObj(FillFromFirst(m, first, DetailKeys)))
        case _ => Raised(AttributeError(NoGetOnList))
      else Ok(parsed)
    case _ => Raised(AttributeError(NoGetOnList))
  }

  /** Filling from the first build fills each missing key with that build's value, `null`
      when the build lacks it. */
  lemma NormalizeFillsFromFirst(parsed: Json, i: nat)
    requires Normalize(parsed).Ok? && parsed.JObj? && HasBuilds(parsed.fields)
    requires i < |DetailKeys| && DetailKeys[i] !in parsed.fields
    ensures var first := parsed.fields["builds"].items[0];
            first.JObj? && Normalize(parsed).value.fields[DetailKeys[i]] == GetOrNull(first.fields, DetailKeys[i])
  {
  }

  /** Normalising twice is normalising once. */
  lemma NormalizeIdempotent(parsed: Json)
    requires Normalize(parsed).Ok?
    ensures Normalize(Normalize(parsed).value) == Normalize(parsed)
  {
    var m := parsed.fields;
    if HasBuilds(m) {
      var first := m["builds"].items[0].fields;
      NormalizeWithBuilds(m, first);
      NormalizeFilled(m, first);
    }
  }

  /** A document filled from its first build normalises to itself. */
  lemma NormalizeFilled(m: map<string, Json>, first: map<string, Json>)
    requires HasBuilds(m) && m["builds"].items[0] == JObj(first)
    ensures var f := FillFromFirst(m, first, DetailKeys);
            Normalize(JObj(f)) == Ok(JObj(f))
  {
    var f := FillFromFirst(m, first, DetailKeys);
    assert f["builds"] == m["builds"];
    NormalizeWithBuilds(f, first);
    FillTwice(m, first, DetailKeys);
  }

  /** Filling twice from the same build is filling once. */
  lemma FillTwice(m: map<string, Json>, first: map<string, Json>, keys: seq<string>)
    ensures FillFromFirst(FillFromFirst(m, first, keys), first, keys) == FillFromFirst(m, first, keys)
  {
    FillOfFilled(FillFromFirst(m, first, keys), first, keys);
  }

  // A reply with a first build object normalises to that object filled from its own top level.
  lemma NormalizeWithBuilds(m: map<string, Json>, first: map<string, Json>)
    requires HasBuilds(m) && m["builds"].items[0] == JObj(first)
    ensures Normalize(JObj(m)) == Ok(JObj(FillFromFirst(m, first, DetailKeys)))
  {
  }

  /** Filling a map that already holds every key changes nothing. */
  lemma {:induction false} FillOfFilled(m: map<string, Json>, first: map<string, Json>, keys: seq<string>)
    requires forall i :: 0 <= i < |keys| ==> keys[i] in m
    ensures FillFromFirst(m, first, keys) == m
  {
    if keys != [] {
      assert SetDefault(m, keys[0], GetOrNull(first, keys[0])) == m;
      FillOfFilled(m, first, keys[1..]);
    }
  }

  // ---------------------------------------------------------------- generate_detailed_build

  /** The arguments of `generate_detailed_build`. */
  datatype BuildRequest = BuildRequest(hero: string, role: string, aspect: string, buildId: string,
                                       enemies: seq<string>, allies: seq<string>)

  /** What `generate_detailed_build` returns: `DetailedBuildResponse(**doc)`, or the value of
      `fallback_detailed_build` for the request's arguments. */
  datatype DetailedBuild = FromDocument(doc: Json) | FallbackDetailed(request: BuildRequest)

  /** The answer of one call and the cache directory after it. */
  datatype DetailedRun = DetailedRun(result: Result<DetailedBuild>, cache: Cache)

  const DetailedSystem := "Ты стратег в Dota 2. Возвращай подробный билд."
  const DetailedMaxTokens := 1500

  function DetailedPrompt(q: BuildRequest): string {
    "Герой: " + q.hero + ", Роль: " + q.role + ", Аспект: " + q.aspect + "\n"
    + "Билд: " + q.buildId + "\n"
    + "Враги: " + ListRepr(q.enemies) + "\n"
    + "Союзники: " + ListRepr(q.allies) + "\n\n"
    + "Сгенерируй DetailedBuildResponse с полями:\n"
    + "- starting_items, early_game_items, mid_game_items, late_game_items, situational_items\n"
    + "- skill_build, talents, game_plan, item_explanations\n"
    + "- warnings, source='openai', builds=[]\n"
    + "Ответ строго в JSON."
  }

  function DetailedRequest(q: BuildRequest): ChatRequest {
    ChatRequest(DetailedSystem, DetailedPrompt(q), DetailedMaxTokens)
  }

  /** The three `setdefault` calls after normalising. */
  function WithDefaults(m: map<string, Json>): (r: map<string, Json>)
    ensures r.Keys == m.Keys + {"warnings", "source", "builds"}
    ensures forall k :: k in m ==> r[k] == m[k]
    ensures "warnings" !in m ==> r["warnings"] == JArr([])
    ensures "source" !in m ==> r["source"] == JStr("openai")
    ensures "builds" !in m ==> r["builds"] == JArr([])
  {
    SetDefault(SetDefault(SetDefault(m, "warnings", JArr([])), "source", JStr("openai")), "builds", JArr([]))
  }

  /** The error `DetailedBuildResponse(**doc)` raises for a rejected document. */
  function RejectedDetailed(doc: Json): Exception {
    if doc.JObj? then ValidationError("DetailedBuildResponse") else TypeError("argument after ** must be a mapping")
  }

  /** The document the model path builds from a reply, or `None` where the `try` block raises
      before the schema check. */
  function DetailedDocument(reply: Message, col: Collaborators): (r: Option<Json>)
    ensures r.Some? ==> r.value.JObj? && Truthy(r.value)
    ensures r.Some? ==> "warnings" in r.value.fields && "source" in r.value.fields && "builds" in r.value.fields
  {
    match reply.content
    case None => None
    case Some(text) =>
      match col.loads(ExtractJsonBlock(text))
      case None => None
      case Some(parsed) =>
        match Normalize(parsed)
        case Raised(_) => None
        case Ok(norm) => Some(JObj(WithDefaults(norm.fields)))
  }

  /** The document built from the model's reply, `None` when there is no reply or building
      the document raises. */
  function ReplyDocument(reply: Option<Message>, col: Collaborators): Option<Json> {
    match reply
    case None => None
    case Some(msg) => DetailedDocument(msg, col)
  }

  /** A truthy cached document for the request's build id. */
  predicate CacheHit(c: Cache, buildId: string) {
    var hit := LoadBuild(c, buildId);
    hit.Ok? && hit.value.Some? && Truthy(hit.value.value)
  }

  /** A cache miss: the lookup neither raises nor finds a truthy document, so the model is
      asked. */
  predicate CacheMiss(c: Cache, buildId: string) {
    LoadBuild(c, buildId).Ok? && !CacheHit(c, buildId)
  }

  /** The cached document of a cache hit. */
  function CachedDoc(c: Cache, buildId: string): Json
    requires CacheHit(c, buildId)
  {
    LoadBuild(c, buildId).value.value
  }

  /** The model path saves the document it built: there is one, it conforms to the schema,
      and its cache file can be opened for writing. */
  predicate SavesDocument(q: BuildRequest, c: Cache, reply: Option<Message>, col: Collaborators) {
    var md := ReplyDocument(reply, col);
    md.Some? && col.schema(md.value) == Conforms && SaveBuild(c, q.buildId, md.value).Ok?
  }

  /** The model path of `generate_detailed_build`, given the model's reply: the document
      built from it is saved when it conforms to the schema, and returned whenever neither
      the schema check nor the save raises and the response constructor accepts it. */
  function AskModel(q: BuildRequest, c: Cache, reply: Option<Message>, col: Collaborators): (run: DetailedRun)
    ensures run.result.Ok?
    ensures run.result.value.FromDocument? <==>
              ReplyDocument(reply, col).Some? && !col.schema(ReplyDocument(reply, col).value).SchemaError?
              && (col.schema(ReplyDocument(reply, col).value) == Conforms ==>
                    SaveBuild(c, q.buildId, ReplyDocument(reply, col).value).Ok?)
              && AcceptsDetailed(col, ReplyDocument(reply, col).value)
    ensures run.result.value.FromDocument? ==> run.result.value.doc == ReplyDocument(reply, col).value
    ensures run.result.value.FallbackDetailed? ==> run.result.value.request == q
    ensures SavesDocument(q, c, reply, col)
            ==> run.cache == SaveBuild(c, q.buildId, ReplyDocument(reply, col).value).value
    ensures !SavesDocument(q, c, reply, col) ==> run.cache == c
  {
    var fallback := Ok(FallbackDetailed(q));
    var md := ReplyDocument(reply, col);
    if md.None? then DetailedRun(fallback, c)
    else
      var valid := ValidateOpenaiJson(col, md.value);
      if valid.Raised? then DetailedRun(fallback, c)
      else
        var saved := if valid.value then SaveBuild(c, q.buildId, md.value) else Ok(c);
        if saved.Raised? then DetailedRun(fallback, c)
        else DetailedRun(if AcceptsDetailed(col, md.value) then Ok(FromDocument(md.value)) else fallback, saved.value)
  }

  /** `generate_detailed_build(...)` against the cache directory, where `reply` is what the
      model answers to `DetailedRequest(q)`. The cache lookup runs outside the `try`: a stat
      error it raises escapes, and a truthy cached document is answered from the cache, in
      both cases without looking at the reply; otherwise the model path runs. */
  function DetailedFromReply(q: BuildRequest, c: Cache, reply: Option<Message>, col: Collaborators): (run: DetailedRun)
    ensures LoadBuild(c, q.buildId).Raised? ==>
              run == DetailedRun(Raised(c.statErrors[CachePath(q.buildId)]), c)
    ensures CacheHit(c, q.buildId) ==> run.cache == c
    ensures CacheHit(c, q.buildId) && AcceptsDetailed(col, CachedDoc(c, q.buildId)) ==>
              run.result == Ok(FromDocument(CachedDoc(c, q.buildId)))
    ensures CacheHit(c, q.buildId) && !AcceptsDetailed(col, CachedDoc(c, q.buildId)) ==>
              run.result == Raised(RejectedDetailed(CachedDoc(c, q.buildId)))
    ensures CacheMiss(c, q.buildId) ==> run == AskModel(q, c, reply, col)
  {
    var hit := LoadBuild(c, q.buildId);
    if hit.Raised? then DetailedRun(Raised(hit.exc), c)
    else if CacheHit(c, q.buildId) then
      var doc := CachedDoc(c, q.buildId);
      if AcceptsDetailed(col, doc) then DetailedRun(Ok(FromDocument(doc)), c)
      else DetailedRun(Raised(RejectedDetailed(doc)), c)
    else AskModel(q, c, reply, col)
  }

  /** `generate_detailed_build(hero, role, aspect, build_id, enemies, allies)`. */
  function GenerateDetailedBuild(q: BuildRequest, c: Cache, chat: Chat, col: Collaborators): DetailedRun {
    DetailedFromReply(q, c, chat(DetailedRequest(q)), col)
  }

  /** Only the cache lookup makes the call raise: a stat error of its file, or a cached
      document the response constructor rejects. The model path always answers, with the
      document or the stand-in build. */
  lemma DetailedBuildRaisesOnlyOnCache(q: BuildRequest, c: Cache, reply: Option<Message>, col: Collaborators)
    ensures DetailedFromReply(q, c, reply, col).result.Raised? <==>
              CachePath(q.buildId) in c.statErrors
              || (CacheHit(c, q.buildId) && !AcceptsDetailed(col, CachedDoc(c, q.buildId)))
  {
  }

  /** A build id whose cache file cannot be stated, such as one too long for a file name,
      makes the call raise that error before the model is asked, and writes nothing. */
  lemma StatErrorEscapesDetailedBuild(q: BuildRequest, c: Cache, reply: Option<Message>, col: Collaborators)
    requires CachePath(q.buildId) in c.statErrors
    ensures DetailedFromReply(q, c, reply, col) == DetailedRun(Raised(c.statErrors[CachePath(q.buildId)]), c)
  {
  }

  /** A cache hit, or a lookup that raises, answers without the model: the answer is the
      same whatever the model would reply. */
  lemma CacheHitIgnoresModel(q: BuildRequest, c: Cache, reply1: Option<Message>, reply2: Option<Message>,
                             col: Collaborators)
    requires CacheHit(c, q.buildId) || CachePath(q.buildId) in c.statErrors
    ensures DetailedFromReply(q, c, reply1, col) == DetailedFromReply(q, c, reply2, col)
  {
  }

  /** The cache is keyed by build id alone: a warm entry answers every request with that id,
      whatever hero, role, aspect or draft it carries. */
  lemma CacheKeyIsBuildId(q1: BuildRequest, q2: BuildRequest, c: Cache, reply: Option<Message>, col: Collaborators)
    requires q1.buildId == q2.buildId && CacheHit(c, q1.buildId)
    ensures DetailedFromReply(q1, c, reply, col).result == DetailedFromReply(q2, c, reply, col).result
  {
  }

  /** The cache is written only on a miss, only with a document that conforms to the schema
      and carries the three defaulted keys, and only under the request's build id. */
  lemma CacheWrittenOnlyWhenConforming(q: BuildRequest, c: Cache, reply: Option<Message>, col: Collaborators)
    requires DetailedFromReply(q, c, reply, col).cache != c
    ensures CacheMiss(c, q.buildId) && ReplyDocument(reply, col).Some?
    ensures var doc := ReplyDocument(reply, col).value;
            SaveBuild(c, q.buildId, doc).Ok?
            && DetailedFromReply(q, c, reply, col).cache == SaveBuild(c, q.buildId, doc).value
            && col.schema(doc) == Conforms
            && "source" in doc.fields && "warnings" in doc.fields && "builds" in doc.fields
  {
  }

  /** A document that violates the schema is still returned when the response constructor
      accepts it; only the cache write is skipped. */
  lemma UnvalidatedDocumentReturned(q: BuildRequest, c: Cache, reply: Option<Message>, col: Collaborators)
    requires CacheMiss(c, q.buildId) && ReplyDocument(reply, col).Some?
    requires col.schema(ReplyDocument(reply, col).value).Violates?
    requires AcceptsDetailed(col, ReplyDocument(reply, col).value)
    ensures DetailedFromReply(q, c, reply, col) == DetailedRun(Ok(FromDocument(ReplyDocument(reply, col).value)), c)
  {
  }

  /** A conforming document whose cache file cannot be opened for writing makes the save
      raise inside the `try`: the call answers with the stand-in build, even when the
      response constructor would accept the document, and the cache is left as it was. */
  lemma FailedSaveFallsBack(q: BuildRequest, c: Cache, reply: Option<Message>, col: Collaborators)
    requires CacheMiss(c, q.buildId) && ReplyDocument(reply, col).Some?
    requires col.schema(ReplyDocument(reply, col).value) == Conforms
    requires CachePath(q.buildId) in c.writeErrors
    ensures DetailedFromReply(q, c, reply, col) == DetailedRun(Ok(FallbackDetailed(q)), c)
  {
  }

  /** After an answer built from a conforming, accepted document, asking again with the same id
      is answered from the cache with the same document, whatever the model says then. */
  lemma ReplayFromCache(q: BuildRequest, c: Cache, reply: Option<Message>, reply2: Option<Message>,
                        col: Collaborators)
    requires var run := DetailedFromReply(q, c, reply, col);
             run.cache != c && run.result.Ok? && run.result.value.FromDocument?
    ensures var run := DetailedFromReply(q, c, reply, col);
            DetailedFromReply(q, run.cache, reply2, col) == run
  {
    var run := DetailedFromReply(q, c, reply, col);
    var doc := ReplyDocument(reply, col).value;
    assert run == AskModel(q, c, reply, col);
    SaveThenLoad(c, q.buildId, doc);
    assert CacheHit(run.cache, q.buildId);
  }

  /** A conforming document the response constructor rejects is cached anyway: this call
      answers with the stand-in build, and the next request with that id raises. */
  lemma RejectedConformingDocumentPoisonsCache(q: BuildRequest, c: Cache, reply: Option<Message>,
                                               reply2: Option<Message>, col: Collaborators)
    requires CacheMiss(c, q.buildId) && ReplyDocument(reply, col).Some?
    requires col.schema(ReplyDocument(reply, col).value) == Conforms
    requires !AcceptsDetailed(col, ReplyDocument(reply, col).value)
    requires CachePath(q.buildId) !in c.writeErrors
    ensures var run := DetailedFromReply(q, c, reply, col);
            run.result == Ok(FallbackDetailed(q))
            && DetailedFromReply(q, run.cache, reply2, col).result
               == Raised(ValidationError("DetailedBuildResponse"))
  {
    var doc := ReplyDocument(reply, col).value;
    var run := DetailedFromReply(q, c, reply, col);
    assert run == AskModel(q, c, reply, col);
    SaveThenLoad(c, q.buildId, doc);
    assert CacheHit(run.cache, q.buildId);
  }
}
