/** `services/prompt_builder.py`: the five prompt templates read from `prompts/`, and the
    recommendation prompt assembled from the draft. The prompt is read here for a draft
    that carries an optional aspect; the draft record of the request has no such field
    (see `AspectFinding`). */
module PromptBuilder {
  import opened Outcomes
  import opened PyStr
  import opened Types

  /** The files of the `prompts/` directory, by file name. */
  type PromptFiles = map<string, string>

  /** `PromptBuilder._read(filename)`. */
  function ReadTemplate(files: PromptFiles, filename: string): (r: string)
    ensures filename !in files ==> r == "# WARNING: " + filename + " not found."
    ensures filename in files ==> r == Strip(files[filename])
  {
    if filename !in files then "# WARNING: " + filename + " not found."
    else Strip(files[filename])
  }

  /** A template read from a file is already stripped: reading it again changes nothing. */
  lemma ReadTemplateStripped(files: PromptFiles, filename: string)
    requires filename in files
    ensures Strip(ReadTemplate(files, filename)) == ReadTemplate(files, filename)
    ensures var r := ReadTemplate(files, filename);
            |r| > 0 ==> !IsSpace(r[0]) && !IsSpace(r[|r| - 1])
  {
    StripOfStripped(ReadTemplate(files, filename));
  }

  /** `self.templates`. */
  datatype Templates = Templates(base: string, skills: string, items: string, strategy: string, lane: string)

  /** `PromptBuilder()`: the five templates, each read from its own file. */
  function LoadTemplates(files: PromptFiles): (t: Templates)
    ensures t.base == ReadTemplate(files, "prompt_base.txt")
    ensures t.skills == ReadTemplate(files, "prompt_skills.txt")
    ensures t.items == ReadTemplate(files, "prompt_items.txt")
    ensures t.strategy == ReadTemplate(files, "prompt_strategy.txt")
    ensures t.lane == ReadTemplate(files, "prompt_lane.txt")
  {
    Templates(ReadTemplate(files, "prompt_base.txt"), ReadTemplate(files, "prompt_skills.txt"),
              ReadTemplate(files, "prompt_items.txt"), ReadTemplate(files, "prompt_strategy.txt"),
              ReadTemplate(files, "prompt_lane.txt"))
  }

  /** The draft the prompt is built from: the validated draft and the aspect it is read with. */
  datatype DraftWithAspect = DraftWithAspect(draft: DraftInput, aspect: Option<string>)

  function RoleLine(d: DraftInput): string {
    "\n---\n🎯 Роль игрока: " + RoleName(d.userRole)
  }

  function AlliesLine(d: DraftInput): string {
    "🛡️ Союзники: " + Join(d.allyHeroes, ", ")
  }

  function EnemiesLine(d: DraftInput): string {
    "⚔️ Противники: " + Join(d.enemyHeroes, ", ")
  }

  function HeroChosenLine(hero: string): string {
    "🧙 Пользователь уже выбрал героя: " + hero + ". Не предлагай других."
  }

  const HeroNotChosenLine := "🔍 Герой не выбран. Предложи 3 лучших кандидата с кратким объяснением."

  function AspectLine(aspect: string): string {
    "🔮 Аспект предпочтения: " + aspect
  }

  const Separator := "---"

  /** The parts of `build_recommend_prompt`, in order. */
  function RecommendPromptParts(t: Templates, d: DraftWithAspect): (parts: seq<string>)
    ensures |parts| == if NonEmpty(d.aspect) then 11 else 10
    ensures parts[0] == t.base
    ensures parts[1] == RoleLine(d.draft) && parts[2] == AlliesLine(d.draft) && parts[3] == EnemiesLine(d.draft)
    ensures NonEmpty(d.draft.userHero) ==> parts[4] == HeroChosenLine(d.draft.userHero.value)
    ensures !NonEmpty(d.draft.userHero) ==> parts[4] == HeroNotChosenLine
    ensures NonEmpty(d.aspect) ==> parts[5] == AspectLine(d.aspect.value)
    ensures parts[|parts| - 5..] == [Separator, t.skills, t.items, t.strategy, t.lane]
  {
    var head := [t.base, RoleLine(d.draft), AlliesLine(d.draft), EnemiesLine(d.draft)];
    var hero := if NonEmpty(d.draft.userHero) then [HeroChosenLine(d.draft.userHero.value)] else [HeroNotChosenLine];
    var aspect := if NonEmpty(d.aspect) then [AspectLine(d.aspect.value)] else [];
    var tail := [Separator, t.skills, t.items, t.strategy, t.lane];
    var parts := head + hero + aspect + tail;
    assert parts[|parts| - 5..] == tail;
    parts
  }

  /** `build_recommend_prompt(draft)`: the parts joined by blank lines. */
  function BuildRecommendPrompt(t: Templates, d: DraftWithAspect): string {
    Join(RecommendPromptParts(t, d), "\n\n")
  }

  const NoAspectAttribute := "'DraftInput' object has no attribute 'aspect'"

  /** `build_recommend_prompt(draft)` on the request's draft record as declared: the record
      has no `aspect` field, so the aspect test raises before any part is joined. */
  function BuildRecommendPromptAsWritten(t: Templates, d: DraftInput): (r: Result<string>)
    ensures r.Raised? && r.exc.AttributeError?
  {
    Raised(AttributeError(NoAspectAttribute))
  }

  /** The prompt opens with the base template and a blank line. */
  lemma PromptStartsWithBase(t: Templates, d: DraftWithAspect)
    ensures StartsWith(BuildRecommendPrompt(t, d), t.base + "\n\n")
  {
    var parts := RecommendPromptParts(t, d);
    assert parts == [t.base] + parts[1..];
    JoinAppend([t.base], parts[1..], "\n\n");
    var p := BuildRecommendPrompt(t, d);
    assert p == (t.base + "\n\n") + Join(parts[1..], "\n\n");
  }

  /** The sections every prompt closes with: the separator line, then the skills, items,
      strategy and lane templates. */
  function ClosingParts(t: Templates): seq<string> {
    [Separator, t.skills, t.items, t.strategy, t.lane]
  }

  /** The prompt closes with a blank line and the closing sections, one blank line apart,
      whatever the draft. */
  lemma PromptEndsWithSections(t: Templates, d: DraftWithAspect)
    ensures EndsWith(BuildRecommendPrompt(t, d), "\n\n" + Join(ClosingParts(t), "\n\n"))
  {
    var parts := RecommendPromptParts(t, d);
    JoinEndsWithLast(parts, 5, "\n\n");
  }
}
