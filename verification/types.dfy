/** The request and response records of `models/types.py`: the draft with its
    list validator and role literal, the hero suggestion and the recommendation response. */
module Types {
  import opened Outcomes
  import opened Seqs

  /** The `Literal` type of `user_role`. */
  datatype Role = Mid | Safelane | Offlane | Support | HardSupport

  function RoleName(r: Role): string {
    match r
    case Mid => "mid"
    case Safelane => "safelane"
    case Offlane => "offlane"
    case Support => "support"
    case HardSupport => "hard support"
  }

  /** `VALID_ROLES`. */
  const ValidRoles: set<string> := {"mid", "safelane", "offlane", "support", "hard support"}

  /** Validation of the `user_role` literal: exact, case-sensitive match. */
  function ParseRole(s: string): (r: Option<Role>)
    ensures r.Some? <==> s in ValidRoles
    ensures r.Some? ==> RoleName(r.value) == s
  {
    if s == "mid" then Some(Mid)
    else if s == "safelane" then Some(Safelane)
    else if s == "offlane" then Some(Offlane)
    else if s == "support" then Some(Support)
    else if s == "hard support" then Some(HardSupport)
    else None
  }

  /** Every role literal survives a round trip through its name. */
  lemma RoleNameRoundTrip(r: Role)
    ensures RoleName(r) in ValidRoles
    ensures ParseRole(RoleName(r)) == Some(r)
  {
  }

  /** The cap the validator applies to both hero lists. */
  const MaxListLen: nat := 5

  /** The `remove_duplicates` validator: `list(dict.fromkeys(v or []))[:5]`.
      Equality of names is exact: `"Zeus"` and `"zeus"` are two names. */
  function RemoveDuplicates(v: Option<seq<string>>): (r: seq<string>)
    ensures |r| <= MaxListLen
    ensures NoDups(r)
    ensures v.None? ==> r == []
    ensures v.Some? ==> FirstOccurrenceOrder(r, v.value)
    ensures v.Some? && |Dedupe(v.value)| <= MaxListLen ==>
              forall i :: 0 <= i < |v.value| ==> v.value[i] in r
    // exactly the first five distinct names, or all of them when there are fewer
    ensures v.Some? ==> |r| == (if MaxListLen < |Dedupe(v.value)| then MaxListLen else |Dedupe(v.value)|)
    ensures v.Some? ==> r == Dedupe(v.value)[..|r|]
  {
    var d := Dedupe(v.GetOr([]));
    TakeKeepsOrder(d, v.GetOr([]), MaxListLen);
    Take(d, MaxListLen)
  }

  /** The validator is idempotent: a validated list validates to itself. */
  lemma RemoveDuplicatesIdempotent(v: Option<seq<string>>)
    ensures RemoveDuplicates(Some(RemoveDuplicates(v))) == RemoveDuplicates(v)
  {
    var r := RemoveDuplicates(v);
    DedupeOfNoDups(r);
  }

  /** `DraftInput`, after validation. */
  datatype DraftInput = DraftInput(
    enemyHeroes: seq<string>,
    allyHeroes: seq<string>,
    userRole: Role,
    userHero: Option<string>)

  /** A draft as the validators leave it. */
  predicate Validated(d: DraftInput) {
    |d.enemyHeroes| <= MaxListLen && NoDups(d.enemyHeroes)
    && |d.allyHeroes| <= MaxListLen && NoDups(d.allyHeroes)
  }

  /** Building a `DraftInput` from request fields: missing lists default to `[]`,
      both lists go through the validator, and an unknown role is rejected. */
  function MakeDraftInput(enemy: Option<seq<string>>, ally: Option<seq<string>>, role: string,
                          hero: Option<string>): (r: Result<DraftInput>)
    ensures r.Ok? <==> role in ValidRoles
    ensures r.Raised? ==> r.exc.IsValueError()
    ensures r.Ok? ==> Validated(r.value)
    ensures r.Ok? ==> RoleName(r.value.userRole) == role && r.value.userHero == hero
    ensures r.Ok? ==> r.value.enemyHeroes == RemoveDuplicates(enemy)
                      && r.value.allyHeroes == RemoveDuplicates(ally)
  {
    match ParseRole(role)
    case None => Raised(ValidationError("user_role: unexpected value " + role))
    case Some(rl) => Ok(DraftInput(RemoveDuplicates(enemy), RemoveDuplicates(ally), rl, hero))
  }

  /** `HeroSuggestion`. */
  datatype HeroSuggestion = HeroSuggestion(name: string, score: real, reason: Option<string>)

  /** `RecommendationResponse`. */
  datatype RecommendationResponse = RecommendationResponse(
    suggestedHeroes: seq<HeroSuggestion>,
    laneOpponents: seq<string>,
    startingItems: seq<string>,
    buildEasy: seq<string>,
    buildEven: seq<string>,
    buildHard: seq<string>,
    warnings: seq<string>)
}
