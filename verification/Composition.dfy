/** The composition pipeline (`composition.rs`): validate every manifest, read the merge view, merge, and
    gate on capacity. */
module Composition {
  import opened Text
  import opened Json
  import opened ManifestSchema
  import ManifestValidator
  import opened Order
  import opened Orchestrator
  import opened Capacity

  // --------------------------------------------------------------- the merge view

  /** What the deserializer makes of a member with a default: absent, well-typed, or an error. */
  datatype Field<+T> = Absent | Given(value: T) | Wrong

  function StrField(v: Option<Value>): Field<string> {
    match v
    case None => Absent
    case Some(Str(s)) => Given(s)
    case _ => Wrong
  }

  function AsU32(v: Value): Option<U32> {
    if v.Num? && v.num.Int? && 0 <= v.num.n <= U32_MAX then Some(v.num.n) else None
  }

  function U32Field(v: Option<Value>): Option<U32> {
    if v.None? then Some(0) else AsU32(v.value)
  }

  /** The cost record is never validated, so the reader's own leniency shows: a JSON array is taken
      positionally, with defaults for what is missing. */
  function ParseCost(v: Option<Value>): Option<Cost> {
    match v
    case None => Some(Cost(0, 0, 0))
    case Some(Obj(o)) =>
      CostOf(U32Field(Get(o, "prompt_tokens")), U32Field(Get(o, "tools")), U32Field(Get(o, "panels")))
    case Some(Arr(items)) =>
      if |items| > 3 then None
      else
        CostOf(U32Field(Nth(items, 0)), U32Field(Nth(items, 1)), U32Field(Nth(items, 2)))
    case _ => None
  }

  function Nth(items: seq<Value>, i: nat): Option<Value> { if i < |items| then Some(items[i]) else None }

  function CostOf(p: Option<U32>, t: Option<U32>, n: Option<U32>): Option<Cost> {
    if p.Some? && t.Some? && n.Some? then Some(Cost(p.value, t.value, n.value)) else None
  }

  function ParseRole(v: Option<Value>): Option<Role> {
    match StrField(v)
    case Absent => Some(PrimaryEligible)
    case Given(s) =>
      if s == "primary_eligible" then Some(PrimaryEligible)
      else if s == "secondary_only" then Some(SecondaryOnly) else None
    case Wrong => None
  }

  function ParseTool(v: Value): Option<ToolRef> {
    match v
    case Obj(o) =>
      (match StrField(Get(o, "ref"))
       case Given(name) => Some(ToolRef(name, if "config" in o then o["config"] else Null))
       case _ => None)
    case _ => None
  }

  function ParseTools(items: seq<Value>): Option<seq<ToolRef>> {
    if items == [] then Some([])
    else if ParseTool(items[0]).None? || ParseTools(items[1..]).None? then None
    else Some([ParseTool(items[0]).value] + ParseTools(items[1..]).value)
  }

  function ParseStrings(items: seq<Value>): Option<seq<string>> {
    if items == [] then Some([])
    else if !items[0].Str? || ParseStrings(items[1..]).None? then None
    else Some([items[0].s] + ParseStrings(items[1..]).value)
  }

  function ListField(v: Option<Value>): Option<seq<Value>> {
    if v.None? then Some([]) else v.value.AsArr()
  }

  predicate ParseSlot(v: Value) {
    v.Obj? && StrField(Get(v.members, "slot")).Given? && !StrField(Get(v.members, "access")).Wrong?
    && !StrField(Get(v.members, "schema")).Wrong?
  }

  predicate ParseSlots(v: Option<Value>) {
    ListField(v).Some? && forall s :: s in ListField(v).value ==> ParseSlot(s)
  }

  function ParsePriority(v: Option<Value>): Option<int> {
    if v.None? then Some(50) else v.value.AsI64()
  }

  function OrEmpty(f: Field<string>): string { if f.Given? then f.value else "" }

  function SectionOf(v: Option<Value>): Option<Dict> {
    if v.None? then Some(map[]) else v.value.AsObj()
  }

  /** `serde_json::from_value::<SkillManifest>`, for manifests that have passed validation: sections other
      than the cost are objects or absent there. */
  function ParseSkill(v: Value): Option<Skill> {
    if !v.Obj? then None
    else
      var o := v.members;
      var persona :- SectionOf(Get(o, "persona"));
      var compat :- SectionOf(Get(o, "compatibility"));
      var role :- ParseRole(Get(persona, "role"));
      var toolItems :- ListField(Get(o, "tools"));
      var tools :- ParseTools(toolItems);
      var conflictItems :- ListField(Get(compat, "conflicts_with"));
      var conflicts :- ParseStrings(conflictItems);
      var priority :- ParsePriority(Get(compat, "combine_priority"));
      var cost :- ParseCost(Get(o, "cost_estimate"));
      var id := StrField(Get(o, "id"));
      var prompt := StrField(Get(persona, "system_prompt"));
      var short := StrField(Get(persona, "compressed_prompt"));
      if !id.Given? || prompt.Wrong? || short.Wrong? || !ParseSlots(Get(o, "shared_state")) then None
      else Some(Skill(id.value, role, OrEmpty(prompt), OrEmpty(short), tools, priority, conflicts, cost))
  }

  // ---------------------------------------------------------------- the pipeline

  datatype Result =
    | Composed(agent: Agent, projection: Projection)
    | InvalidManifest(skillId: string, issues: Issues)
    | Malformed(index: nat)
    | Conflicting(a: string, b: string)
    | CapacityOverflow(overflowing: Projection)

  ghost predicate Acceptable(m: Value) { ManifestIssues(m) == [] }

  /** The first manifest that fails validation. */
  ghost function FirstInvalid(manifests: seq<Value>, i: nat): Option<nat>
    decreases |manifests| - i
  {
    if i >= |manifests| then None
    else if !Acceptable(manifests[i]) then Some(i)
    else FirstInvalid(manifests, i + 1)
  }

  function FirstMalformed(manifests: seq<Value>, i: nat): Option<nat>
    decreases |manifests| - i
  {
    if i >= |manifests| then None
    else if ParseSkill(manifests[i]).None? then Some(i)
    else FirstMalformed(manifests, i + 1)
  }

  /** The merge views of the manifests that have one. */
  function Views(manifests: seq<Value>): seq<Skill> {
    if manifests == [] then []
    else (if ParseSkill(manifests[0]).Some? then [ParseSkill(manifests[0]).value] else []) + Views(manifests[1..])
  }

  function IdOf(m: Value): string {
    match m.Get("id")
    case Some(Str(s)) => s
    case _ => "<unknown>"
  }

  lemma {:induction false} InvalidFound(manifests: seq<Value>, i: nat)
    ensures var r := FirstInvalid(manifests, i);
            && (r.Some? ==>
                  && i <= r.value < |manifests| && !Acceptable(manifests[r.value])
                  && forall k :: i <= k < r.value ==> Acceptable(manifests[k]))
            && (r.None? <==> forall k :: i <= k < |manifests| ==> Acceptable(manifests[k]))
    decreases |manifests| - i
  {
    hide ManifestIssues, Acceptable;
    if i < |manifests| { InvalidFound(manifests, i + 1); }
  }

  lemma {:induction false} MalformedFound(manifests: seq<Value>, i: nat)
    ensures var r := FirstMalformed(manifests, i);
            && (r.Some? ==>
                  && i <= r.value < |manifests| && ParseSkill(manifests[r.value]).None?
                  && forall k :: i <= k < r.value ==> ParseSkill(manifests[k]).Some?)
            && (r.None? <==> forall k :: i <= k < |manifests| ==> ParseSkill(manifests[k]).Some?)
    decreases |manifests| - i
  {
    if i < |manifests| { MalformedFound(manifests, i + 1); }
  }

  ghost function Pipeline(base: string, manifests: seq<Value>, hint: Option<string>, ctx: U32): Result {
    InvalidFound(manifests, 0);
    if FirstInvalid(manifests, 0).Some? then
      var m := manifests[FirstInvalid(manifests, 0).value];
      InvalidManifest(IdOf(m), ManifestIssues(m))
    else if FirstMalformed(manifests, 0).Some? then Malformed(FirstMalformed(manifests, 0).value)
    else ComposeViews(base, Views(manifests), hint, ctx)
  }

  ghost function ComposeViews(base: string, skills: seq<Skill>, hint: Option<string>, ctx: U32): Result {
    match Merge(base, skills, hint)
    case Conflict(a, b) => Conflicting(a, b)
    case Merged(agent) =>
      if Project(skills, ctx).status.Blocked? then CapacityOverflow(Project(skills, ctx))
      else Composed(agent, Project(skills, ctx))
  }

  // ------------------------------------------------------------- what comes out

  ghost predicate AllValid(manifests: seq<Value>) {
    forall k :: 0 <= k < |manifests| ==> Acceptable(manifests[k])
  }

  predicate AllParse(manifests: seq<Value>) {
    forall k :: 0 <= k < |manifests| ==> ParseSkill(manifests[k]).Some?
  }

  /** No two of the skills, in whatever place, block each other. */
  predicate Peaceful(skills: seq<Skill>) {
    forall i, j :: 0 <= i < j < |skills| ==> !Blocks(skills[i], skills[j])
  }

  /** The outcome that the manifests call for, by the first thing that is wrong with them: the first that
      is invalid, the first that cannot be read, a conflict, too little room beside the working reserve. */
  ghost predicate Expected(base: string, manifests: seq<Value>, hint: Option<string>, ctx: U32, reserve: nat,
                           r: Result) {
    var skills := Views(manifests);
    var total := reserve + TrueSum(skills);
    if !AllValid(manifests) then
      exists k :: 0 <= k < |manifests| && !Acceptable(manifests[k]) && AllValid(manifests[..k])
        && r == InvalidManifest(IdOf(manifests[k]), ManifestIssues(manifests[k]))
    else if !AllParse(manifests) then
      exists k :: 0 <= k < |manifests| && ParseSkill(manifests[k]).None? && AllParse(manifests[..k])
        && r == Malformed(k)
    else ExpectedOf(base, skills, hint, ctx, total, r)
  }

  ghost predicate ExpectedOf(base: string, skills: seq<Skill>, hint: Option<string>, ctx: U32, total: nat, r: Result) {
    if !Peaceful(skills) then r.Conflicting? && NamesBlocked(skills, r.a, r.b)
    else if total > ctx && ctx < U32_MAX then
      r.CapacityOverflow? && r.overflowing.status == Blocked(Saturate(total) - ctx)
    else
      && r.Composed? && r.projection.status == Fits && r.projection.remaining == ctx - Saturate(total)
      && Merge(base, skills, hint) == Merged(r.agent)
  }

  /** Two of the skills that block each other are named so, the lesser id first. */
  ghost predicate NamesBlocked(skills: seq<Skill>, a: string, b: string) {
    && Le(a, b)
    && exists i, j ::
         && 0 <= i < |skills| && 0 <= j < |skills| && i != j
         && skills[i].id == a && skills[j].id == b && Blocks(skills[i], skills[j])
  }

  lemma OutcomeExact(base: string, manifests: seq<Value>, hint: Option<string>, ctx: U32, reserve: nat)
    requires IsReserve(reserve, ctx)
    ensures Expected(base, manifests, hint, ctx, reserve, Pipeline(base, manifests, hint, ctx))
  {
    hide ParseSkill, Acceptable, Views, ProjectLive, ManifestIssues, TrueSum, Saturate, IdOf, ComposeViews,
      Peaceful;
    InvalidFound(manifests, 0);
    MalformedFound(manifests, 0);
    var skills := Views(manifests);
    if AllValid(manifests) && AllParse(manifests) {
      ViewsExact(base, skills, hint, ctx, reserve);
    } else if !AllValid(manifests) {
      assert AllValid(manifests[..FirstInvalid(manifests, 0).value]);
    } else {
      assert AllParse(manifests[..FirstMalformed(manifests, 0).value]);
    }
  }

  lemma ViewsExact(base: string, skills: seq<Skill>, hint: Option<string>, ctx: U32, reserve: nat)
    requires IsReserve(reserve, ctx)
    ensures ExpectedOf(base, skills, hint, ctx, reserve + TrueSum(skills), ComposeViews(base, skills, hint, ctx))
  {
    hide ProjectLive, TrueSum, Saturate, ToolUnion, Gather, ById, Persona, Secondaries, ChoosePrimary, Arranged,
      FirstConflict, IsReserve;
    ConflictFound(skills, 0);
    if FirstConflict(skills, 0).Some? {
      var (i, j) := FirstConflict(skills, 0).value;
      LeTotal(skills[i].id, skills[j].id);
      assert Blocks(skills[i], skills[j]) && Blocks(skills[j], skills[i]);
    }
    GateExact(skills, ctx, 0, reserve);
  }

  lemma AllOutcomes(base: string, manifests: seq<Value>, hint: Option<string>, ctx: U32)
    ensures forall reserve: nat :: IsReserve(reserve, ctx) ==>
              Expected(base, manifests, hint, ctx, reserve, Pipeline(base, manifests, hint, ctx))
  {
    hide Expected, IsReserve, Pipeline;
    forall reserve: nat | IsReserve(reserve, ctx)
      ensures Expected(base, manifests, hint, ctx, reserve, Pipeline(base, manifests, hint, ctx))
    {
      OutcomeExact(base, manifests, hint, ctx, reserve);
    }
  }

  method ComposeAgent(base: string, manifests: seq<Value>, hint: Option<string>, ctx: U32) returns (r: Result)
    ensures r == Pipeline(base, manifests, hint, ctx)
    ensures forall reserve: nat :: IsReserve(reserve, ctx) ==> Expected(base, manifests, hint, ctx, reserve, r)
  {
    AllOutcomes(base, manifests, hint, ctx);
    hide Expected, IsReserve, ManifestIssues, ParseSkill, Merge, Project, IdOf;
    for i := 0 to |manifests|
      invariant FirstInvalid(manifests, 0) == FirstInvalid(manifests, i)
    {
      var issues := ManifestValidator.Validate(manifests[i]);
      if issues != [] { return InvalidManifest(IdOf(manifests[i]), issues); }
    }
    var skills: seq<Skill> := [];
    for i := 0 to |manifests|
      invariant FirstMalformed(manifests, 0) == FirstMalformed(manifests, i)
      invariant skills + Views(manifests[i..]) == Views(manifests)
    {
      assert manifests[i..][1..] == manifests[i + 1..];
      match ParseSkill(manifests[i]) {
        case None => return Malformed(i);
        case Some(s) => skills := skills + [s];
      }
    }
    assert skills == Views(manifests);
    var merged := MergeSkills(base, skills, hint);
    match merged {
      case Conflict(a, b) => return Conflicting(a, b);
      case Merged(agent) =>
        var projection := Project(skills, ctx);
        if projection.status.Blocked? { return CapacityOverflow(projection); }
        return Composed(agent, projection);
    }
  }
}
