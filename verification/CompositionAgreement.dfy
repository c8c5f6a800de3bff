/** When composing raw manifests and composing their canonical forms agree (`composition.rs`): exactly when
    no price is lost, no array cost counts, and no tool is only omitted against empty. */
module CompositionAgreement {
  import opened Text
  import opened Json
  import opened ManifestSchema
  import N = ManifestNormal
  import F = ManifestFixedPoint
  import opened Orchestrator
  import opened Capacity
  import opened Composition
  import opened Shorthand

  // ------------------------------------------------- the view of a valid manifest

  function RoleOf(s: string): Role { if s == "secondary_only" then SecondaryOnly else PrimaryEligible }

  function RefsOf(tools: seq<N.Tool>): seq<ToolRef> {
    seq(|tools|, (i: nat) requires i < |tools| => ToolRef(tools[i].toolRef, tools[i].config))
  }

  function OwnCost(s: Skill): Cost { s.cost }

  /** The merge view, read off the canonical form. */
  function ViewOf(c: N.Canonical, cost: Cost): Skill {
    Skill(c.id, RoleOf(c.persona.role), c.persona.systemPrompt, c.persona.compressedPrompt, RefsOf(c.tools),
          c.compatibility.combinePriority, c.compatibility.conflictsWith, cost)
  }

  lemma PersonaView(p: Dict, at: Pointer)
    requires PersonaIssues(p, at) == []
    ensures var c := N.NormalizePersona(Some(Obj(p)));
            && ParseRole(Get(p, "role")) == Some(RoleOf(c.role))
            && StrField(Get(p, "system_prompt")) == Given(c.systemPrompt)
            && StrField(Get(p, "compressed_prompt")) == Given(c.compressedPrompt)
  {
    hide ListIssues;
  }

  lemma {:induction false} ParseToolsAll(items: seq<Value>)
    requires forall k :: 0 <= k < |items| ==> ParseTool(items[k]).Some?
    ensures var r := ParseTools(items);
            r.Some? && |r.value| == |items| && forall k :: 0 <= k < |items| ==> r.value[k] == ParseTool(items[k]).value
  {
    if items != [] { ParseToolsAll(items[1..]); }
  }

  lemma ToolView(t: Dict, at: Pointer)
    requires ToolIssues(t, at) == []
    ensures var c := N.NormalizeTool(t);
            var r := ParseTool(Obj(t));
            && r.Some? && r.value.name == c.toolRef && Fill(r.value.config) == c.config
            && ("config" in t ==> Fill(r.value.config) == r.value.config)
  {
    hide ListIssues;
  }

  lemma ToolsView(v: Option<Value>, at: Pointer)
    requires ListIssues(v, ObjectItem(ToolIssues), at) == []
    ensures ListField(v).Some? && ParseTools(ListField(v).value).Some?
    ensures var refs := ParseTools(ListField(v).value).value;
            && FillRefs(refs) == RefsOf(N.NormalizeTools(v))
            && (ConfigsGiven(ItemsOf(v)) ==> FillRefs(refs) == refs)
  {
    hide ToolIssues, ParseTool, N.NormalizeTool;
    var items := ItemsOf(v);
    F.ItemsClean(items, 0, ObjectItem(ToolIssues), at);
    forall k: nat | k < |items|
      ensures items[k].Obj? && ParseTool(items[k]).Some?
      ensures var c := N.NormalizeTool(items[k].members);
              var r := ParseTool(items[k]).value;
              && r.name == c.toolRef && Fill(r.config) == c.config
              && ("config" in MembersAt(items, k) ==> Fill(r.config) == r.config)
    {
      F.CleanObject(items[k], ToolIssues, at + [At(k)]);
      ToolView(items[k].members, at + [At(k)]);
    }
    ParseToolsAll(items);
    F.AllObjects(items);
  }

  function MembersAt(items: seq<Value>, k: int): Dict {
    if 0 <= k < |items| && items[k].Obj? then items[k].members else map[]
  }

  ghost predicate ConfigsGiven(items: seq<Value>) {
    forall k :: 0 <= k < |items| ==> "config" in MembersAt(items, k)
  }

  lemma {:induction false} ParseStringsAll(items: seq<Value>)
    requires forall k :: 0 <= k < |items| ==> items[k].Str?
    ensures ParseStrings(items) == Some(N.Strings(items))
  {
    if items != [] { ParseStringsAll(items[1..]); }
  }

  lemma SlotsView(v: Option<Value>, at: Pointer)
    requires ListIssues(v, ObjectItem(SlotIssues), at) == []
    ensures ParseSlots(v)
  {
    hide SlotIssues;
    var items := ItemsOf(v);
    F.ItemsClean(items, 0, ObjectItem(SlotIssues), at);
    forall k: nat | k < |items| ensures ParseSlot(items[k]) {
      F.CleanObject(items[k], SlotIssues, at + [At(k)]);
      SlotView(items[k].members, at + [At(k)]);
    }
  }

  lemma SlotView(s: Dict, at: Pointer)
    requires SlotIssues(s, at) == []
    ensures ParseSlot(Obj(s))
  {
  }

  lemma CompatibilityView(v: Option<Value>, at: Pointer)
    requires Section(v, false, CompatibilityIssues, at) == []
    ensures SectionOf(v).Some?
    ensures var compat := SectionOf(v).value;
            var c := N.NormalizeCompatibility(v);
            && ListField(Get(compat, "conflicts_with")).Some?
            && ParseStrings(ListField(Get(compat, "conflicts_with")).value) == Some(c.conflictsWith)
            && ParsePriority(Get(compat, "combine_priority")) == Some(c.combinePriority)
  {
    hide IsSkillId;
    var compat := SectionOf(v).value;
    var items := ItemsOf(Get(compat, "conflicts_with"));
    F.ItemsClean(items, 0, StrItem(IsSkillId, InvalidFormat), at + [Key("conflicts_with")]);
    forall k: nat | k < |items| ensures items[k].Str? {
      assert v.Some? ==> StrItem(IsSkillId, InvalidFormat)(items[k], at + [Key("conflicts_with")] + [At(k)]) == [];
    }
    ParseStringsAll(items);
  }

  lemma IdView(o: Dict)
    requires IdentityIssues(o) == []
    ensures StrField(Get(o, "id")) == Given(N.StrOr(Get(o, "id"), ""))
  {
    hide IsSkillId;
  }

  lemma ValidParts(o: Dict)
    requires ManifestIssues(Obj(o)) == []
    ensures IdentityIssues(o) == [] && TermsIssues(o) == [] && CapabilityIssues(o) == [] && EnvironmentIssues(o) == []
  {
    hide IdentityIssues, ReleaseIssues, TermsIssues, CapabilityIssues, EnvironmentIssues, ReferenceIssues,
      NamesOf;
  }

  /** A valid manifest has a merge view exactly when its unvalidated cost record can be read, and the view
      is then, up to omitted configurations, what the canonical form says. */
  lemma ValidView(o: Dict)
    requires ManifestIssues(Obj(o)) == []
    ensures var cost := ParseCost(Get(o, "cost_estimate"));
            var r := ParseSkill(Obj(o));
            && (r.Some? <==> cost.Some?)
            && (r.Some? ==>
                  r.value.cost == cost.value && FillSkill(r.value, OwnCost) == ViewOf(N.Normalize(o), cost.value))
            && (r.Some? && ConfigsGiven(ItemsOf(Get(o, "tools"))) ==> FillSkill(r.value, OwnCost) == r.value)
  {
    hide ManifestIssues, RequirementIssues, PricingIssues, PersonaIssues, ResourceIssues, LocalizationIssues,
      CompatibilityIssues, UiSectionIssues, ListIssues, IdentityIssues, ParseRole, ParseTools, ParseStrings,
      ParseSlots, ListField, ParsePriority, ParseCost, StrField, FillRefs, RefsOf, N.NormalizeTools,
      N.NormalizePersona, N.NormalizeCompatibility, N.StrOr, ConfigsGiven, RoleOf;
    ValidParts(o);
    IdView(o);
    var p := Get(o, "persona").value.members;
    PersonaView(p, [Key("persona")]);
    ToolsView(Get(o, "tools"), [Key("tools")]);
    SlotsView(Get(o, "shared_state"), [Key("shared_state")]);
    CompatibilityView(Get(o, "compatibility"), [Key("compatibility")]);
  }

  // ------------------------------------------------------------ raw and canonical

  function Canon(raw: Value): Value { if raw.Obj? then N.ToJson(N.Normalize(raw.members)) else raw }

  /** A cost record written as an array is read by position for the merge view, and dropped from the
      canonical form. */
  predicate ArrayCost(raw: Value) {
    var v := raw.Get("cost_estimate");
    v.Some? && v.value.Arr?
  }

  lemma CostView(v: Option<Value>)
    requires ParseCost(v).Some?
    ensures ParseCost(N.CostJson(N.NormalizeCost(v)))
            == if v.Some? && v.value.Arr? then Some(Cost(0, 0, 0)) else ParseCost(v)
  {
  }

  /** A manifest that validates and has a merge view. */
  ghost predicate Readable(raw: Value) {
    raw.Obj? && Acceptable(raw) && ParseSkill(raw).Some?
  }

  /** What is left of a skill's cost in its canonical form. */
  function Kept(raw: Value): Cost
    requires ParseSkill(raw).Some?
  {
    if ArrayCost(raw) then Cost(0, 0, 0) else ParseSkill(raw).value.cost
  }

  lemma CanonView(raw: Value, f: Costing)
    requires Readable(raw) && !F.SubCent(raw) && f(ParseSkill(raw).value) == Kept(raw)
    ensures Acceptable(Canon(raw)) && ParseSkill(Canon(raw)) == Some(FillSkill(ParseSkill(raw).value, f))
  {
    hide ParseSkill, ManifestIssues, N.CanonicalJson, N.Normalize, F.SubCent, ViewOf, ParseCost;
    var o := raw.members;
    var c := N.Normalize(o);
    var j := N.CanonicalJson(c);
    F.NormalizeFixedPoint(raw);
    ValidView(o);
    ValidView(j);
    F.EnvironmentMembers(c);
    F.TermsMembers(c);
    assert Obj(o).Get("cost_estimate") == Get(o, "cost_estimate");
    NormalizedCost(o);
    CostView(Get(o, "cost_estimate"));
    ConfigsWritten(c);
    ViewCost(c, ParseSkill(raw).value, f);
  }

  lemma ViewCost(c: N.Canonical, s: Skill, f: Costing)
    requires FillSkill(s, OwnCost) == ViewOf(c, s.cost)
    ensures FillSkill(s, f) == ViewOf(c, f(s))
  {
  }

  /** The canonical form of a manifest priced below half a cent in shorthand is not a valid manifest. */
  lemma SubCentRejected(raw: Value)
    requires Readable(raw) && F.SubCent(raw)
    ensures !Acceptable(Canon(raw))
  {
    hide ParseSkill, IdentityIssues, ReleaseIssues, TermsIssues, CapabilityIssues, EnvironmentIssues,
      ReferenceIssues, NamesOf, N.CanonicalJson, N.Normalize, F.SubCent;
    ValidParts(raw.members);
    F.TermsFixed(raw.members);
    if Acceptable(Canon(raw)) { ValidParts(Canon(raw).members); }
  }

  lemma NormalizedCost(o: Dict)
    ensures N.Normalize(o).cost == N.NormalizeCost(Get(o, "cost_estimate"))
  {
  }

  lemma ConfigsWritten(c: N.Canonical)
    ensures ConfigsGiven(ItemsOf(Some(N.ListJson(c.tools, N.ToolJson))))
  {
    var items := ItemsOf(Some(N.ListJson(c.tools, N.ToolJson)));
    forall k | 0 <= k < |items| ensures "config" in MembersAt(items, k) {
      assert items[k] == Obj(N.ToolJson(c.tools[k]));
      assert "config" in N.ToolJson(c.tools[k]);
    }
  }

  function CanonAll(raws: seq<Value>): seq<Value> {
    seq(|raws|, (i: nat) requires i < |raws| => Canon(raws[i]))
  }

  lemma ViewsCons(m: Value, rest: seq<Value>)
    requires ParseSkill(m).Some?
    ensures Views([m] + rest) == [ParseSkill(m).value] + Views(rest)
  {
    hide ParseSkill;
    assert ([m] + rest)[1..] == rest;
  }

  ghost predicate AllReadable(raws: seq<Value>) { forall k :: 0 <= k < |raws| ==> Readable(raws[k]) }

  ghost predicate Charges(raws: seq<Value>, f: Costing) {
    forall k :: 0 <= k < |raws| && ParseSkill(raws[k]).Some? ==> f(ParseSkill(raws[k]).value) == Kept(raws[k])
  }

  lemma {:induction false} ViewsCanon(raws: seq<Value>, f: Costing)
    requires AllReadable(raws) && Charges(raws, f) && forall k :: 0 <= k < |raws| ==> !F.SubCent(raws[k])
    ensures Views(CanonAll(raws)) == FillAll(Views(raws), f)
  {
    hide ParseSkill, Canon, FillSkill, Acceptable, Kept, F.SubCent;
    if raws != [] {
      var m, rest := raws[0], raws[1..];
      CanonView(m, f);
      ViewsCanon(rest, f);
      assert raws == [m] + rest && CanonAll(raws) == [Canon(m)] + CanonAll(rest);
      ViewsCons(m, rest);
      ViewsCons(Canon(m), CanonAll(rest));
      FillAllCons(Views(raws), f);
    }
  }

  /** What the canonical forms cost together: the skills whose record is not an array. */
  function KeptSum(raws: seq<Value>): nat {
    if raws == [] then 0
    else
      (if ParseSkill(raws[0]).Some? && !ArrayCost(raws[0]) then TrueCost(ParseSkill(raws[0]).value) else 0)
      + KeptSum(raws[1..])
  }

  lemma {:induction false} KeptSumExact(raws: seq<Value>, f: Costing)
    requires AllReadable(raws) && Charges(raws, f)
    ensures TrueSum(FillAll(Views(raws), f)) == KeptSum(raws)
  {
    hide ParseSkill, Acceptable;
    if raws != [] {
      var m, rest := raws[0], raws[1..];
      KeptSumExact(rest, f);
      assert raws == [m] + rest;
      ViewsCons(m, rest);
      FillAllCons(Views(raws), f);
      assert FillAll(Views(raws), f)[0].cost == Kept(m);
    }
  }

  lemma {:induction false} ViewsAt(raws: seq<Value>, k: nat)
    requires (forall i :: 0 <= i < |raws| ==> ParseSkill(raws[i]).Some?) && k < |raws|
    ensures |Views(raws)| == |raws| && Views(raws)[k] == ParseSkill(raws[k]).value
  {
    hide ParseSkill;
    if k > 0 { ViewsAt(raws[1..], k - 1); } else if |raws| > 1 { ViewsAt(raws[1..], 0); }
  }

  /** The charge of each skill's canonical form: skills with distinct ids have distinct views. */
  ghost function KeptCosts(raws: seq<Value>): Costing {
    (s: Skill) =>
      if exists k :: 0 <= k < |raws| && ParseSkill(raws[k]) == Some(s) && ArrayCost(raws[k]) then Cost(0, 0, 0)
      else s.cost
  }

  lemma KeptCostsCharge(raws: seq<Value>)
    requires AllReadable(raws) && DistinctIds(Views(raws))
    ensures Charges(raws, KeptCosts(raws))
  {
    hide ParseSkill, Acceptable;
    forall k | 0 <= k < |raws| ensures KeptCosts(raws)(ParseSkill(raws[k]).value) == Kept(raws[k]) {
      forall i | 0 <= i < |raws| && ParseSkill(raws[i]) == ParseSkill(raws[k]) ensures i == k {
        ViewsAt(raws, i);
        ViewsAt(raws, k);
      }
    }
  }

  lemma SkipsToViews(base: string, raws: seq<Value>, hint: Option<string>, ctx: U32)
    requires forall k :: 0 <= k < |raws| ==> Acceptable(raws[k]) && ParseSkill(raws[k]).Some?
    ensures Pipeline(base, raws, hint, ctx) == ComposeViews(base, Views(raws), hint, ctx)
  {
    hide ParseSkill, Acceptable, ComposeViews, Views;
    InvalidFound(raws, 0);
    MalformedFound(raws, 0);
  }

  lemma StopsAtInvalid(base: string, raws: seq<Value>, hint: Option<string>, ctx: U32, k: nat)
    requires k < |raws| && !Acceptable(raws[k])
    ensures Pipeline(base, raws, hint, ctx).InvalidManifest?
  {
    hide ParseSkill, Acceptable, ComposeViews, Views;
    InvalidFound(raws, 0);
  }

  lemma ProjectionsTell(a: seq<Skill>, b: seq<Skill>, ctx: U32)
    ensures Project(a, ctx) == Project(b, ctx) <==> Saturate(TrueSum(a)) == Saturate(TrueSum(b))
  {
    hide Saturate, TrueSum, FoldCost;
    SatZero();
    FoldExact(0, 0, a);
    FoldExact(0, 0, b);
  }

  lemma ViewsAgree(base: string, e: seq<Skill>, hint: Option<string>, ctx: U32, f: Costing)
    requires DistinctIds(e)
    ensures ComposeViews(base, FillAll(e, f), hint, ctx) == ComposeViews(base, e, hint, ctx)
            <==> (Compatible(e) ==>
                    && Saturate(TrueSum(FillAll(e, f))) == Saturate(TrueSum(e))
                    && (Project(e, ctx).status.Fits? ==> forall name :: !OmittedVsEmpty(e, name)))
  {
    hide Saturate, TrueSum, FillAll, OmittedVsEmpty, Compatible, Project, FirstConflict, DistinctIds, ToolUnion,
      Gather, ById, ChoosePrimary, Arranged, Persona, Leader, Secondaries;
    CompatibleIff(e);
    MergeFill(base, e, hint, f);
    ProjectionsTell(FillAll(e, f), e, ctx);
  }

  /** When composition sees shorthand. For valid, readable manifests of skills with distinct ids, composing
      the raw manifests and composing their canonical forms give the same result if and only if no manifest
      is priced below half a cent in shorthand and, unless two skills conflict, dropping the array costs
      does not change the capped total and, if that fits, no tool's configuration is omitted by some
      declarations, empty in others, and nothing else. */
  lemma RawAgreesWithCanonical(base: string, raws: seq<Value>, hint: Option<string>, ctx: U32)
    requires AllReadable(raws) && DistinctIds(Views(raws))
    ensures Pipeline(base, CanonAll(raws), hint, ctx) == Pipeline(base, raws, hint, ctx)
            <==> && (forall k :: 0 <= k < |raws| ==> !F.SubCent(raws[k]))
                 && (Compatible(Views(raws)) ==>
                       && Saturate(KeptSum(raws)) == Saturate(TrueSum(Views(raws)))
                       && (Project(Views(raws), ctx).status.Fits? ==>
                             forall name :: !OmittedVsEmpty(Views(raws), name)))
  {
    hide ParseSkill, Merge, Canon, Views, FillAll, OmittedVsEmpty, DistinctIds, Pipeline, Acceptable, Kept,
      KeptCosts, Compatible, Project, TrueSum, KeptSum, Saturate, F.SubCent;
    var f := KeptCosts(raws);
    KeptCostsCharge(raws);
    SkipsToViews(base, raws, hint, ctx);
    if k :| 0 <= k < |raws| && F.SubCent(raws[k]) {
      SubCentRejected(raws[k]);
      StopsAtInvalid(base, CanonAll(raws), hint, ctx, k);
      RawIsNotInvalid(base, raws, hint, ctx);
    } else {
      forall k | 0 <= k < |raws| ensures Acceptable(CanonAll(raws)[k]) && ParseSkill(CanonAll(raws)[k]).Some? {
        CanonView(raws[k], f);
      }
      SkipsToViews(base, CanonAll(raws), hint, ctx);
      ViewsCanon(raws, f);
      KeptSumExact(raws, f);
      ViewsAgree(base, Views(raws), hint, ctx, f);
    }
  }

  lemma RawIsNotInvalid(base: string, raws: seq<Value>, hint: Option<string>, ctx: U32)
    requires AllReadable(raws)
    ensures !Pipeline(base, raws, hint, ctx).InvalidManifest?
  {
    hide ParseSkill, Acceptable, Views, Merge, Project;
    SkipsToViews(base, raws, hint, ctx);
  }
}
