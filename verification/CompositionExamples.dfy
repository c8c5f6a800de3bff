/** Whole manifests whose composition differs from that of their canonical forms (`composition.rs`), one
    for each way in which that can happen. */
module CompositionExamples {
  import opened Text
  import opened Json
  import opened ManifestSchema
  import opened ManifestMeaning
  import N = ManifestNormal
  import F = ManifestFixedPoint
  import opened Orchestrator
  import opened ToolAccounting
  import opened Capacity
  import opened Composition
  import opened Shorthand
  import opened CompositionAgreement

  const FREE: Value := Obj(map["free" := Bool(true)])

  /** A well-formed free skill. */
  function Sample(id: string): Dict {
    map["id" := Str(id), "name" := Str("Tea"), "version" := Str("1.0.0"), "category" := Str("Cooking"),
        "min_app_version" := Str("1.0.0"), "requirements" := Obj(map["min_model_tier" := Str("small")]),
        "pricing" := FREE,
        "persona" := Obj(map["system_prompt" := Str("s"), "compressed_prompt" := Str("c")])]
  }

  const TOOL: Dict := map["ref" := Str("calculate")]

  function WithTool(id: string, tool: Dict): Dict { Sample(id)["tools" := Arr([Obj(tool)])] }

  const METERED: Dict := Sample("tea")["cost_estimate" := Arr([N.IntJson(4000)])]
  const OMITTING: Dict := WithTool("tea", TOOL)
  const EMPTYING: Dict := WithTool("pot", TOOL["config" := Obj(map[])])

  lemma Ids()
    ensures IsSkillId("tea") && IsSkillId("pot")
  {
    SplitPlain("tea", '-');
    SplitPlain("pot", '-');
  }

  lemma SampleIdentity(o: Dict)
    requires Get(o, "manifest_version") == None && Get(o, "summary") == None && Get(o, "name") == Some(Str("Tea"))
    requires IsStr(Get(o, "id"), IsSkillId)
    ensures GoodIdentity(o)
  {
    hide IsSkillId;
  }

  lemma SampleRelease(o: Dict)
    requires Get(o, "version") == Get(o, "min_app_version") == Some(Str("1.0.0"))
    requires Get(o, "status") == None && Get(o, "category") == Some(Str("Cooking"))
    ensures GoodRelease(o)
  {
    hide IsSemver;
    F.CheapVersion();
  }

  lemma SampleTerms(o: Dict)
    requires Get(o, "requirements") == Some(Obj(map["min_model_tier" := Str("small")]))
    requires Get(o, "pricing") == Some(FREE)
    requires Get(o, "persona") == Some(Obj(map["system_prompt" := Str("s"), "compressed_prompt" := Str("c")]))
    ensures IsObject(Get(o, "requirements"), GoodRequirements)
    ensures IsObject(Get(o, "pricing"), (p: Dict) => IsFree(p) || IsPaid(p))
    ensures IsObject(Get(o, "persona"), GoodPersona)
  {
  }

  /** What the samples share. */
  predicate Common(o: Dict) { CommonTerms(o) && CommonHeader(o) && CommonRest(o) }

  predicate CommonTerms(o: Dict) {
    && Get(o, "requirements") == Some(Obj(map["min_model_tier" := Str("small")]))
    && Get(o, "pricing") == Some(FREE)
    && Get(o, "persona") == Some(Obj(map["system_prompt" := Str("s"), "compressed_prompt" := Str("c")]))
  }

  predicate CommonHeader(o: Dict) {
    && Get(o, "manifest_version") == None && Get(o, "summary") == None && Get(o, "name") == Some(Str("Tea"))
    && Get(o, "version") == Get(o, "min_app_version") == Some(Str("1.0.0"))
    && Get(o, "status") == None && Get(o, "category") == Some(Str("Cooking"))
  }

  predicate CommonRest(o: Dict) {
    && Get(o, "capabilities") == Get(o, "shared_state") == None
    && Get(o, "resources") == Get(o, "localization") == Get(o, "compatibility") == Get(o, "ui") == None
  }

  lemma SampleIsCommon(id: string)
    ensures Common(Sample(id)) && Get(Sample(id), "id") == Some(Str(id))
    ensures Get(Sample(id), "tools") == None && Get(Sample(id), "cost_estimate") == None
  {
    hide CommonTerms, CommonHeader, CommonRest;
    SampleHasTerms(id);
    SampleHasHeader(id);
    SampleOmits(id);
  }

  lemma SampleHasTerms(id: string)
    ensures CommonTerms(Sample(id))
  {
  }

  lemma SampleHasHeader(id: string)
    ensures CommonHeader(Sample(id))
  {
  }

  lemma SampleOmits(id: string)
    ensures CommonRest(Sample(id))
  {
  }

  lemma StaysCommon(o: Dict, key: string, v: Value)
    requires Common(o) && (key == "tools" || key == "cost_estimate")
    ensures Common(o[key := v])
  {
    assert CommonTerms(o[key := v]);
    assert CommonHeader(o[key := v]);
    assert CommonRest(o[key := v]);
  }

  lemma SampleAccepted(o: Dict)
    requires Common(o) && IsStr(Get(o, "id"), IsSkillId)
    requires "tools" in o ==> IsObjectList(Get(o, "tools"), GoodTool)
    requires forall u :: u in NamesOf(o).uses ==> u == ToolUse([], [])
    ensures Acceptable(Obj(o))
  {
    hide IsSkillId, GoodRequirements, GoodPersona, IsFree, IsPaid, GoodIdentity, GoodRelease, ManifestIssues,
      GoodTool;
    SampleIdentity(o);
    SampleRelease(o);
    SampleTerms(o);
    assert NamesOf(o).panels == [] && NamesOf(o).locale == None;
    AcceptedIffConforms(Obj(o));
  }

  lemma SampleView(o: Dict, id: string, tools: seq<ToolRef>, cost: Cost)
    requires Common(o) && Get(o, "id") == Some(Str(id))
    requires ListField(Get(o, "tools")).Some? && ParseTools(ListField(Get(o, "tools")).value) == Some(tools)
    requires ParseCost(Get(o, "cost_estimate")) == Some(cost)
    ensures ParseSkill(Obj(o)) == Some(Skill(id, PrimaryEligible, "s", "c", tools, 50, [], cost))
  {
    hide ParseTools, ParseCost;
    assert ParseRole(None) == Some(PrimaryEligible);
  }

  // ------------------------------------------------------------------ the examples

  /** Composing the manifests and composing their canonical forms give different results. */
  ghost predicate Disagree(base: string, raws: seq<Value>, hint: Option<string>, ctx: U32) {
    && AllReadable(raws) && DistinctIds(Views(raws))
    && Pipeline(base, CanonAll(raws), hint, ctx) != Pipeline(base, raws, hint, ctx)
  }

  lemma ViewsOfOne(a: Value)
    requires ParseSkill(a).Some?
    ensures Views([a]) == [ParseSkill(a).value]
  {
    hide ParseSkill;
    assert Views([a][1..]) == [];
  }

  lemma ViewsOfTwo(a: Value, b: Value)
    requires ParseSkill(a).Some? && ParseSkill(b).Some?
    ensures Views([a, b]) == [ParseSkill(a).value, ParseSkill(b).value]
  {
    ViewsOfOne(b);
    ViewsCons(a, [b]);
    assert [a, b] == [a] + [b];
  }

  lemma SubCentDisagrees(base: string, o: Dict, hint: Option<string>, ctx: U32)
    requires Acceptable(Obj(o)) && ParseCost(Get(o, "cost_estimate")).Some? && F.SubCent(Obj(o))
    ensures Disagree(base, [Obj(o)], hint, ctx)
  {
    hide ParseSkill, ManifestIssues, Pipeline, F.SubCent, KeptSum, TrueSum, Compatible, Project, ParseCost;
    var raws := [Obj(o)];
    ValidView(o);
    ViewsOfOne(raws[0]);
    RawAgreesWithCanonical(base, raws, hint, ctx);
    assert F.SubCent(raws[0]);
  }

  /** A skill at a tenth of a cent: its canonical form is not a valid manifest. */
  lemma CheapDisagrees(base: string, hint: Option<string>, ctx: U32)
    ensures Disagree(base, [Obj(F.CHEAP)], hint, ctx)
  {
    hide Disagree, ManifestIssues, ParseCost, F.SubCent;
    F.CheapIsLost();
    F.CheapIsSubCent();
    CheapHasNoCost();
    SubCentDisagrees(base, F.CHEAP, hint, ctx);
  }

  lemma CheapHasNoCost()
    ensures ParseCost(Get(F.CHEAP, "cost_estimate")) == Some(Cost(0, 0, 0))
  {
  }

  lemma MeteredView()
    ensures Acceptable(Obj(METERED))
    ensures ParseSkill(Obj(METERED)) == Some(Skill("tea", PrimaryEligible, "s", "c", [], 50, [], Cost(4000, 0, 0)))
  {
    hide Sample, Common, Acceptable, ParseSkill, IsSkillId;
    Ids();
    SampleIsCommon("tea");
    var cost := Arr([N.IntJson(4000)]);
    StaysCommon(Sample("tea"), "cost_estimate", cost);
    SampleAccepted(METERED);
    assert Nth([N.IntJson(4000)], 0) == Some(N.IntJson(4000));
    assert ParseCost(Some(cost)) == Some(Cost(4000, 0, 0));
    SampleView(METERED, "tea", [], Cost(4000, 0, 0));
  }

  /** A free skill whose cost is the array `[4000]`: only the raw manifest is charged for it. */
  lemma ArrayCostDisagrees(base: string, hint: Option<string>, ctx: U32)
    ensures Disagree(base, [Obj(METERED)], hint, ctx)
  {
    hide ParseSkill, Acceptable, Pipeline, F.SubCent, Project, Sample;
    var raws := [Obj(METERED)];
    MeteredView();
    ViewsOfOne(raws[0]);
    assert raws[1..] == [] && KeptSum(raws[1..]) == 0;
    assert ArrayCost(raws[0]);
    assert TrueSum(Views(raws)) == 4000;
    RawAgreesWithCanonical(base, raws, hint, ctx);
  }

  lemma OneTool(v: Value, t: ToolRef)
    requires ParseTool(v) == Some(t)
    ensures ParseTools([v]) == Some([t])
  {
    hide ParseTool;
    assert [v][1..] == [];
    assert ParseTools([v][1..]) == Some([]);
    assert [t] + [] == [t];
  }

  lemma ToolView(id: string, tool: Dict, config: Value)
    requires IsSkillId(id) && GoodTool(tool) && UseOf(Obj(tool)) == ToolUse([], [])
    requires ParseTool(Obj(tool)) == Some(ToolRef("calculate", config))
    ensures Acceptable(Obj(WithTool(id, tool)))
    ensures ParseSkill(Obj(WithTool(id, tool)))
            == Some(Skill(id, PrimaryEligible, "s", "c", [ToolRef("calculate", config)], 50, [], Cost(0, 0, 0)))
  {
    hide Sample, Common, Acceptable, ParseSkill, IsSkillId, GoodTool, UseOf, ParseTool;
    var o := WithTool(id, tool);
    SampleIsCommon(id);
    StaysCommon(Sample(id), "tools", Arr([Obj(tool)]));
    assert Get(o, "tools") == Some(Arr([Obj(tool)])) && Get(o, "id") == Get(Sample(id), "id");
    assert IsStr(Get(o, "id"), IsSkillId);
    assert NamesOf(o).uses == [UseOf(Obj(tool))];
    assert IsObjectList(Get(o, "tools"), GoodTool);
    SampleAccepted(o);
    OneTool(Obj(tool), ToolRef("calculate", config));
    assert Get(o, "cost_estimate") == Get(Sample(id), "cost_estimate") == None;
    SampleView(o, id, [ToolRef("calculate", config)], Cost(0, 0, 0));
  }

  /** Two skills that share a tool, one omitting its configuration and one leaving it empty: raw, each gets
      its own tool; canonical, they share one. */
  lemma OmittedDisagrees(base: string, hint: Option<string>, ctx: U32)
    requires ctx >= MIN_RESERVE_TOKENS
    ensures Disagree(base, [Obj(OMITTING), Obj(EMPTYING)], hint, ctx)
  {
    hide ParseSkill, Acceptable, Pipeline, F.SubCent, Sample, IsSkillId, WithTool, KeptSum;
    var raws := [Obj(OMITTING), Obj(EMPTYING)];
    Ids();
    ToolView("tea", TOOL, Null);
    ToolView("pot", TOOL["config" := Obj(map[])], Obj(map[]));
    ViewsOfTwo(raws[0], raws[1]);
    OmittedAndEmpty(Views(raws));
    RawAgreesWithCanonical(base, raws, hint, ctx);
  }

  lemma OmittedAndEmpty(e: seq<Skill>)
    requires |e| == 2 && e[0].id == "tea" && e[1].id == "pot" && e[0].conflicts == e[1].conflicts == []
    requires e[0].tools == [ToolRef("calculate", Null)] && e[1].tools == [ToolRef("calculate", Obj(map[]))]
    requires e[0].cost == e[1].cost == Cost(0, 0, 0)
    ensures DistinctIds(e) && Compatible(e) && OmittedVsEmpty(e, "calculate")
    ensures forall ctx: U32 :: ctx >= MIN_RESERVE_TOKENS ==> Project(e, ctx).status.Fits?
  {
    assert e[0] in e && e[1] in e;
    assert Configured(e, "calculate", Null) && Configured(e, "calculate", Obj(map[]));
    assert FoldCost(0, e) == 0 by {
      assert SkillCost(e[0]) == SkillCost(e[1]) == 0;
      assert e[1..] == [e[1]] && e[1..][1..] == [];
      assert SatAdd(0, 0) == 0 && FoldCost(0, e[1..]) == FoldCost(0, e[1..][1..]) == 0;
    }
  }
}
