/** Normalization is a fixed point (`manifest.rs`): the canonical form, written out and validated again,
    is accepted and normalizes to itself, exactly when its price survived rounding. */
module ManifestFixedPoint {
  import opened Text
  import opened Json
  import opened Order
  import opened ManifestSchema
  import opened ManifestNormal

  // ------------------------------------------------------------------------ lists

  lemma {:induction false} ItemsClean(items: seq<Value>, from: nat, check: ItemCheck, at: Pointer)
    requires from <= |items|
    ensures ItemIssues(items, from, check, at) == [] <==>
            forall k: nat :: from <= k < |items| ==> check(items[k], at + [At(k)]) == []
    decreases |items| - from
  {
    if from < |items| { ItemsClean(items, from + 1, check, at); }
  }

  lemma {:induction false} AllObjects(items: seq<Value>)
    requires forall k :: 0 <= k < |items| ==> items[k].Obj?
    ensures |Objects(items)| == |items| && forall k :: 0 <= k < |items| ==> Objects(items)[k] == items[k].members
  {
    if items != [] {
      AllObjects(items[1..]);
    }
  }

  lemma {:induction false} AllStrings(items: seq<Value>)
    requires forall k :: 0 <= k < |items| ==> items[k].Str?
    ensures |Strings(items)| == |items| && forall k :: 0 <= k < |items| ==> Strings(items)[k] == items[k].s
  {
    if items != [] {
      AllStrings(items[1..]);
    }
  }

  lemma StringsFixed(v: Option<Value>, form: Form, bad: Code, at: Pointer)
    requires ListIssues(v, StrItem(form, bad), at) == []
    ensures var j := Some(StringsJson(StrArray(v)));
            && ListIssues(j, StrItem(form, bad), at) == [] && StrArray(j) == StrArray(v)
            && StrsOf(ItemsOf(j)) == StrsOf(ItemsOf(v))
  {
    var items := ItemsOf(v);
    var j := StringsJson(StrArray(v));
    ItemsClean(items, 0, StrItem(form, bad), at);
    assert forall k: nat :: k < |items| ==> StrItem(form, bad)(items[k], at + [At(k)]) == [] ==>
             items[k].Str? && form(items[k].s);
    AllStrings(items);
    AllStrings(j.items);
    ItemsClean(j.items, 0, StrItem(form, bad), at);
  }

  lemma CleanObject(v: Value, check: (Dict, Pointer) -> Issues, at: Pointer)
    ensures ObjectItem(check)(v, at) == [] <==> v.Obj? && check(v.members, at) == []
  {
    if !v.Obj? { assert |Fault(InvalidType, at)| == 1; }
  }

  /** A list of objects whose entries are each a fixed point is one itself. */
  lemma ListFixed<A>(v: Option<Value>, check: (Dict, Pointer) -> Issues, norm: Dict -> A, json: A -> Dict, at: Pointer)
    requires ListIssues(v, ObjectItem(check), at) == []
    requires forall d, p :: check(d, p) == [] ==> check(json(norm(d)), p) == [] && norm(json(norm(d))) == norm(d)
    ensures var c := Each(Objects(ItemsOf(v)), norm);
            var j := Some(ListJson(c, json));
            && ListIssues(j, ObjectItem(check), at) == [] && Each(Objects(ItemsOf(j)), norm) == c
            && Entries(v, check, norm, json, at)
  {
    var items := ItemsOf(v);
    ItemsClean(items, 0, ObjectItem(check), at);
    forall k: nat | k < |items| ensures items[k].Obj? {
      CleanObject(items[k], check, at + [At(k)]);
    }
    AllObjects(items);
    var c := Each(Objects(items), norm);
    var out := ListJson(c, json).items;
    AllObjects(out);
    forall k: nat | k < |out| ensures ObjectItem(check)(out[k], at + [At(k)]) == [] {
      assert ObjectItem(check)(items[k], at + [At(k)]) == [];
      assert check(items[k].members, at + [At(k)]) == [];
    }
    ItemsClean(out, 0, ObjectItem(check), at);
    forall k: nat | k < |items|
      ensures items[k].Obj? && check(items[k].members, at + [At(k)]) == []
              && out[k] == Obj(json(norm(items[k].members)))
      ensures norm(json(norm(items[k].members))) == norm(items[k].members)
    {
      assert ObjectItem(check)(items[k], at + [At(k)]) == [];
    }
  }

  /** The entries of a clean list and of its canonical rendering correspond. */
  ghost predicate Entries<A>(v: Option<Value>, check: (Dict, Pointer) -> Issues, norm: Dict -> A, json: A -> Dict,
      at: Pointer) {
    var items := ItemsOf(v);
    var out := ListJson(Each(Objects(items), norm), json).items;
    |out| == |items| &&
    forall k: nat :: k < |items| ==>
      items[k].Obj? && check(items[k].members, at + [At(k)]) == [] && out[k] == Obj(json(norm(items[k].members)))
  }

  // --------------------------------------------------------------------- sections

  lemma RequirementsFixed(r: Dict, at: Pointer)
    requires RequirementIssues(r, at) == []
    ensures var c := NormalizeRequirements(Some(Obj(r)));
            RequirementIssues(RequirementsJson(c), at) == []
                && NormalizeRequirements(Some(Obj(RequirementsJson(c)))) == c
  {
  }

  /** The shorthand price that rounds to nothing: paid, given in dollars, below half a cent. */
  ghost predicate SubCent(raw: Value) {
    var pricing := raw.Get("pricing");
    && Within(pricing, "free") == Some(Bool(false))
    && Within(pricing, "price_usd").Some?
    && Within(pricing, "price_usd").value.AsF64().Some?
    && Within(pricing, "price_usd").value.AsF64().value < 0.005
  }

  lemma CentsPositive(usd: real)
    requires 0.0 < usd <= 1000.0
    ensures 0 <= RoundCents(usd) <= 100000 && (RoundCents(usd) >= 1 <==> usd >= 0.005)
  {
  }

  lemma PricingFixed(p: Dict, at: Pointer)
    requires PricingIssues(p, at) == []
    ensures var c := NormalizePricing(Some(Obj(p)));
            && NormalizePricing(Some(Obj(PricingJson(c)))) == c
            && (PricingIssues(PricingJson(c), at) == [] <==> !SubCent(Obj(map["pricing" := Obj(p)])))
  {
    var c := NormalizePricing(Some(Obj(p)));
    var usd := Get(p, "price_usd");
    if usd.Some? && usd.value.AsF64().Some? && 0.0 < usd.value.AsF64().value <= 1000.0 {
      CentsPositive(usd.value.AsF64().value);
    }
  }

  lemma FewShotFixed(e: Dict, at: Pointer)
    requires FewShotIssues(e, at) == []
    ensures var c := NormalizeFewShot(e);
            FewShotIssues(FewShotJson(c), at) == [] && NormalizeFewShot(FewShotJson(c)) == c
  {
  }

  lemma PersonaFixed(p: Dict, at: Pointer)
    requires PersonaIssues(p, at) == []
    ensures var c := NormalizePersona(Some(Obj(p)));
            PersonaIssues(PersonaJson(c), at) == [] && NormalizePersona(Some(Obj(PersonaJson(c)))) == c
  {
    hide FewShotIssues, ListIssues;
    forall d, q | FewShotIssues(d, q) == []
      ensures FewShotIssues(FewShotJson(NormalizeFewShot(d)), q) == []
              && NormalizeFewShot(FewShotJson(NormalizeFewShot(d))) == NormalizeFewShot(d)
    {
      FewShotFixed(d, q);
    }
    ListFixed(Get(p, "few_shot"), FewShotIssues, NormalizeFewShot, FewShotJson, at + [Key("few_shot")]);
  }

  lemma ToolFixed(t: Dict, at: Pointer)
    requires ToolIssues(t, at) == []
    ensures var j := ToolJson(NormalizeTool(t));
            && ToolIssues(j, at) == [] && NormalizeTool(j) == NormalizeTool(t)
            && StrOf(Get(j, "ref")) == StrOf(Get(t, "ref")) && UseOf(Obj(j)) == UseOf(Obj(t))
  {
    hide ListIssues, StrArray, StringsJson;
    StringsFixed(Get(t, "reads_state"), IsIdentName, InvalidFormat, at + [Key("reads_state")]);
    StringsFixed(Get(t, "writes_state"), IsIdentName, InvalidFormat, at + [Key("writes_state")]);
  }

  lemma ToolsFixed(v: Option<Value>, at: Pointer)
    requires ListIssues(v, ObjectItem(ToolIssues), at) == []
    ensures var j := Some(ListJson(NormalizeTools(v), ToolJson));
            && ListIssues(j, ObjectItem(ToolIssues), at) == [] && NormalizeTools(j) == NormalizeTools(v)
            && MembersOf(ItemsOf(j), "ref") == MembersOf(ItemsOf(v), "ref") && SameUses(ItemsOf(j), ItemsOf(v))
  {
    hide ListIssues, ToolIssues, NormalizeTool, ToolJson, UseOf;
    forall d, q | ToolIssues(d, q) == []
      ensures ToolIssues(ToolJson(NormalizeTool(d)), q) == []
              && NormalizeTool(ToolJson(NormalizeTool(d))) == NormalizeTool(d)
    {
      ToolFixed(d, q);
    }
    ListFixed(v, ToolIssues, NormalizeTool, ToolJson, at);
    var items := ItemsOf(v);
    forall k: nat | k < |items|
      ensures var out := ListJson(NormalizeTools(v), ToolJson).items;
              UseOf(out[k]) == UseOf(items[k]) && StrOf(out[k].Get("ref")) == StrOf(items[k].Get("ref"))
    {
      ToolFixed(items[k].members, at + [At(k)]);
      assert Get(items[k].members, "ref") == items[k].Get("ref");
      var j := ToolJson(NormalizeTool(items[k].members));
      assert Get(j, "ref") == Obj(j).Get("ref");
    }
  }

  ghost predicate SameUses(a: seq<Value>, b: seq<Value>) {
    |a| == |b| && forall k :: 0 <= k < |a| ==> UseOf(a[k]) == UseOf(b[k])
  }

  lemma SlotFixed(s: Dict, at: Pointer)
    requires SlotIssues(s, at) == []
    ensures var j := SlotJson(NormalizeSlot(s));
            && SlotIssues(j, at) == [] && NormalizeSlot(j) == NormalizeSlot(s)
            && StrOf(Get(j, "slot")) == StrOf(Get(s, "slot"))
  {
  }

  lemma SlotsFixed(v: Option<Value>, at: Pointer)
    requires ListIssues(v, ObjectItem(SlotIssues), at) == []
    ensures var j := Some(ListJson(NormalizeSlots(v), SlotJson));
            && ListIssues(j, ObjectItem(SlotIssues), at) == [] && NormalizeSlots(j) == NormalizeSlots(v)
            && MembersOf(ItemsOf(j), "slot") == MembersOf(ItemsOf(v), "slot")
  {
    hide ListIssues, SlotIssues, NormalizeSlot, SlotJson;
    forall d, q | SlotIssues(d, q) == []
      ensures SlotIssues(SlotJson(NormalizeSlot(d)), q) == []
              && NormalizeSlot(SlotJson(NormalizeSlot(d))) == NormalizeSlot(d)
    {
      SlotFixed(d, q);
    }
    ListFixed(v, SlotIssues, NormalizeSlot, SlotJson, at);
    var items := ItemsOf(v);
    forall k: nat | k < |items|
      ensures StrOf(ListJson(NormalizeSlots(v), SlotJson).items[k].Get("slot")) == StrOf(items[k].Get("slot"))
    {
      SlotFixed(items[k].members, at + [At(k)]);
      assert Get(items[k].members, "slot") == items[k].Get("slot");
      var j := SlotJson(NormalizeSlot(items[k].members));
      assert Get(j, "slot") == Obj(j).Get("slot");
    }
  }

  lemma ResourcesFixed(v: Option<Value>, at: Pointer)
    requires Section(v, false, ResourceIssues, at) == []
    ensures var j := ResourcesJson(NormalizeResources(v));
            && ResourceIssues(j, at) == [] && NormalizeResources(Some(Obj(j))) == NormalizeResources(v)
            && StrsOf(ItemsOf(Get(j, "strings"))) == StrsOf(ItemsOf(Within(v, "strings")))
  {
    hide StrArray, StringsJson, IsSvgAssetPath, IsLocale;
    StringsFixed(Within(v, "assets"), IsSvgAssetPath, InvalidAssetPath, at + [Key("assets")]);
    StringsFixed(Within(v, "strings"), IsLocale, InvalidFormat, at + [Key("strings")]);
  }

  lemma LocalizationFixed(v: Option<Value>, at: Pointer)
    requires Section(v, false, LocalizationIssues, at) == []
    ensures var j := LocalizationJson(NormalizeLocalization(v));
            && LocalizationIssues(j, at) == [] && NormalizeLocalization(Some(Obj(j))) == NormalizeLocalization(v)
            && StrOf(Get(j, "default_locale")) == StrOf(Within(v, "default_locale"))
  {
    hide IsLocale;
  }

  lemma CompatibilityFixed(v: Option<Value>, at: Pointer)
    requires Section(v, false, CompatibilityIssues, at) == []
    ensures var j := CompatibilityJson(NormalizeCompatibility(v));
            && CompatibilityIssues(j, at) == [] && NormalizeCompatibility(Some(Obj(j))) == NormalizeCompatibility(v)
  {
    hide StrArray, StringsJson, IsSkillId;
    StringsFixed(Within(v, "conflicts_with"), IsSkillId, InvalidFormat, at + [Key("conflicts_with")]);
  }

  lemma CostFixed(v: Option<Value>)
    ensures NormalizeCost(CostJson(NormalizeCost(v))) == NormalizeCost(v)
  {
  }

  // ----------------------------------------------------------------------- panels

  /** An emit that survives being written in its long form. */
  predicate GoodEmit(e: Emit) { 1 <= |e.name| <= 48 }

  lemma {:induction false} EmitsGood(items: seq<Value>, widget: string)
    requires forall k :: 0 <= k < |items| ==> EmitIssues(items[k], []) == []
    ensures forall k :: 0 <= k < |EmitsOf(items, widget)| ==> GoodEmit(EmitsOf(items, widget)[k])
  {
    if items != [] {
      assert EmitIssues(items[0], []) == [];
      EmitsGood(items[1..], widget);
    }
  }

  lemma EmitAnywhere(e: Value, at: Pointer)
    ensures EmitIssues(e, at) == [] <==> EmitIssues(e, []) == []
  {
  }

  lemma EmitFixed(e: Emit, widget: string)
    requires GoodEmit(e)
    ensures EmitIssues(Obj(EmitJson(e)), []) == [] && EmitOf(Obj(EmitJson(e)), widget) == Some(e)
  {
  }

  lemma {:induction false} EmitsBack(l: seq<Emit>, items: seq<Value>, widget: string)
    requires |items| == |l| && forall k :: 0 <= k < |l| ==> GoodEmit(l[k]) && items[k] == Obj(EmitJson(l[k]))
    ensures EmitsOf(items, widget) == l
  {
    if l != [] {
      EmitFixed(l[0], widget);
      EmitsBack(l[1..], items[1..], widget);
    }
  }

  lemma DefaultsGood(widget: string)
    ensures forall k :: 0 <= k < |DefaultEmits(widget)| ==> GoodEmit(DefaultEmits(widget)[k])
  {
    assert forall k :: 0 <= k < |DefaultEvents(widget)| ==> 1 <= |DefaultEvents(widget)[k]| <= 48;
  }

  lemma EmitsFixed(v: Option<Value>, widget: string, at: Pointer)
    requires ListIssues(v, EmitIssues, at) == []
    ensures var j := Some(ListJson(NormalizeEmits(v, widget), EmitJson));
            ListIssues(j, EmitIssues, at) == [] && NormalizeEmits(j, widget) == NormalizeEmits(v, widget)
  {
    hide EmitIssues, EmitJson, GoodEmit, DefaultEmits;
    var l := NormalizeEmits(v, widget);
    if v.Some? {
      var items := v.value.items;
      ItemsClean(items, 0, EmitIssues, at);
      forall k | 0 <= k < |items| ensures EmitIssues(items[k], []) == [] {
        EmitAnywhere(items[k], at + [At(k)]);
      }
      EmitsGood(items, widget);
    } else {
      DefaultsGood(widget);
    }
    var out := ListJson(l, EmitJson).items;
    EmitsBack(l, out, widget);
    forall k: nat | k < |out| ensures EmitIssues(out[k], at + [At(k)]) == [] {
      EmitFixed(l[k], widget);
      EmitAnywhere(out[k], at + [At(k)]);
    }
    ItemsClean(out, 0, EmitIssues, at);
  }

  lemma PanelMembers(p: Panel)
    ensures var j := PanelJson(p);
            && Get(j, "type") == Some(Str(p.widget)) && Get(j, "id") == Some(Str(p.id))
            && Get(j, "title") == StrJson(p.title) && Get(j, "region") == Some(Str(p.region))
            && Get(j, "priority") == Some(IntJson(p.priority)) && Get(j, "props") == Some(Obj(p.props))
            && Get(j, "emits") == Some(ListJson(p.emits, EmitJson))
            && Get(j, "binds_state") == StrJson(p.bindsState) && Get(j, "binds_tool") == StrJson(p.bindsTool)
            && Get(j, "min_widget_version") == Some(Str(p.minWidgetVersion))
  {
  }

  lemma PanelKeys(p: Panel, k: string)
    requires k in PanelJson(p)
    ensures k in CANONICAL_PANEL_KEYS
  {
    var keys := CANONICAL_PANEL_KEYS;
    assert keys[0] == "type" && keys[1] == "id" && keys[2] == "title" && keys[3] == "region" && keys[4] == "priority";
    assert keys[5] == "props" && keys[6] == "binds_state" && keys[7] == "binds_tool" && keys[8] == "emits";
    assert keys[9] == "min_widget_version";
  }

  predicate NotPanelKey(k: string) {
    && k != "type" && k != "id" && k != "title" && k != "region" && k != "priority" && k != "props"
    && k != "binds_state" && k != "binds_tool" && k != "emits" && k != "min_widget_version"
  }

  lemma InlineApart(widget: string, k: string)
    requires k in InlinePropKeys(widget)
    ensures NotPanelKey(k)
  {
    assert k in ["multi", "checkable", "reorderable", "max_items", "options", "default"]
        || k in ["min", "max", "step", "columns", "actions", "mode"] || k in ["image", "body", "tab_ids"];
  }

  lemma {:induction false} NothingInline(props: Dict, p: Dict, inline: seq<string>)
    requires forall k :: k in inline ==> k !in p
    ensures FoldInline(props, p, inline) == props
    decreases inline
  {
    if inline != [] { NothingInline(props, p, inline[1..]); }
  }

  lemma {:induction false} KeysKnown(keys: seq<string>, inline: seq<string>, at: Pointer)
    requires forall k :: k in keys ==> k in CANONICAL_PANEL_KEYS
    ensures KeyIssues(keys, inline, at) == []
  {
    if keys != [] { KeysKnown(keys[1..], inline, at); }
  }

  lemma CanonicalKeysKnown(p: Panel, at: Pointer)
    ensures UnknownKeyIssues(PanelJson(p), at) == []
  {
    hide PanelJson, KeyIssues;
    var j := PanelJson(p);
    forall k | k in Ascending(j.Keys) ensures k in CANONICAL_PANEL_KEYS {
      AscendingLists(j.Keys);
      PanelKeys(p, k);
    }
    KeysKnown(Ascending(j.Keys), InlinePropKeys(p.widget), at);
    PanelMembers(p);
  }

  lemma PropsFixed(p: Panel)
    ensures PropsOf(PanelJson(p)) == p.props
  {
    hide PanelJson, InlinePropKeys;
    PanelMembers(p);
    forall k | k in InlinePropKeys(p.widget) ensures k !in PanelJson(p) {
      InlineApart(p.widget, k);
      PanelHasOnly(p, k);
    }
    NothingInline(p.props, PanelJson(p), InlinePropKeys(p.widget));
  }

  lemma PanelHasOnly(p: Panel, k: string)
    requires NotPanelKey(k)
    ensures k !in PanelJson(p)
  {
  }

  lemma FirstVersion()
    ensures IsWidgetVersion("1.0")
  {
    SplitPlain("0", '.');
    SplitLeading("1", "0", '.');
    assert "1.0" == "1" + ['.'] + "0";
    assert Split("1.0", '.') == ["1", "0"];
  }

  lemma PlacementFixed(p: Dict, at: Pointer)
    requires PlacementIssues(p, at) == []
    ensures var j := PanelJson(NormalizePanel(p));
            && PlacementIssues(j, at) == []
            && Get(j, "type") == Get(p, "type") && StrOf(Get(j, "id")) == StrOf(Get(p, "id"))
            && Get(p, "type").Some? && Get(p, "type").value == Str(NormalizePanel(p).widget)
  {
    hide PanelJson, NormalizeEmits, PropsOf;
    PanelMembers(NormalizePanel(p));
  }

  lemma BindingsFixed(p: Dict, at: Pointer)
    requires BindingIssues(p, at) == []
    ensures var j := PanelJson(NormalizePanel(p));
            && BindingIssues(j, at) == []
            && StrOf(Get(j, "binds_tool")) == StrOf(Get(p, "binds_tool"))
            && StrOf(Get(j, "binds_state")) == StrOf(Get(p, "binds_state"))
  {
    hide PanelJson, NormalizeEmits, PropsOf, IsWidgetVersion;
    PanelMembers(NormalizePanel(p));
    FirstVersion();
  }

  lemma PanelFixed(p: Dict, at: Pointer)
    requires PanelIssues(p, at) == []
    ensures var j := PanelJson(NormalizePanel(p));
            && PanelIssues(j, at) == [] && NormalizePanel(j) == NormalizePanel(p)
            && PanelUseOf(Obj(j)) == PanelUseOf(Obj(p))
  {
    hide PanelJson, PlacementIssues, BindingIssues, ListIssues, UnknownKeyIssues, NormalizeEmits, PropsOf;
    var c := NormalizePanel(p);
    var j := PanelJson(c);
    PlacementFixed(p, at);
    BindingsFixed(p, at);
    EmitsFixed(Get(p, "emits"), c.widget, at + [Key("emits")]);
    CanonicalKeysKnown(c, at);
    PropsFixed(c);
    PanelMembers(c);
  }

  lemma PanelsFixed(v: Option<Value>, at: Pointer)
    requires UiSectionIssues(v, at) == []
    ensures var ui := UiJson(NormalizePanels(v));
            && UiIssues(ui, at) == [] && NormalizePanels(Some(Obj(ui))) == NormalizePanels(v)
            && SamePanelUses(ItemsOf(Get(ui, "panels")), ItemsOf(Within(v, "panels")))
  {
    hide PanelIssues, NormalizePanel, PanelJson, PanelUseOf;
    var panels := Within(v, "panels");
    var here := at + [Key("panels")];
    forall d, q | PanelIssues(d, q) == []
      ensures PanelIssues(PanelJson(NormalizePanel(d)), q) == []
              && NormalizePanel(PanelJson(NormalizePanel(d))) == NormalizePanel(d)
    {
      PanelFixed(d, q);
    }
    assert ListIssues(panels, ObjectItem(PanelIssues), here) == [];
    ListFixed(panels, PanelIssues, NormalizePanel, PanelJson, here);
    var items := ItemsOf(panels);
    forall k: nat | k < |items|
      ensures PanelUseOf(ListJson(NormalizePanels(v), PanelJson).items[k]) == PanelUseOf(items[k])
    {
      PanelFixed(items[k].members, here + [At(k)]);
    }
  }

  ghost predicate SamePanelUses(a: seq<Value>, b: seq<Value>) {
    |a| == |b| && forall k :: 0 <= k < |a| ==> PanelUseOf(a[k]) == PanelUseOf(b[k])
  }

  // ----------------------------------------------------------- the whole manifest

  lemma IdentityMembers(c: Canonical)
    ensures var j := CanonicalJson(c);
            && Get(j, "manifest_version") == Some(Str(c.manifestVersion)) && Get(j, "id") == Some(Str(c.id))
            && Get(j, "name") == Some(Str(c.name)) && Get(j, "summary") == StrJson(c.summary)
  {
    hide RequirementsJson, PricingJson, PersonaJson, UiJson, ResourcesJson, LocalizationJson, CompatibilityJson,
      CostJson;
  }

  lemma ReleaseMembers(c: Canonical)
    ensures var j := CanonicalJson(c);
            && Get(j, "version") == Some(Str(c.version)) && Get(j, "status") == Some(Str(c.status))
            && Get(j, "category") == Some(Str(c.category)) && Get(j, "min_app_version") == Some(Str(c.minAppVersion))
  {
    hide RequirementsJson, PricingJson, PersonaJson, UiJson, ResourcesJson, LocalizationJson, CompatibilityJson,
      CostJson;
  }

  lemma TermsMembers(c: Canonical)
    ensures var j := CanonicalJson(c);
            && Get(j, "requirements") == Some(Obj(RequirementsJson(c.requirements)))
            && Get(j, "pricing") == Some(Obj(PricingJson(c.pricing)))
                 && Get(j, "persona") == Some(Obj(PersonaJson(c.persona)))
            && Get(j, "capabilities") == Some(StringsJson(c.capabilities))
                 && Get(j, "tools") == Some(ListJson(c.tools, ToolJson))
            && Get(j, "shared_state") == Some(ListJson(c.sharedState, SlotJson))
  {
    hide RequirementsJson, PricingJson, PersonaJson, UiJson, ResourcesJson, LocalizationJson, CompatibilityJson,
      CostJson;
  }

  lemma EnvironmentMembers(c: Canonical)
    ensures var j := CanonicalJson(c);
            && Get(j, "ui") == Some(Obj(UiJson(c.panels)))
                 && Get(j, "resources") == Some(Obj(ResourcesJson(c.resources)))
            && Get(j, "localization") == Some(Obj(LocalizationJson(c.localization)))
            && Get(j, "compatibility") == Some(Obj(CompatibilityJson(c.compatibility)))
            && Get(j, "cost_estimate") == CostJson(c.cost) && Get(j, "signature") == StrJson(c.signature)
            && Get(j, "signing_key_id") == StrJson(c.signingKeyId)
  {
    hide RequirementsJson, PricingJson, PersonaJson, UiJson, ResourcesJson, LocalizationJson, CompatibilityJson,
      CostJson;
  }

  lemma HeaderFixed(o: Dict)
    requires HeaderIssues(o) == []
    ensures HeaderIssues(CanonicalJson(Normalize(o))) == []
  {
    IdentityFixed(o);
    ReleaseFixed(o);
  }

  lemma OptionalBack(v: Option<Value>, form: Form, bad: Code, at: Pointer, default: string)
    requires OptionalStr(v, form, bad, at) == [] && form(default)
    ensures OptionalStr(Some(Str(StrOr(v, default))), form, bad, at) == []
  {
  }

  lemma OptionalKept(v: Option<Value>, form: Form, bad: Code, at: Pointer)
    requires OptionalStr(v, form, bad, at) == []
    ensures OptionalStr(StrJson(StrOf(v)), form, bad, at) == []
  {
  }

  lemma RequiredBack(v: Option<Value>, form: Form, bad: Code, at: Pointer)
    requires RequiredStr(v, form, bad, at) == []
    ensures RequiredStr(Some(Str(StrOr(v, ""))), form, bad, at) == []
  {
  }

  lemma IdentityFixed(o: Dict)
    requires IdentityIssues(o) == []
    ensures IdentityIssues(CanonicalJson(Normalize(o))) == []
  {
    hide CanonicalJson, IsSkillId, OptionalStr, RequiredStr, StrOr, StrOf;
    IdentityMembers(Normalize(o));
    OptionalBack(Get(o, "manifest_version"), In(MANIFEST_VERSIONS), InvalidEnum, [Key("manifest_version")], "1.0");
    RequiredBack(Get(o, "id"), IsSkillId, InvalidFormat, [Key("id")]);
    RequiredBack(Get(o, "name"), Len(1, 60), InvalidLength, [Key("name")]);
    OptionalKept(Get(o, "summary"), Len(0, 140), InvalidLength, [Key("summary")]);
  }

  lemma ReleaseFixed(o: Dict)
    requires ReleaseIssues(o) == []
    ensures ReleaseIssues(CanonicalJson(Normalize(o))) == []
  {
    hide CanonicalJson, IsSemver, OptionalStr, RequiredStr, StrOr, StrOf;
    ReleaseMembers(Normalize(o));
    RequiredBack(Get(o, "version"), IsSemver, InvalidSemver, [Key("version")]);
    OptionalBack(Get(o, "status"), In(STATUSES), InvalidEnum, [Key("status")], "published");
    RequiredBack(Get(o, "category"), In(CATEGORIES), InvalidEnum, [Key("category")]);
    RequiredBack(Get(o, "min_app_version"), IsSemver, InvalidSemver, [Key("min_app_version")]);
  }

  lemma TermsFixed(o: Dict)
    requires TermsIssues(o) == []
    ensures var c := Normalize(o);
            var j := CanonicalJson(c);
            && (TermsIssues(j) == [] <==> !SubCent(Obj(o)))
            && NormalizeRequirements(Get(j, "requirements")) == c.requirements
            && NormalizePricing(Get(j, "pricing")) == c.pricing && NormalizePersona(Get(j, "persona")) == c.persona
  {
    hide CanonicalJson, StrOr, StrOf, StrArray, NormalizeTools, NormalizeSlots, NormalizePanels,
      NormalizeResources, NormalizeLocalization, NormalizeCompatibility, NormalizeCost, RequirementIssues,
      PricingIssues, PersonaIssues, NormalizeRequirements, NormalizePricing, NormalizePersona, RequirementsJson,
      PricingJson, PersonaJson;
    TermsMembers(Normalize(o));
    RequirementsFixed(Get(o, "requirements").value.members, [Key("requirements")]);
    PricingFixed(Get(o, "pricing").value.members, [Key("pricing")]);
    PersonaFixed(Get(o, "persona").value.members, [Key("persona")]);
    assert Obj(o).Get("pricing") == Get(o, "pricing");
  }

  lemma CapabilitiesFixed(o: Dict)
    requires CapabilityIssues(o) == []
    ensures var c := Normalize(o);
            var j := CanonicalJson(c);
            && CapabilityIssues(j) == []
            && StrArray(Get(j, "capabilities")) == c.capabilities && NormalizeTools(Get(j, "tools")) == c.tools
            && NormalizeSlots(Get(j, "shared_state")) == c.sharedState
            && MembersOf(ItemsOf(Get(j, "tools")), "ref") == MembersOf(ItemsOf(Get(o, "tools")), "ref")
            && SameUses(ItemsOf(Get(j, "tools")), ItemsOf(Get(o, "tools")))
            && MembersOf(ItemsOf(Get(j, "shared_state")), "slot") == MembersOf(ItemsOf(Get(o, "shared_state")), "slot")
  {
    hide CanonicalJson, ListIssues, StrArray, NormalizeTools, NormalizeSlots, StringsJson, SameUses, MembersOf;
    TermsMembers(Normalize(o));
    StringsFixed(Get(o, "capabilities"), In(CAPABILITIES), UnknownCapability, [Key("capabilities")]);
    ToolsFixed(Get(o, "tools"), [Key("tools")]);
    SlotsFixed(Get(o, "shared_state"), [Key("shared_state")]);
  }

  lemma EnvironmentFixed(o: Dict)
    requires EnvironmentIssues(o) == []
    ensures var c := Normalize(o);
            var j := CanonicalJson(c);
            && EnvironmentIssues(j) == []
            && NormalizeResources(Get(j, "resources")) == c.resources
            && NormalizeLocalization(Get(j, "localization")) == c.localization
            && NormalizeCompatibility(Get(j, "compatibility")) == c.compatibility
            && NormalizePanels(Get(j, "ui")) == c.panels && NormalizeCost(Get(j, "cost_estimate")) == c.cost
            && StrsOf(ItemsOf(Within(Get(j, "resources"), "strings")))
                 == StrsOf(ItemsOf(Within(Get(o, "resources"), "strings")))
            && StrOf(Within(Get(j, "localization"), "default_locale"))
                 == StrOf(Within(Get(o, "localization"), "default_locale"))
            && SamePanelUses(ItemsOf(Within(Get(j, "ui"), "panels")), ItemsOf(Within(Get(o, "ui"), "panels")))
  {
    hide CanonicalJson, ResourceIssues, LocalizationIssues, CompatibilityIssues, UiIssues, NormalizeResources,
      NormalizeLocalization, NormalizeCompatibility, NormalizePanels, NormalizeCost, ResourcesJson,
      LocalizationJson, CompatibilityJson, UiJson, CostJson, SamePanelUses, StrsOf;
    EnvironmentMembers(Normalize(o));
    ResourcesFixed(Get(o, "resources"), [Key("resources")]);
    LocalizationFixed(Get(o, "localization"), [Key("localization")]);
    CompatibilityFixed(Get(o, "compatibility"), [Key("compatibility")]);
    PanelsFixed(Get(o, "ui"), [Key("ui")]);
    CostFixed(Get(o, "cost_estimate"));
  }

  /** The canonical form refers to exactly the names the raw manifest did. */
  lemma NamesFixed(o: Dict)
    requires CapabilityIssues(o) == [] && EnvironmentIssues(o) == []
    ensures NamesOf(CanonicalJson(Normalize(o))) == NamesOf(o)
  {
    hide CanonicalJson, CapabilityIssues, EnvironmentIssues, Normalize, UseOf, PanelUseOf, MembersOf, StrsOf;
    CapabilitiesFixed(o);
    EnvironmentFixed(o);
    var a, b := NamesOf(CanonicalJson(Normalize(o))), NamesOf(o);
    assert a.uses == b.uses;
    assert a.panels == b.panels;
  }

  lemma IdentityBack(c: Canonical)
    ensures var j := CanonicalJson(c);
            && StrOr(Get(j, "manifest_version"), "1.0") == c.manifestVersion && StrOr(Get(j, "id"), "") == c.id
            && StrOr(Get(j, "name"), "") == c.name && StrOf(Get(j, "summary")) == c.summary
            && StrOr(Get(j, "version"), "") == c.version && StrOr(Get(j, "status"), "published") == c.status
            && StrOr(Get(j, "category"), "") == c.category && StrOr(Get(j, "min_app_version"), "") == c.minAppVersion
            && StrOf(Get(j, "signature")) == c.signature && StrOf(Get(j, "signing_key_id")) == c.signingKeyId
  {
    hide CanonicalJson;
    IdentityMembers(c);
    ReleaseMembers(c);
    EnvironmentMembers(c);
  }

  /** Validating the canonical form of an accepted manifest accepts it and gives the same canonical form,
      exactly when the manifest was not priced below half a cent in shorthand. */
  lemma NormalizeFixedPoint(raw: Value)
    requires Validate(raw).Ok?
    ensures var c := Validate(raw).canonical;
            Validate(ToJson(c)) == Ok(c) <==> !SubCent(raw)
  {
    hide HeaderIssues, TermsIssues, CapabilityIssues, EnvironmentIssues, ReferenceIssues, NamesOf,
      CanonicalJson, SubCent, NormalizeRequirements, NormalizePricing, NormalizePersona, NormalizeTools,
      NormalizeSlots, NormalizePanels, NormalizeResources, NormalizeLocalization, NormalizeCompatibility,
      NormalizeCost, StrArray, StrOr, StrOf;
    var o := raw.members;
    HeaderFixed(o);
    TermsFixed(o);
    CapabilitiesFixed(o);
    EnvironmentFixed(o);
    NamesFixed(o);
    IdentityBack(Normalize(o));
  }

  // -------------------------------------------------------------- a counterexample

  /** A well-formed skill at a tenth of a cent. */
  const CHEAP: Dict := map[
    "id" := Str("tea"), "name" := Str("Tea"), "version" := Str("1.0.0"), "category" := Str("Cooking"),
    "min_app_version" := Str("1.0.0"), "requirements" := Obj(map["min_model_tier" := Str("small")]),
    "pricing" := Obj(map["free" := Bool(false), "price_usd" := Num(Float(0.001))]),
    "persona" := Obj(map["system_prompt" := Str("s"), "compressed_prompt" := Str("c")])]

  lemma CheapVersion()
    ensures IsSemver("1.0.0")
  {
    SplitPlain("0", '.');
    SplitLeading("0", "0", '.');
    SplitLeading("1", "0.0", '.');
    assert "0.0" == "0" + ['.'] + "0" && "1.0.0" == "1" + ['.'] + "0.0";
    assert Split("1.0.0", '.') == ["1", "0", "0"];
    Absent("1.0.0", '+', 0);
    Absent("1.0.0", '-', 0);
  }

  lemma {:induction false} Absent(s: string, c: char, from: nat)
    requires c !in s && from <= |s|
    ensures FindFrom(s, [c], from) == None
    decreases |s| - from
  {
    if from < |s| {
      assert s[from..from + 1][0] == s[from] && s[from] in s;
      Absent(s, c, from + 1);
    }
  }

  lemma CheapIdentity()
    ensures IdentityIssues(CHEAP) == []
  {
    hide IsSkillId;
    CheapId();
  }

  lemma CheapRelease()
    ensures ReleaseIssues(CHEAP) == []
  {
    hide IsSemver;
    CheapVersion();
  }

  lemma CheapId()
    ensures IsSkillId("tea")
  {
    SplitPlain("tea", '-');
  }

  lemma CheapTerms()
    ensures TermsIssues(CHEAP) == []
  {
  }

  lemma CheapOmits()
    ensures Get(CHEAP, "capabilities") == None && Get(CHEAP, "tools") == None && Get(CHEAP, "shared_state") == None
    ensures Get(CHEAP, "resources") == None && Get(CHEAP, "localization") == None && Get(CHEAP, "compatibility") == None
    ensures Get(CHEAP, "ui") == None
  {
  }

  lemma CheapRest()
    ensures CapabilityIssues(CHEAP) == [] && EnvironmentIssues(CHEAP) == [] && ReferenceIssues(NamesOf(CHEAP)) == []
  {
    hide Get;
    CheapOmits();
  }

  lemma CheapIsSubCent()
    ensures SubCent(Obj(CHEAP))
  {
  }

  /** Such a manifest is accepted, and its canonical form is not what validation gives back. */
  lemma CheapIsLost()
    ensures Validate(Obj(CHEAP)).Ok?
    ensures var c := Validate(Obj(CHEAP)).canonical; Validate(ToJson(c)) != Ok(c)
  {
    hide IdentityIssues, ReleaseIssues, TermsIssues, CapabilityIssues, EnvironmentIssues, ReferenceIssues,
      NamesOf, Normalize, ToJson, SubCent;
    CheapIdentity();
    CheapRelease();
    CheapTerms();
    CheapRest();
    CheapIsSubCent();
    NormalizeFixedPoint(Obj(CHEAP));
  }
}
