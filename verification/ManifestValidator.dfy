/** `validate_manifest` and its helpers (`manifest.rs`): each method appends the issues of one part of
    the manifest to a shared list, exactly those `ManifestSchema` names and in that order. */
module ManifestValidator {
  import opened Text
  import opened Json
  import opened Order
  import opened ManifestSchema

  class Report {
    var issues: Issues

    constructor ()
      ensures issues == []
    {
      issues := [];
    }

    method Push(code: Code, at: Pointer)
      modifies this
      ensures issues == old(issues) + Fault(code, at)
    {
      issues := issues + [Issue(code, at)];
    }

    // ---------------------------------------------------------------- field checks

    method CheckStr(v: Value, form: Form, bad: Code, at: Pointer)
      modifies this
      ensures issues == old(issues) + StrIssues(v, form, bad, at)
    {
      match v {
        case Str(s) => if !form(s) { Push(bad, at); }
        case _ => Push(InvalidType, at);
      }
    }

    method CheckOptional(v: Option<Value>, form: Form, bad: Code, at: Pointer)
      modifies this
      ensures issues == old(issues) + OptionalStr(v, form, bad, at)
    {
      if v.Some? { CheckStr(v.value, form, bad, at); }
    }

    method CheckRequired(v: Option<Value>, form: Form, bad: Code, at: Pointer)
      modifies this
      ensures issues == old(issues) + RequiredStr(v, form, bad, at)
    {
      match v {
        case None => Push(MissingField, at);
        case Some(s) => CheckStr(s, form, bad, at);
      }
    }

    method CheckEntry(v: Option<Value>, form: Form, bad: Code, at: Pointer)
      modifies this
      ensures issues == old(issues) + EntryStr(v, form, bad, at)
    {
      match v {
        case Some(Str(s)) => if !form(s) { Push(bad, at); }
        case _ => Push(MissingField, at);
      }
    }

    method CheckInt(v: Option<Value>, lo: int, hi: int, at: Pointer)
      modifies this
      ensures issues == old(issues) + OptionalInt(v, lo, hi, at)
    {
      if v.Some? {
        match v.value.AsI64() {
          case None => Push(InvalidType, at);
          case Some(n) => if n < lo || n > hi { Push(OutOfRange, at); }
        }
      }
    }

    method CheckObject(v: Option<Value>, at: Pointer)
      modifies this
      ensures issues == old(issues) + OptionalObject(v, at)
    {
      if v.Some? && !v.value.Obj? { Push(InvalidType, at); }
    }

    method CheckStrings(v: Option<Value>, form: Form, bad: Code, at: Pointer)
      modifies this
      ensures issues == old(issues) + ListIssues(v, StrItem(form, bad), at)
    {
      if v.None? { return; }
      if !v.value.Arr? {
        Push(InvalidType, at);
        return;
      }
      var arr := v.value.items;
      for i := 0 to |arr|
        invariant issues + ItemIssues(arr, i, StrItem(form, bad), at)
                  == old(issues) + ItemIssues(arr, 0, StrItem(form, bad), at)
      {
        ghost var rest := ItemIssues(arr, i + 1, StrItem(form, bad), at);
        ghost var before := issues;
        CheckStr(arr[i], form, bad, at + [At(i)]);
        Regroup(before, StrIssues(arr[i], form, bad, at + [At(i)]), rest);
      }
    }

    // -------------------------------------------------------------------- sections

    method ValidateRequirements(o: Dict)
      modifies this
      ensures issues == old(issues) + Section(Get(o, "requirements"), true, RequirementIssues, [Key("requirements")])
    {
      var at := [Key("requirements")];
      match Get(o, "requirements") {
        case None => Push(MissingField, at);
        case Some(Obj(r)) =>
          CheckRequired(Get(r, "min_model_tier"), In(MODEL_TIERS), InvalidEnum, at + [Key("min_model_tier")]);
          CheckInt(Get(r, "min_params_b"), 1, 100, at + [Key("min_params_b")]);
          CheckInt(Get(r, "min_ram_gb"), 1, 1024, at + [Key("min_ram_gb")]);
        case Some(_) => Push(InvalidType, at);
      }
    }

    method ValidatePricing(o: Dict)
      modifies this
      ensures issues == old(issues) + Section(Get(o, "pricing"), true, PricingIssues, [Key("pricing")])
    {
      var at := [Key("pricing")];
      match Get(o, "pricing") {
        case None => Push(MissingField, at);
        case Some(Obj(p)) =>
          match Get(p, "free") {
            case None => Push(MissingField, at + [Key("free")]);
            case Some(Bool(free)) =>
              var hasUsd := "price_usd" in p;
              var hasPrice := "price" in p;
              if free && (hasUsd || hasPrice) { Push(InvalidPricing, at); }
              if !free && !(hasUsd != hasPrice) { Push(InvalidPricing, at); }
              assert issues == old(issues) + PriceChoiceIssues(free, hasUsd, hasPrice, at);
              ValidateUsd(Get(p, "price_usd"), at + [Key("price_usd")]);
              ValidatePrice(Get(p, "price"), at + [Key("price")]);
            case Some(_) => Push(InvalidType, at + [Key("free")]);
          }
        case Some(_) => Push(InvalidType, at);
      }
    }

    method ValidateUsd(v: Option<Value>, at: Pointer)
      modifies this
      ensures issues == old(issues) + UsdIssues(v, at)
    {
      if v.Some? {
        match v.value.AsF64() {
          case None => Push(InvalidType, at);
          case Some(n) => if n <= 0.0 || n > 1000.0 { Push(OutOfRange, at); }
        }
      }
    }

    method ValidatePrice(v: Option<Value>, at: Pointer)
      modifies this
      ensures issues == old(issues) + PriceIssues(v, at)
    {
      if v.Some? {
        match v.value {
          case Obj(pr) =>
            var amount := Get(pr, "amount_minor");
            if amount.None? {
              Push(MissingField, at + [Key("amount_minor")]);
            } else {
              match amount.value.AsI64() {
                case Some(n) => if n <= 0 { Push(OutOfRange, at + [Key("amount_minor")]); }
                case None => Push(InvalidType, at + [Key("amount_minor")]);
              }
            }
            assert issues == old(issues) + AmountIssues(amount, at + [Key("amount_minor")]);
            CheckRequired(Get(pr, "currency"), IsCurrency, InvalidFormat, at + [Key("currency")]);
          case _ => Push(InvalidType, at);
        }
      }
    }

    method ValidatePersona(o: Dict)
      modifies this
      ensures issues == old(issues) + Section(Get(o, "persona"), true, PersonaIssues, [Key("persona")])
    {
      var at := [Key("persona")];
      match Get(o, "persona") {
        case None => Push(MissingField, at);
        case Some(Obj(p)) =>
          CheckRequired(Get(p, "system_prompt"), Len(1, 16000), InvalidLength, at + [Key("system_prompt")]);
          CheckRequired(Get(p, "compressed_prompt"), Len(1, 400), InvalidLength, at + [Key("compressed_prompt")]);
          CheckOptional(Get(p, "role"), In(ROLES), InvalidEnum, at + [Key("role")]);
          ValidateFewShot(Get(p, "few_shot"), at + [Key("few_shot")]);
        case Some(_) => Push(InvalidType, at);
      }
    }

    method ValidateFewShot(v: Option<Value>, at: Pointer)
      modifies this
      ensures issues == old(issues) + ListIssues(v, ObjectItem(FewShotIssues), at)
    {
      if v.None? { return; }
      if !v.value.Arr? {
        Push(InvalidType, at);
        return;
      }
      var arr := v.value.items;
      for i := 0 to |arr|
        invariant issues + ItemIssues(arr, i, ObjectItem(FewShotIssues), at)
                  == old(issues) + ItemIssues(arr, 0, ObjectItem(FewShotIssues), at)
      {
        hide FewShotIssues;
        ghost var before := issues;
        match arr[i] {
          case Obj(e) => ValidateExample(e, at + [At(i)]);
          case _ => Push(InvalidType, at + [At(i)]);
        }
        assert issues == before + ObjectItem(FewShotIssues)(arr[i], at + [At(i)]);
        Regroup(before, ObjectItem(FewShotIssues)(arr[i], at + [At(i)]),
            ItemIssues(arr, i + 1, ObjectItem(FewShotIssues), at));
      }
    }

    method ValidateExample(e: Dict, at: Pointer)
      modifies this
      ensures issues == old(issues) + FewShotIssues(e, at)
    {
      CheckEntry(Get(e, "role"), In(SPEAKERS), InvalidEnum, at + [Key("role")]);
      CheckEntry(Get(e, "content"), NonEmpty(), MissingField, at + [Key("content")]);
    }

    method ValidateTools(o: Dict)
      modifies this
      ensures issues == old(issues) + ListIssues(Get(o, "tools"), ObjectItem(ToolIssues), [Key("tools")])
    {
      var v, at := Get(o, "tools"), [Key("tools")];
      if v.None? { return; }
      if !v.value.Arr? {
        Push(InvalidType, at);
        return;
      }
      var arr := v.value.items;
      for i := 0 to |arr|
        invariant issues + ItemIssues(arr, i, ObjectItem(ToolIssues), at)
                  == old(issues) + ItemIssues(arr, 0, ObjectItem(ToolIssues), at)
      {
        hide ToolIssues;
        ghost var before := issues;
        match arr[i] {
          case Obj(t) => ValidateTool(t, at + [At(i)]);
          case _ => Push(InvalidType, at + [At(i)]);
        }
        assert issues == before + ObjectItem(ToolIssues)(arr[i], at + [At(i)]);
        Regroup(before, ObjectItem(ToolIssues)(arr[i], at + [At(i)]),
            ItemIssues(arr, i + 1, ObjectItem(ToolIssues), at));
      }
    }

    method ValidateTool(t: Dict, at: Pointer)
      modifies this
      ensures issues == old(issues) + ToolIssues(t, at)
    {
      CheckEntry(Get(t, "ref"), In(TOOL_REFS), UnknownToolRef, at + [Key("ref")]);
      CheckObject(Get(t, "config"), at + [Key("config")]);
      CheckStrings(Get(t, "reads_state"), IsIdentName, InvalidFormat, at + [Key("reads_state")]);
      CheckStrings(Get(t, "writes_state"), IsIdentName, InvalidFormat, at + [Key("writes_state")]);
      CheckOptional(Get(t, "updates_widget"), IsIdentName, InvalidFormat, at + [Key("updates_widget")]);
    }

    method ValidateSharedState(o: Dict)
      modifies this
      ensures issues == old(issues) + ListIssues(Get(o, "shared_state"), ObjectItem(SlotIssues), [Key("shared_state")])
    {
      var v, at := Get(o, "shared_state"), [Key("shared_state")];
      if v.None? { return; }
      if !v.value.Arr? {
        Push(InvalidType, at);
        return;
      }
      var arr := v.value.items;
      for i := 0 to |arr|
        invariant issues + ItemIssues(arr, i, ObjectItem(SlotIssues), at)
                  == old(issues) + ItemIssues(arr, 0, ObjectItem(SlotIssues), at)
      {
        hide SlotIssues;
        ghost var before := issues;
        match arr[i] {
          case Obj(s) => ValidateSlot(s, at + [At(i)]);
          case _ => Push(InvalidType, at + [At(i)]);
        }
        assert issues == before + ObjectItem(SlotIssues)(arr[i], at + [At(i)]);
        Regroup(before, ObjectItem(SlotIssues)(arr[i], at + [At(i)]),
            ItemIssues(arr, i + 1, ObjectItem(SlotIssues), at));
      }
    }

    method ValidateSlot(s: Dict, at: Pointer)
      modifies this
      ensures issues == old(issues) + SlotIssues(s, at)
    {
      CheckEntry(Get(s, "slot"), IsIdentName, InvalidFormat, at + [Key("slot")]);
      CheckEntry(Get(s, "access"), In(ACCESS_MODES), InvalidEnum, at + [Key("access")]);
      CheckEntry(Get(s, "schema"), IsSlotSchema, InvalidSlotSchema, at + [Key("schema")]);
    }

    method ValidateResources(o: Dict)
      modifies this
      ensures issues == old(issues) + Section(Get(o, "resources"), false, ResourceIssues, [Key("resources")])
    {
      hide OptionalStr, ListIssues;
      var at := [Key("resources")];
      match Get(o, "resources") {
        case None =>
        case Some(Obj(r)) =>
          CheckOptional(Get(r, "icon"), IsSvgAssetPath, InvalidAssetPath, at + [Key("icon")]);
          CheckStrings(Get(r, "assets"), IsSvgAssetPath, InvalidAssetPath, at + [Key("assets")]);
          CheckStrings(Get(r, "strings"), IsLocale, InvalidFormat, at + [Key("strings")]);
        case Some(_) => Push(InvalidType, at);
      }
    }

    method ValidateLocalization(o: Dict)
      modifies this
      ensures issues == old(issues) + Section(Get(o, "localization"), false, LocalizationIssues, [Key("localization")])
    {
      var at := [Key("localization")];
      match Get(o, "localization") {
        case None =>
        case Some(Obj(l)) =>
          CheckOptional(Get(l, "default_locale"), IsLocale, InvalidFormat, at + [Key("default_locale")]);
          CheckOptional(Get(l, "unit_system_default"), In(UNIT_SYSTEMS), InvalidEnum,
              at + [Key("unit_system_default")]);
        case Some(_) => Push(InvalidType, at);
      }
    }

    method ValidateCompatibility(o: Dict)
      modifies this
      ensures issues == old(issues) + Section(Get(o, "compatibility"), false, CompatibilityIssues,
              [Key("compatibility")])
    {
      var at := [Key("compatibility")];
      match Get(o, "compatibility") {
        case None =>
        case Some(Obj(c)) =>
          CheckStrings(Get(c, "conflicts_with"), IsSkillId, InvalidFormat, at + [Key("conflicts_with")]);
          CheckInt(Get(c, "combine_priority"), 0, 100, at + [Key("combine_priority")]);
        case Some(_) => Push(InvalidType, at);
      }
    }

    // ---------------------------------------------------------------------- panels

    method ValidateUi(o: Dict)
      modifies this
      ensures issues == old(issues) + UiSectionIssues(Get(o, "ui"), [Key("ui")])
    {
      match Get(o, "ui") {
        case None =>
        case Some(Obj(ui)) => ValidatePanels(ui, [Key("ui")]);
        case Some(_) => Push(InvalidType, [Key("ui")]);
      }
    }

    method ValidatePanels(ui: Dict, at: Pointer)
      modifies this
      ensures issues == old(issues) + UiIssues(ui, at)
    {
      var here := at + [Key("panels")];
      if "panels" !in ui {
        Push(MissingField, here);
        return;
      }
      if !ui["panels"].Arr? {
        Push(InvalidType, here);
        return;
      }
      var arr := ui["panels"].items;
      for i := 0 to |arr|
        invariant issues + ItemIssues(arr, i, ObjectItem(PanelIssues), here)
                  == old(issues) + ItemIssues(arr, 0, ObjectItem(PanelIssues), here)
      {
        ghost var before := issues;
        ValidatePanel(arr[i], here + [At(i)]);
        assert issues == before + ObjectItem(PanelIssues)(arr[i], here + [At(i)]);
        Regroup(before, ObjectItem(PanelIssues)(arr[i], here + [At(i)]),
            ItemIssues(arr, i + 1, ObjectItem(PanelIssues), here));
      }
    }

    method ValidatePanel(v: Value, at: Pointer)
      modifies this
      ensures issues == old(issues) + if v.Obj? then PanelIssues(v.members, at) else Fault(InvalidType, at)
    {
      hide PanelFieldIssues, ListIssues, UnknownKeyIssues;
      match v {
        case Obj(p) =>
          ValidatePanelFields(p, at);
          ValidateEmits(Get(p, "emits"), at + [Key("emits")]);
          ValidateKeys(p, at);
        case _ => Push(InvalidType, at);
      }
    }

    method ValidatePanelFields(p: Dict, at: Pointer)
      modifies this
      ensures issues == old(issues) + PanelFieldIssues(p, at)
    {
      hide PlacementIssues, BindingIssues;
      ValidatePlacement(p, at);
      ValidateBindings(p, at);
    }

    method ValidatePlacement(p: Dict, at: Pointer)
      modifies this
      ensures issues == old(issues) + PlacementIssues(p, at)
    {
      hide EntryStr, OptionalStr, OptionalInt;
      CheckEntry(Get(p, "type"), In(WIDGET_TYPES), UnknownWidgetType, at + [Key("type")]);
      CheckEntry(Get(p, "id"), IsIdentName, InvalidFormat, at + [Key("id")]);
      CheckOptional(Get(p, "title"), Len(0, 80), InvalidLength, at + [Key("title")]);
      CheckOptional(Get(p, "region"), In(REGIONS), InvalidEnum, at + [Key("region")]);
      CheckInt(Get(p, "priority"), 0, 100, at + [Key("priority")]);
    }

    method ValidateBindings(p: Dict, at: Pointer)
      modifies this
      ensures issues == old(issues) + BindingIssues(p, at)
    {
      hide OptionalStr, OptionalObject;
      CheckObject(Get(p, "props"), at + [Key("props")]);
      CheckOptional(Get(p, "binds_state"), IsIdentName, InvalidFormat, at + [Key("binds_state")]);
      CheckOptional(Get(p, "binds_tool"), In(TOOL_REFS), UnknownToolRef, at + [Key("binds_tool")]);
      CheckOptional(Get(p, "min_widget_version"), IsWidgetVersion, InvalidFormat, at + [Key("min_widget_version")]);
    }

    method ValidateEmits(v: Option<Value>, at: Pointer)
      modifies this
      ensures issues == old(issues) + ListIssues(v, EmitIssues, at)
    {
      if v.None? { return; }
      if !v.value.Arr? {
        Push(InvalidType, at);
        return;
      }
      var arr := v.value.items;
      for i := 0 to |arr|
        invariant issues + ItemIssues(arr, i, EmitIssues, at) == old(issues) + ItemIssues(arr, 0, EmitIssues, at)
      {
        var base := at + [At(i)];
        ghost var before := issues;
        match arr[i] {
          case Str(_) => CheckStr(arr[i], Len(1, 48), InvalidLength, base);
          case Obj(e) =>
            CheckEntry(Get(e, "name"), Len(1, 48), InvalidLength, base + [Key("name")]);
            if "to_chat" in e && !e["to_chat"].Bool? { Push(InvalidType, base + [Key("to_chat")]); }
          case _ => Push(InvalidType, base);
        }
        assert issues == before + EmitIssues(arr[i], base);
        Regroup(before, EmitIssues(arr[i], base), ItemIssues(arr, i + 1, EmitIssues, at));
      }
    }

    method ValidateKeys(p: Dict, at: Pointer)
      modifies this
      ensures issues == old(issues) + UnknownKeyIssues(p, at)
    {
      hide KeyIssues;
      match Get(p, "type") {
        case Some(Str(widget)) =>
          if widget in WIDGET_TYPES { CheckKeys(p.Keys, InlinePropKeys(widget), at); }
        case _ =>
      }
    }

    /** The unknown-property guard, over the panel's keys in map order. */
    method CheckKeys(all: set<string>, inline: seq<string>, at: Pointer)
      modifies this
      ensures issues == old(issues) + KeyIssues(Ascending(all), inline, at)
    {
      var keys := all;
      while keys != {}
        invariant issues + KeyIssues(Ascending(keys), inline, at) == old(issues) + KeyIssues(Ascending(all), inline, at)
        decreases |keys|
      {
        LeastExists(keys);
        var k :| k in keys && forall j :: j in keys ==> Le(k, j);
        LeastUnique(k, keys);
        AscendingStep(keys, inline, at);
        CheckKey(k, inline, at, KeyIssues(Ascending(keys - {k}), inline, at));
        keys := keys - {k};
      }
    }

    method CheckKey(k: string, inline: seq<string>, at: Pointer, ghost rest: Issues)
      modifies this
      ensures issues + rest == old(issues) + (OneKeyIssues(k, inline, at) + rest)
    {
      if k !in CANONICAL_PANEL_KEYS && k !in inline { Push(UnknownProperty, at + [Key(k)]); }
    }

    // ------------------------------------------------------- referential integrity

    method CheckStateRefs(refs: seq<Option<string>>, slots: seq<Option<string>>, at: Pointer)
      modifies this
      ensures issues == old(issues) + StateIssues(refs, 0, slots, at)
    {
      for i := 0 to |refs|
        invariant issues + StateIssues(refs, i, slots, at) == old(issues) + StateIssues(refs, 0, slots, at)
      {
        ghost var rest := StateIssues(refs, i + 1, slots, at);
        if refs[i].Some? && refs[i] !in slots { Push(UnknownStateRef, at + [At(i)]); }
      }
    }

    method ValidateReferentialIntegrity(n: Names)
      modifies this
      ensures issues == old(issues) + ReferenceIssues(n)
    {
      hide UseIssues, PanelRefIssues, LocaleIssues;
      CheckToolRefs(n);
      CheckPanelRefs(n);
      CheckLocale(n);
    }

    method CheckToolRefs(n: Names)
      modifies this
      ensures issues == old(issues) + UseIssues(n.uses, 0, n.slots)
    {
      hide StateIssues;
      for i := 0 to |n.uses|
        invariant issues + UseIssues(n.uses, i, n.slots) == old(issues) + UseIssues(n.uses, 0, n.slots)
      {
        ghost var before := issues;
        CheckStateRefs(n.uses[i].read, n.slots, [Key("tools"), At(i), Key("reads_state")]);
        CheckStateRefs(n.uses[i].written, n.slots, [Key("tools"), At(i), Key("writes_state")]);
        Regroup3(before, StateIssues(n.uses[i].read, 0, n.slots, [Key("tools"), At(i), Key("reads_state")]),
          StateIssues(n.uses[i].written, 0, n.slots, [Key("tools"), At(i), Key("writes_state")]),
          UseIssues(n.uses, i + 1, n.slots));
      }
    }

    method CheckLocale(n: Names)
      modifies this
      ensures issues == old(issues) + LocaleIssues(n)
    {
      var declared := false;
      for i := 0 to |n.locales|
        invariant declared <==> exists l :: l in n.locales[..i] && l.Some?
        invariant issues == old(issues)
      {
        assert n.locales[..i + 1] == n.locales[..i] + [n.locales[i]];
        declared := declared || n.locales[i].Some?;
      }
      assert n.locales[..|n.locales|] == n.locales;
      if n.locale.Some? && declared && n.locale !in n.locales {
        Push(UndeclaredDefaultLocale, [Key("localization"), Key("default_locale")]);
      }
    }

    method CheckPanelRefs(n: Names)
      modifies this
      ensures issues == old(issues) + PanelRefIssues(n, 0, {})
    {
      var seen: set<string> := {};
      for i := 0 to |n.panels|
        invariant issues + PanelRefIssues(n, i, seen) == old(issues) + PanelRefIssues(n, 0, {})
      {
        var p := n.panels[i];
        var at := [Key("ui"), Key("panels"), At(i)];
        ghost var before := issues;
        ghost var rest := PanelRefIssues(n, i + 1, if p.id.Some? then seen + {p.id.value} else seen);
        if p.id.Some? && p.id.value in seen { Push(DuplicatePanelId, at + [Key("id")]); }
        if p.tool.Some? && p.tool !in n.tools { Push(UnknownToolRef, at + [Key("binds_tool")]); }
        if p.state.Some? && p.state !in n.slots { Push(UnknownStateRef, at + [Key("binds_state")]); }
        assert issues == before + OnePanelRefIssues(n, p, seen, at);
        Regroup(before, OnePanelRefIssues(n, p, seen, at), rest);
        if p.id.Some? { seen := seen + {p.id.value}; }
      }
    }

    // ----------------------------------------------------------------- the manifest

    method ValidateHeader(o: Dict)
      modifies this
      ensures issues == old(issues) + HeaderIssues(o)
    {
      hide IdentityIssues, ReleaseIssues;
      ValidateIdentity(o);
      ValidateRelease(o);
    }

    method ValidateIdentity(o: Dict)
      modifies this
      ensures issues == old(issues) + IdentityIssues(o)
    {
      hide OptionalStr, RequiredStr;
      CheckOptional(Get(o, "manifest_version"), In(MANIFEST_VERSIONS), InvalidEnum, [Key("manifest_version")]);
      CheckRequired(Get(o, "id"), IsSkillId, InvalidFormat, [Key("id")]);
      CheckRequired(Get(o, "name"), Len(1, 60), InvalidLength, [Key("name")]);
      CheckOptional(Get(o, "summary"), Len(0, 140), InvalidLength, [Key("summary")]);
    }

    method ValidateRelease(o: Dict)
      modifies this
      ensures issues == old(issues) + ReleaseIssues(o)
    {
      hide OptionalStr, RequiredStr;
      CheckRequired(Get(o, "version"), IsSemver, InvalidSemver, [Key("version")]);
      CheckOptional(Get(o, "status"), In(STATUSES), InvalidEnum, [Key("status")]);
      CheckRequired(Get(o, "category"), In(CATEGORIES), InvalidEnum, [Key("category")]);
      CheckRequired(Get(o, "min_app_version"), IsSemver, InvalidSemver, [Key("min_app_version")]);
    }

    method ValidateBody(o: Dict)
      modifies this
      ensures issues == old(issues) + BodyIssues(o)
    {
      hide TermsIssues, CapabilityIssues, EnvironmentIssues;
      ValidateTerms(o);
      ValidateCapabilities(o);
      ValidateEnvironment(o);
    }

    method ValidateTerms(o: Dict)
      modifies this
      ensures issues == old(issues) + TermsIssues(o)
    {
      hide Section;
      ValidateRequirements(o);
      ValidatePricing(o);
      ValidatePersona(o);
    }

    method ValidateCapabilities(o: Dict)
      modifies this
      ensures issues == old(issues) + CapabilityIssues(o)
    {
      hide ListIssues;
      CheckStrings(Get(o, "capabilities"), In(CAPABILITIES), UnknownCapability, [Key("capabilities")]);
      ValidateTools(o);
      ValidateSharedState(o);
    }

    method ValidateEnvironment(o: Dict)
      modifies this
      ensures issues == old(issues) + EnvironmentIssues(o)
    {
      hide Section, UiSectionIssues;
      ValidateResources(o);
      ValidateLocalization(o);
      ValidateCompatibility(o);
      ValidateUi(o);
    }
  }

  lemma AscendingStep(keys: set<string>, inline: seq<string>, at: Pointer)
    requires keys != {}
    ensures var k := Least(keys);
            KeyIssues(Ascending(keys), inline, at)
                == OneKeyIssues(k, inline, at) + KeyIssues(Ascending(keys - {k}), inline, at)
  {
    assert Ascending(keys)[1..] == Ascending(keys - {Least(keys)});
  }

  lemma Regroup3(a: Issues, b: Issues, c: Issues, d: Issues)
    ensures a + (b + c + d) == a + b + c + d
  {
  }

  lemma Regroup(a: Issues, b: Issues, c: Issues)
    ensures a + (b + c) == a + b + c
  {
  }

  /** Every issue of the manifest, not just the first. */
  method Validate(raw: Value) returns (issues: Issues)
    ensures issues == ManifestIssues(raw)
  {
    hide HeaderIssues, BodyIssues, ReferenceIssues;
    var report := new Report();
    match raw {
      case Obj(o) =>
        report.ValidateHeader(o);
        report.ValidateBody(o);
        report.ValidateReferentialIntegrity(NamesOf(o));
      case _ => report.Push(InvalidType, []);
    }
    return report.issues;
  }
}
