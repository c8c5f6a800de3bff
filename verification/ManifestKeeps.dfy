/** What normalizing keeps (`manifest.rs`): every canonical field that a valid manifest writes stands with
    the same value in the canonical form, and every one it leaves out has the default of these tables. */
module ManifestKeeps {
  import opened Text
  import opened Json
  import opened ManifestSchema
  import opened ManifestNormal
  import F = ManifestFixedPoint

  // ------------------------------------------------------------------ the defaults

  /** The canonical fields of a section, each with what it has when it is left out, if anything. */
  type Defaults = map<string, Option<Value>>

  const IDENTITY: Defaults := map[
    "manifest_version" := Some(Str("1.0")), "id" := None, "name" := None, "summary" := None]
  const RELEASE: Defaults := map[
    "version" := None, "status" := Some(Str("published")), "category" := None, "min_app_version" := None]
  const REQUIREMENTS: Defaults := map["min_model_tier" := None, "min_params_b" := None, "min_ram_gb" := None]
  const VOICE: Defaults := map[
    "role" := Some(Str("primary_eligible")), "system_prompt" := None, "compressed_prompt" := None]
  const EXAMPLE: Defaults := map["role" := None, "content" := None]
  const TOOL: Defaults := map[
    "ref" := None, "config" := Some(Obj(map[])), "reads_state" := Some(Arr([])), "writes_state" := Some(Arr([])),
    "updates_widget" := None]
  const SLOT: Defaults := map["slot" := None, "access" := None, "schema" := None]
  const RESOURCES: Defaults := map["icon" := None, "assets" := Some(Arr([])), "strings" := Some(Arr([]))]
  const LOCALIZATION: Defaults := map["default_locale" := None, "unit_system_default" := Some(Str("auto"))]
  const COMPATIBILITY: Defaults := map["conflicts_with" := Some(Arr([])), "combine_priority" := Some(Num(Int(50)))]
  const CAPABILITY: Defaults := map["capabilities" := Some(Arr([]))]
  const PLACEMENT: Defaults := map[
    "type" := None, "id" := None, "title" := None, "priority" := Some(Num(Int(50))), "binds_state" := None,
    "binds_tool" := None, "min_widget_version" := Some(Str("1.0"))]

  /** What a kind of widget brings with it: where it goes, what it emits, whether that goes to the chat, and
      the keys that may stand beside its props. */
  datatype Widget = Widget(region: string, events: seq<string>, toChat: bool, shorthand: set<string>)

  const WIDGETS: map<string, Widget> := map[
    "chat" := Widget("inline", [], false, {}),
    "timer_stack" := Widget("side", ["timer_finished"], true, {"multi"}),
    "editable_list" := Widget("side", ["item_checked"], false, {"checkable", "reorderable", "max_items"}),
    "segmented_toggle" := Widget("bottom", ["changed"], false, {"options", "default"}),
    "switch" := Widget("bottom", ["changed"], false, {"options", "default"}),
    "key_value_panel" := Widget("side", [], false, {}),
    "slider" := Widget("bottom", ["changed"], false, {"min", "max", "step", "default"}),
    "stepper" := Widget("bottom", ["changed"], false, {"min", "max", "step", "default"}),
    "table" := Widget("inline", [], false, {"columns"}),
    "quick_actions" := Widget("bottom", ["action"], false, {"actions"}),
    "media_note" := Widget("side", [], false, {"image", "body"}),
    "tabs" := Widget("side", [], false, {"tab_ids"}),
    "progress" := Widget("bottom", ["complete"], false, {"mode"}),
    "date_time_picker" := Widget("bottom", ["changed"], false, {"mode", "min", "max"})]

  // ------------------------------------------------------------------- what is kept

  /** A field that is written stands with its value, and one that is left out has its default. */
  ghost predicate Filled(raw: Dict, out: Dict, defaults: Defaults) {
    forall key :: key in defaults ==> Get(out, key) == if key in raw then Some(raw[key]) else defaults[key]
  }

  /** The same, and there is nothing else. */
  ghost predicate Completed(raw: Dict, out: Dict, defaults: Defaults) {
    Filled(raw, out, defaults) && out.Keys <= defaults.Keys
  }

  /** Entry by entry, in order; no list is the empty list. */
  ghost predicate ListKept(raw: Option<Value>, out: Option<Value>, same: (Dict, Dict) -> bool) {
    && out.Some? && out.value.Arr? && |out.value.items| == |ItemsOf(raw)|
    && forall k :: 0 <= k < |ItemsOf(raw)| ==>
         && ItemsOf(raw)[k].Obj? && out.value.items[k].Obj?
         && same(ItemsOf(raw)[k].members, out.value.items[k].members)
  }

  /** A section that is left out is completed from nothing. */
  ghost predicate SectionKept(raw: Option<Value>, out: Option<Value>, same: (Dict, Dict) -> bool) {
    && out.Some? && out.value.Obj?
    && same(if raw.Some? && raw.value.Obj? then raw.value.members else map[], out.value.members)
  }

  /** A price in dollars becomes the whole number of cents within half a cent, ties upward. */
  ghost predicate InCents(usd: real, cents: int) {
    cents as real - 0.5 <= usd * 100.0 < cents as real + 0.5
  }

  ghost predicate PricingKept(raw: Dict, out: Dict) {
    && out.Keys <= {"free", "price"} && Get(out, "free") == Get(raw, "free")
    && match Get(raw, "price")
       case Some(price) =>
         && "price" in out && out["price"].Obj? && out["price"].members.Keys == {"amount_minor", "currency"}
         && out["price"].Get("amount_minor") == price.Get("amount_minor")
         && out["price"].Get("currency") == price.Get("currency")
       case None =>
         if "price_usd" in raw then
           && raw["price_usd"].AsF64().Some?
           && exists cents ::
                && InCents(raw["price_usd"].AsF64().value, cents)
                && Get(out, "price") == Some(Obj(map["amount_minor" := Num(Int(cents)), "currency" := Str("USD")]))
         else "price" !in out
  }

  ghost predicate PersonaKept(raw: Dict, out: Dict) {
    && Filled(raw, out, VOICE) && out.Keys == VOICE.Keys + {"few_shot"}
    && ListKept(Get(raw, "few_shot"), Get(out, "few_shot"), (e, f) => Completed(e, f, EXAMPLE))
  }

  /** An emitted event, by name alone or with the choice whether it goes to the chat. */
  ghost predicate EmitKept(raw: Value, out: Value, toChat: bool) {
    && out.Obj? && out.members.Keys == {"name", "to_chat"}
    && Get(out.members, "name") == (if raw.Str? then Some(raw) else raw.Get("name"))
    && Get(out.members, "to_chat") == if raw.Get("to_chat").Some? then raw.Get("to_chat") else Some(Bool(toChat))
  }

  ghost predicate EmitsKept(raw: Option<Value>, out: Option<Value>, w: Widget) {
    var from := if raw.Some? then ItemsOf(raw) else seq(|w.events|, i requires 0 <= i < |w.events| => Str(w.events[i]));
    && out.Some? && out.value.Arr? && |out.value.items| == |from|
    && forall k :: 0 <= k < |from| ==> EmitKept(from[k], out.value.items[k], w.toChat)
  }

  /** Every prop that is written, and every key beside the props that this widget takes for one. */
  ghost predicate PropsKept(raw: Dict, out: Option<Value>, w: Widget) {
    && out.Some? && out.value.Obj?
    && forall key :: out.value.Get(key) ==
         if Within(Get(raw, "props"), key).Some? then Within(Get(raw, "props"), key)
         else if key in w.shorthand then Get(raw, key) else None
  }

  ghost predicate PanelKept(raw: Dict, out: Dict) {
    && Filled(raw, out, PLACEMENT) && out.Keys <= PLACEMENT.Keys + {"region", "props", "emits"}
    && "type" in raw && raw["type"].Str? && raw["type"].s in WIDGETS
    && var w := WIDGETS[raw["type"].s];
       && Get(out, "region") == (if "region" in raw then Some(raw["region"]) else Some(Str(w.region)))
       && PropsKept(raw, Get(out, "props"), w)
       && EmitsKept(Get(raw, "emits"), Get(out, "emits"), w)
  }

  ghost predicate UiKept(raw: Dict, out: Dict) {
    out.Keys == {"panels"} && ListKept(Get(raw, "panels"), Get(out, "panels"), (p, q) => PanelKept(p, q))
  }

  /** The cost record is not validated: a figure that is no 64-bit integer is zero, and a record that is no
      object is dropped. */
  ghost predicate CostKept(raw: Option<Value>, out: Option<Value>) {
    if raw.None? || !raw.value.Obj? then out == None
    else
      && out.Some? && out.value.Obj? && out.value.members.Keys == {"prompt_tokens", "tools", "panels"}
      && forall key :: key in out.value.members ==>
           out.value.members[key] ==
             if key in raw.value.members && raw.value.members[key].AsI64().Some? then raw.value.members[key]
             else Num(Int(0))
  }

  /** Signatures are not validated: one that is no string is dropped. */
  ghost predicate StringKept(raw: Option<Value>, out: Option<Value>) {
    out == if raw.Some? && raw.value.Str? then raw else None
  }

  const CANONICAL_KEYS: set<string> :=
    IDENTITY.Keys + RELEASE.Keys + CAPABILITY.Keys
    + {"requirements", "pricing", "persona", "tools", "shared_state", "ui", "resources", "localization",
       "compatibility", "cost_estimate", "signature", "signing_key_id"}

  /** The whole canonical form, section by section. */
  ghost predicate ManifestKept(raw: Dict, out: Dict) {
    && out.Keys <= CANONICAL_KEYS
    && Filled(raw, out, IDENTITY) && Filled(raw, out, RELEASE) && Filled(raw, out, CAPABILITY)
    && SectionKept(Get(raw, "requirements"), Get(out, "requirements"), (r, q) => Completed(r, q, REQUIREMENTS))
    && SectionKept(Get(raw, "pricing"), Get(out, "pricing"), (r, q) => PricingKept(r, q))
    && SectionKept(Get(raw, "persona"), Get(out, "persona"), (r, q) => PersonaKept(r, q))
    && ListKept(Get(raw, "tools"), Get(out, "tools"), (t, u) => Completed(t, u, TOOL))
    && ListKept(Get(raw, "shared_state"), Get(out, "shared_state"), (t, u) => Completed(t, u, SLOT))
    && SectionKept(Get(raw, "ui"), Get(out, "ui"), (r, q) => UiKept(r, q))
    && SectionKept(Get(raw, "resources"), Get(out, "resources"), (r, q) => Completed(r, q, RESOURCES))
    && SectionKept(Get(raw, "localization"), Get(out, "localization"), (r, q) => Completed(r, q, LOCALIZATION))
    && SectionKept(Get(raw, "compatibility"), Get(out, "compatibility"), (r, q) => Completed(r, q, COMPATIBILITY))
    && CostKept(Get(raw, "cost_estimate"), Get(out, "cost_estimate"))
    && StringKept(Get(raw, "signature"), Get(out, "signature"))
    && StringKept(Get(raw, "signing_key_id"), Get(out, "signing_key_id"))
  }

  // ----------------------------------------------------------------------- fields

  lemma StrStands(v: Option<Value>, form: Form, bad: Code, at: Pointer, default: string)
    requires OptionalStr(v, form, bad, at) == []
    ensures Str(StrOr(v, default)) == (if v.Some? then v.value else Str(default)) && StrJson(StrOf(v)) == v
  {
  }

  lemma IntStands(v: Option<Value>, lo: int, hi: int, at: Pointer, default: int)
    requires OptionalInt(v, lo, hi, at) == []
    ensures IntJson(IntOr(v, default)) == (if v.Some? then v.value else Num(Int(default))) && OptIntJson(IntOf(v)) == v
  {
  }

  lemma StringsStand(v: Option<Value>, form: Form, bad: Code, at: Pointer)
    requires ListIssues(v, StrItem(form, bad), at) == []
    ensures StringsJson(StrArray(v)) == if v.Some? then v.value else Arr([])
  {
    var items := ItemsOf(v);
    F.ItemsClean(items, 0, StrItem(form, bad), at);
    assert forall k: nat :: k < |items| ==> StrItem(form, bad)(items[k], at + [At(k)]) == [] ==> items[k].Str?;
    F.AllStrings(items);
    assert StringsJson(StrArray(v)).items == items;
  }

  lemma ListStands<A>(v: Option<Value>, check: (Dict, Pointer) -> Issues, norm: Dict -> A, json: A -> Dict,
      at: Pointer, same: (Dict, Dict) -> bool)
    requires ListIssues(v, ObjectItem(check), at) == []
    requires forall d, p :: check(d, p) == [] ==> same(d, json(norm(d)))
    ensures ListKept(v, Some(ListJson(Each(Objects(ItemsOf(v)), norm), json)), same)
  {
    var items := ItemsOf(v);
    F.ItemsClean(items, 0, ObjectItem(check), at);
    forall k: nat | k < |items| ensures items[k].Obj? && check(items[k].members, at + [At(k)]) == [] {
      assert ObjectItem(check)(items[k], at + [At(k)]) == [];
      F.CleanObject(items[k], check, at + [At(k)]);
    }
    F.AllObjects(items);
  }

  // --------------------------------------------------------------------- sections

  lemma RequirementsKept(r: Dict, at: Pointer)
    requires RequirementIssues(r, at) == []
    ensures Completed(r, RequirementsJson(NormalizeRequirements(Some(Obj(r)))), REQUIREMENTS)
  {
    IntStands(Get(r, "min_params_b"), 1, 100, at + [Key("min_params_b")], 0);
    IntStands(Get(r, "min_ram_gb"), 1, 1024, at + [Key("min_ram_gb")], 0);
  }

  lemma RoundedInCents(usd: real)
    requires usd >= 0.0
    ensures InCents(usd, RoundCents(usd))
  {
  }

  lemma PricingStands(p: Dict, at: Pointer)
    requires PricingIssues(p, at) == []
    ensures PricingKept(p, PricingJson(NormalizePricing(Some(Obj(p)))))
  {
    if "price_usd" in p { RoundedInCents(p["price_usd"].AsF64().value); }
  }

  lemma ExampleStands(e: Dict, at: Pointer)
    ensures FewShotIssues(e, at) == [] ==> Completed(e, FewShotJson(NormalizeFewShot(e)), EXAMPLE)
  {
  }

  lemma PersonaStands(p: Dict, at: Pointer)
    requires PersonaIssues(p, at) == []
    ensures PersonaKept(p, PersonaJson(NormalizePersona(Some(Obj(p)))))
  {
    hide ListIssues, FewShotIssues, NormalizeFewShot, FewShotJson, Completed, ListJson, Objects, Each, Filled,
      RequiredStr, OptionalStr, StrOr;
    forall e, at' ensures FewShotIssues(e, at') == [] ==> Completed(e, FewShotJson(NormalizeFewShot(e)), EXAMPLE) {
      ExampleStands(e, at');
    }
    ListStands(Get(p, "few_shot"), FewShotIssues, NormalizeFewShot, FewShotJson, at + [Key("few_shot")],
      (e, f) => Completed(e, f, EXAMPLE));
    VoiceStands(p, at);
  }

  lemma VoiceStands(p: Dict, at: Pointer)
    requires PersonaIssues(p, at) == []
    ensures var out := PersonaJson(NormalizePersona(Some(Obj(p))));
            Filled(p, out, VOICE) && out.Keys == VOICE.Keys + {"few_shot"}
  {
    hide ListIssues, FewShotIssues, NormalizeFewShot, FewShotJson, ListJson, Objects, Each, RequiredStr,
      OptionalStr, StrOr;
    RequiredStands(Get(p, "system_prompt"), Len(1, 16000), InvalidLength, at + [Key("system_prompt")]);
    RequiredStands(Get(p, "compressed_prompt"), Len(1, 400), InvalidLength, at + [Key("compressed_prompt")]);
    StrStands(Get(p, "role"), In(ROLES), InvalidEnum, at + [Key("role")], "primary_eligible");
  }

  lemma ToolStands(t: Dict, at: Pointer)
    requires ToolIssues(t, at) == []
    ensures Completed(t, ToolJson(NormalizeTool(t)), TOOL)
  {
    hide ListIssues, StrArray, StringsJson, IsIdentName, StrJson, StrOr, EntryStr, OptionalStr;
    EntryStands(Get(t, "ref"), In(TOOL_REFS), UnknownToolRef, at + [Key("ref")]);
    StrStands(Get(t, "updates_widget"), IsIdentName, InvalidFormat, at + [Key("updates_widget")], "");
    StringsStand(Get(t, "reads_state"), IsIdentName, InvalidFormat, at + [Key("reads_state")]);
    StringsStand(Get(t, "writes_state"), IsIdentName, InvalidFormat, at + [Key("writes_state")]);
  }

  lemma SlotStands(s: Dict, at: Pointer)
    requires SlotIssues(s, at) == []
    ensures Completed(s, SlotJson(NormalizeSlot(s)), SLOT)
  {
  }

  lemma ResourcesStand(r: Dict, at: Pointer)
    requires ResourceIssues(r, at) == []
    ensures Completed(r, ResourcesJson(NormalizeResources(Some(Obj(r)))), RESOURCES)
  {
    StringsStand(Get(r, "assets"), IsSvgAssetPath, InvalidAssetPath, at + [Key("assets")]);
    StringsStand(Get(r, "strings"), IsLocale, InvalidFormat, at + [Key("strings")]);
  }

  lemma LocalizationStands(l: Dict, at: Pointer)
    requires LocalizationIssues(l, at) == []
    ensures Completed(l, LocalizationJson(NormalizeLocalization(Some(Obj(l)))), LOCALIZATION)
  {
  }

  lemma CompatibilityStands(c: Dict, at: Pointer)
    requires CompatibilityIssues(c, at) == []
    ensures Completed(c, CompatibilityJson(NormalizeCompatibility(Some(Obj(c)))), COMPATIBILITY)
  {
    StringsStand(Get(c, "conflicts_with"), IsSkillId, InvalidFormat, at + [Key("conflicts_with")]);
  }

  lemma CostStands(v: Option<Value>)
    ensures CostKept(v, CostJson(NormalizeCost(v)))
  {
  }

  // ----------------------------------------------------------------------- panels

  predicate Matches(widget: string, w: Widget) {
    && DefaultRegion(widget) == w.region && DefaultEvents(widget) == w.events && DefaultToChat(widget) == w.toChat
    && (forall k :: k in InlinePropKeys(widget) ==> k in w.shorthand)
    && (forall k :: k in w.shorthand ==> k in InlinePropKeys(widget))
  }

  /** The code's switches are the table. */
  lemma WidgetTable(widget: string)
    requires widget in WIDGET_TYPES
    ensures widget in WIDGETS && Matches(widget, WIDGETS[widget])
  {
    SideWidgets();
    BottomWidgets();
    RangeWidgets();
    InlineWidgets();
  }

  lemma SideWidgets()
    ensures forall w :: w in ["timer_stack", "editable_list", "key_value_panel", "media_note", "tabs"] ==>
              w in WIDGETS && Matches(w, WIDGETS[w])
  {
  }

  lemma BottomWidgets()
    ensures forall w :: w in ["segmented_toggle", "switch", "quick_actions", "progress"] ==>
              w in WIDGETS && Matches(w, WIDGETS[w])
  {
  }

  lemma RangeWidgets()
    ensures forall w :: w in ["slider", "stepper", "date_time_picker"] ==> w in WIDGETS && Matches(w, WIDGETS[w])
  {
  }

  lemma InlineWidgets()
    ensures forall w :: w in ["chat", "table"] ==> w in WIDGETS && Matches(w, WIDGETS[w])
  {
  }

  lemma {:induction false} AllEmits(items: seq<Value>, widget: string)
    requires forall k :: 0 <= k < |items| ==> EmitOf(items[k], widget).Some?
    ensures |EmitsOf(items, widget)| == |items|
    ensures forall k :: 0 <= k < |items| ==> EmitsOf(items, widget)[k] == EmitOf(items[k], widget).value
  {
    if items != [] { AllEmits(items[1..], widget); }
  }

  lemma EmitStands(e: Value, widget: string, w: Widget, at: Pointer)
    requires EmitIssues(e, at) == [] && DefaultToChat(widget) == w.toChat
    ensures EmitOf(e, widget).Some? && EmitKept(e, Obj(EmitJson(EmitOf(e, widget).value)), w.toChat)
  {
  }

  lemma EmitsStand(v: Option<Value>, widget: string, w: Widget, at: Pointer)
    requires ListIssues(v, EmitIssues, at) == [] && Matches(widget, w)
    ensures EmitsKept(v, Some(ListJson(NormalizeEmits(v, widget), EmitJson)), w)
  {
    hide EmitIssues, EmitOf, EmitKept, DefaultEvents, DefaultToChat, DefaultRegion, InlinePropKeys;
    if v.Some? {
      var items := v.value.items;
      F.ItemsClean(items, 0, EmitIssues, at);
      forall k: nat | k < |items|
        ensures EmitOf(items[k], widget).Some?
                && EmitKept(items[k], Obj(EmitJson(EmitOf(items[k], widget).value)), w.toChat)
      {
        assert EmitIssues(items[k], at + [At(k)]) == [];
        EmitStands(items[k], widget, w, at + [At(k)]);
      }
      AllEmits(items, widget);
    } else {
      forall k: nat | k < |w.events|
        ensures EmitKept(Str(w.events[k]), Obj(EmitJson(Emit(w.events[k], w.toChat))), w.toChat)
      {
        EventStands(w.events[k], w.toChat);
      }
    }
  }

  lemma EventStands(name: string, toChat: bool)
    ensures EmitKept(Str(name), Obj(EmitJson(Emit(name, toChat))), toChat)
  {
  }

  lemma PropsStand(p: Dict, w: Widget)
    requires Matches(StrOr(Get(p, "type"), ""), w) && OptionalObject(Get(p, "props"), []) == []
    ensures PropsKept(p, Some(Obj(PropsOf(p))), w)
  {
    hide DefaultEvents, DefaultToChat, DefaultRegion, InlinePropKeys;
    var props := if "props" in p then p["props"].members else map[];
    forall key ensures Obj(PropsOf(p)).Get(key)
        == if Within(Get(p, "props"), key).Some? then Within(Get(p, "props"), key)
                                                   else if key in w.shorthand then Get(p, key) else None
    {
      FoldedProps(props, p, InlinePropKeys(StrOr(Get(p, "type"), "")), key);
    }
  }

  lemma PanelOf(p: Dict)
    ensures var c := NormalizePanel(p);
            && c.widget == StrOr(Get(p, "type"), "") && c.id == StrOr(Get(p, "id"), "")
            && c.title == StrOf(Get(p, "title")) && c.priority == IntOr(Get(p, "priority"), 50)
            && c.bindsState == StrOf(Get(p, "binds_state")) && c.bindsTool == StrOf(Get(p, "binds_tool"))
            && c.minWidgetVersion == StrOr(Get(p, "min_widget_version"), "1.0")
  {
    hide PropsOf, NormalizeEmits, DefaultRegion, StrOr, StrOf, IntOr;
  }

  lemma PlacementStands(p: Dict, at: Pointer)
    requires PlacementIssues(p, at) == [] && BindingIssues(p, at) == []
    ensures Filled(p, PanelJson(NormalizePanel(p)), PLACEMENT)
  {
    hide PanelJson, StrJson, OptionalStr, OptionalInt, StrOr, IntOr, EntryStr, NormalizePanel, OptionalObject,
      Filled;
    PanelOf(p);
    F.PanelMembers(NormalizePanel(p));
    EntryStands(Get(p, "type"), In(WIDGET_TYPES), UnknownWidgetType, at + [Key("type")]);
    EntryStands(Get(p, "id"), IsIdentName, InvalidFormat, at + [Key("id")]);
    StrStands(Get(p, "title"), Len(0, 80), InvalidLength, at + [Key("title")], "");
    IntStands(Get(p, "priority"), 0, 100, at + [Key("priority")], 50);
    StrStands(Get(p, "binds_state"), IsIdentName, InvalidFormat, at + [Key("binds_state")], "");
    StrStands(Get(p, "binds_tool"), In(TOOL_REFS), UnknownToolRef, at + [Key("binds_tool")], "");
    StrStands(Get(p, "min_widget_version"), IsWidgetVersion, InvalidFormat, at + [Key("min_widget_version")], "1.0");
    PlacementFilled(p, PanelJson(NormalizePanel(p)));
  }

  lemma PlacementFilled(raw: Dict, out: Dict)
    requires Get(out, "type") == Get(raw, "type") && Get(out, "id") == Get(raw, "id")
    requires Get(out, "title") == Get(raw, "title") && Get(out, "binds_state") == Get(raw, "binds_state")
    requires Get(out, "binds_tool") == Get(raw, "binds_tool")
    requires Get(out, "priority") == if "priority" in raw then Some(raw["priority"]) else Some(Num(Int(50)))
    requires Get(out, "min_widget_version")
             == if "min_widget_version" in raw then Some(raw["min_widget_version"]) else Some(Str("1.0"))
    ensures Filled(raw, out, PLACEMENT)
  {
  }

  lemma PanelStands(p: Dict, at: Pointer)
    requires PanelIssues(p, at) == []
    ensures PanelKept(p, PanelJson(NormalizePanel(p)))
  {
    hide PlacementIssues, BindingIssues, ListIssues, UnknownKeyIssues, NormalizeEmits, PropsOf, PanelJson,
      Filled, DefaultRegion, PropsKept, EmitsKept, Matches;
    var c := NormalizePanel(p);
    PlacementStands(p, at);
    KnownWidget(p, at);
    var w := WIDGETS[c.widget];
    WidgetTable(c.widget);
    F.PanelMembers(c);
    PropsStand(p, w);
    EmitsStand(Get(p, "emits"), c.widget, w, at + [Key("emits")]);
    RegionStands(p, w, at);
    forall k | k in PanelJson(c) ensures k in PLACEMENT.Keys + {"region", "props", "emits"} { PanelKeyKnown(c, k); }
  }

  lemma KnownWidget(p: Dict, at: Pointer)
    requires PlacementIssues(p, at) == [] && BindingIssues(p, at) == []
    ensures "type" in p && p["type"].Str? && p["type"].s in WIDGET_TYPES
    ensures StrOr(Get(p, "type"), "") == p["type"].s && OptionalObject(Get(p, "props"), []) == []
  {
    hide IsIdentName, IsWidgetVersion;
  }

  lemma RegionStands(p: Dict, w: Widget, at: Pointer)
    requires PlacementIssues(p, at) == [] && Matches(StrOr(Get(p, "type"), ""), w)
    ensures Str(StrOr(Get(p, "region"), DefaultRegion(StrOr(Get(p, "type"), ""))))
            == if "region" in p then p["region"] else Str(w.region)
  {
    hide IsIdentName;
  }

  lemma PanelKeyKnown(c: Panel, k: string)
    requires k in PanelJson(c)
    ensures k in PLACEMENT.Keys + {"region", "props", "emits"}
  {
  }

  lemma UiStands(ui: Dict, at: Pointer)
    requires UiIssues(ui, at) == []
    ensures UiKept(ui, UiJson(NormalizePanels(Some(Obj(ui)))))
  {
    hide PanelIssues, PanelJson, NormalizePanel, PanelKept, ListIssues;
    forall p, at' | PanelIssues(p, at') == [] ensures PanelKept(p, PanelJson(NormalizePanel(p))) {
      PanelStands(p, at');
    }
    ListStands(Get(ui, "panels"), PanelIssues, NormalizePanel, PanelJson, at + [Key("panels")],
      (p, q) => PanelKept(p, q));
  }

  // ------------------------------------------------------------------ the manifest

  lemma HeaderOf(o: Dict)
    ensures var c := Normalize(o);
            && c.manifestVersion == StrOr(Get(o, "manifest_version"), "1.0") && c.id == StrOr(Get(o, "id"), "")
            && c.name == StrOr(Get(o, "name"), "") && c.summary == StrOf(Get(o, "summary"))
            && c.version == StrOr(Get(o, "version"), "") && c.status == StrOr(Get(o, "status"), "published")
            && c.category == StrOr(Get(o, "category"), "") && c.minAppVersion == StrOr(Get(o, "min_app_version"), "")
  {
    hide StrOr, StrOf;
  }

  lemma EntryStands(v: Option<Value>, form: Form, bad: Code, at: Pointer)
    requires EntryStr(v, form, bad, at) == []
    ensures v.Some? && Str(StrOr(v, "")) == v.value
  {
  }

  lemma RequiredStands(v: Option<Value>, form: Form, bad: Code, at: Pointer)
    requires RequiredStr(v, form, bad, at) == []
    ensures v.Some? && Str(StrOr(v, "")) == v.value
  {
  }

  lemma IdentityStands(o: Dict, out: Dict)
    requires IdentityIssues(o) == [] && out == CanonicalJson(Normalize(o))
    ensures Filled(o, out, IDENTITY)
  {
    hide CanonicalJson, Normalize, StrOr, OptionalStr, RequiredStr, StrJson;
    HeaderOf(o);
    F.IdentityMembers(Normalize(o));
    StrStands(Get(o, "manifest_version"), In(MANIFEST_VERSIONS), InvalidEnum, [Key("manifest_version")], "1.0");
    RequiredStands(Get(o, "id"), IsSkillId, InvalidFormat, [Key("id")]);
    RequiredStands(Get(o, "name"), Len(1, 60), InvalidLength, [Key("name")]);
    StrStands(Get(o, "summary"), Len(0, 140), InvalidLength, [Key("summary")], "");
  }

  lemma ReleaseStands(o: Dict, out: Dict)
    requires ReleaseIssues(o) == [] && out == CanonicalJson(Normalize(o))
    ensures Filled(o, out, RELEASE)
  {
    hide CanonicalJson, Normalize, StrOr, OptionalStr, RequiredStr, StrJson;
    HeaderOf(o);
    F.ReleaseMembers(Normalize(o));
    RequiredStands(Get(o, "version"), IsSemver, InvalidSemver, [Key("version")]);
    StrStands(Get(o, "status"), In(STATUSES), InvalidEnum, [Key("status")], "published");
    RequiredStands(Get(o, "category"), In(CATEGORIES), InvalidEnum, [Key("category")]);
    RequiredStands(Get(o, "min_app_version"), IsSemver, InvalidSemver, [Key("min_app_version")]);
  }

  lemma SectionsOf(o: Dict)
    ensures var c := Normalize(o);
            && c.requirements == NormalizeRequirements(Get(o, "requirements"))
            && c.pricing == NormalizePricing(Get(o, "pricing")) && c.persona == NormalizePersona(Get(o, "persona"))
            && c.capabilities == StrArray(Get(o, "capabilities")) && c.tools == NormalizeTools(Get(o, "tools"))
            && c.sharedState == NormalizeSlots(Get(o, "shared_state")) && c.panels == NormalizePanels(Get(o, "ui"))
            && c.resources == NormalizeResources(Get(o, "resources"))
            && c.localization == NormalizeLocalization(Get(o, "localization"))
            && c.compatibility == NormalizeCompatibility(Get(o, "compatibility"))
            && c.cost == NormalizeCost(Get(o, "cost_estimate")) && c.signature == StrOf(Get(o, "signature"))
            && c.signingKeyId == StrOf(Get(o, "signing_key_id"))
  {
    hide StrOf, StrOr, StrArray, NormalizeRequirements, NormalizePricing, NormalizePersona, NormalizeTools,
      NormalizeSlots, NormalizePanels, NormalizeResources, NormalizeLocalization, NormalizeCompatibility,
      NormalizeCost;
  }

  lemma TermsStand(o: Dict, out: Dict)
    requires TermsIssues(o) == [] && out == CanonicalJson(Normalize(o))
    ensures SectionKept(Get(o, "requirements"), Get(out, "requirements"), (r, q) => Completed(r, q, REQUIREMENTS))
    ensures SectionKept(Get(o, "pricing"), Get(out, "pricing"), (r, q) => PricingKept(r, q))
    ensures SectionKept(Get(o, "persona"), Get(out, "persona"), (r, q) => PersonaKept(r, q))
  {
    hide RequirementIssues, PricingIssues, PersonaIssues, CanonicalJson, Normalize, NormalizeRequirements,
      NormalizePricing, NormalizePersona, RequirementsJson, PricingJson, PersonaJson, Completed, PricingKept,
      PersonaKept;
    SectionsOf(o);
    F.TermsMembers(Normalize(o));
    RequirementsKept(o["requirements"].members, [Key("requirements")]);
    PricingStands(o["pricing"].members, [Key("pricing")]);
    PersonaStands(o["persona"].members, [Key("persona")]);
  }

  lemma CapabilitiesStand(o: Dict, out: Dict)
    requires CapabilityIssues(o) == [] && out == CanonicalJson(Normalize(o))
    ensures Filled(o, out, CAPABILITY)
    ensures ListKept(Get(o, "tools"), Get(out, "tools"), (t, u) => Completed(t, u, TOOL))
    ensures ListKept(Get(o, "shared_state"), Get(out, "shared_state"), (t, u) => Completed(t, u, SLOT))
  {
    hide CanonicalJson, Normalize, ListIssues, ToolIssues, SlotIssues, NormalizeTool, NormalizeSlot, ToolJson,
      SlotJson, StrArray, StringsJson, Completed;
    SectionsOf(o);
    F.TermsMembers(Normalize(o));
    StringsStand(Get(o, "capabilities"), In(CAPABILITIES), UnknownCapability, [Key("capabilities")]);
    forall t, at | ToolIssues(t, at) == [] ensures Completed(t, ToolJson(NormalizeTool(t)), TOOL) { ToolStands(t, at); }
    forall t, at | SlotIssues(t, at) == [] ensures Completed(t, SlotJson(NormalizeSlot(t)), SLOT) { SlotStands(t, at); }
    ListStands(Get(o, "tools"), ToolIssues, NormalizeTool, ToolJson, [Key("tools")], (t, u) => Completed(t, u, TOOL));
    ListStands(Get(o, "shared_state"), SlotIssues, NormalizeSlot, SlotJson, [Key("shared_state")],
      (t, u) => Completed(t, u, SLOT));
  }

  // What is left out altogether is completed from nothing.

  lemma NoUi()
    ensures UiKept(map[], UiJson(NormalizePanels(None)))
  {
  }

  lemma UiSection(v: Option<Value>)
    requires v.Some? ==> v.value.Obj? && UiIssues(v.value.members, [Key("ui")]) == []
    ensures SectionKept(v, Some(Obj(UiJson(NormalizePanels(v)))), (r, q) => UiKept(r, q))
  {
    hide UiKept, UiJson, NormalizePanels;
    if v.Some? { UiStands(v.value.members, [Key("ui")]); } else { NoUi(); }
  }

  lemma NoResources()
    ensures Completed(map[], ResourcesJson(NormalizeResources(None)), RESOURCES)
  {
  }

  lemma ResourcesSection(v: Option<Value>)
    requires v.Some? ==> v.value.Obj? && ResourceIssues(v.value.members, [Key("resources")]) == []
    ensures SectionKept(v, Some(Obj(ResourcesJson(NormalizeResources(v)))), (r, q) => Completed(r, q, RESOURCES))
  {
    hide Completed, ResourcesJson, NormalizeResources;
    if v.Some? { ResourcesStand(v.value.members, [Key("resources")]); } else { NoResources(); }
  }

  lemma NoLocalization()
    ensures Completed(map[], LocalizationJson(NormalizeLocalization(None)), LOCALIZATION)
  {
  }

  lemma LocalizationSection(v: Option<Value>)
    requires v.Some? ==> v.value.Obj? && LocalizationIssues(v.value.members, [Key("localization")]) == []
    ensures SectionKept(v, Some(Obj(LocalizationJson(NormalizeLocalization(v)))),
            (r, q) => Completed(r, q, LOCALIZATION))
  {
    hide Completed, LocalizationJson, NormalizeLocalization;
    if v.Some? { LocalizationStands(v.value.members, [Key("localization")]); } else { NoLocalization(); }
  }

  lemma NoCompatibility()
    ensures Completed(map[], CompatibilityJson(NormalizeCompatibility(None)), COMPATIBILITY)
  {
    assert StrArray(None) == [] && StringsJson([]) == Arr([]);
    assert NormalizeCompatibility(None) == Compatibility([], 50);
  }

  lemma CompatibilitySection(v: Option<Value>)
    requires v.Some? ==> v.value.Obj? && CompatibilityIssues(v.value.members, [Key("compatibility")]) == []
    ensures SectionKept(v, Some(Obj(CompatibilityJson(NormalizeCompatibility(v)))),
            (r, q) => Completed(r, q, COMPATIBILITY))
  {
    hide Completed, CompatibilityJson, NormalizeCompatibility;
    if v.Some? { CompatibilityStands(v.value.members, [Key("compatibility")]); } else { NoCompatibility(); }
  }

  lemma EnvironmentParts(o: Dict)
    requires EnvironmentIssues(o) == []
    ensures "ui" in o ==> o["ui"].Obj? && UiIssues(o["ui"].members, [Key("ui")]) == []
    ensures "resources" in o ==>
              o["resources"].Obj? && ResourceIssues(o["resources"].members, [Key("resources")]) == []
    ensures "localization" in o ==>
              o["localization"].Obj? && LocalizationIssues(o["localization"].members, [Key("localization")]) == []
    ensures "compatibility" in o ==>
              o["compatibility"].Obj? && CompatibilityIssues(o["compatibility"].members, [Key("compatibility")]) == []
  {
    hide UiIssues, ResourceIssues, LocalizationIssues, CompatibilityIssues;
    SectionClean(Get(o, "resources"), ResourceIssues, [Key("resources")]);
    SectionClean(Get(o, "localization"), LocalizationIssues, [Key("localization")]);
    SectionClean(Get(o, "compatibility"), CompatibilityIssues, [Key("compatibility")]);
    assert |Fault(InvalidType, [Key("ui")])| == 1;
  }

  lemma SectionClean(v: Option<Value>, check: (Dict, Pointer) -> Issues, at: Pointer)
    ensures Section(v, false, check, at) == [] ==> v.Some? ==> v.value.Obj? && check(v.value.members, at) == []
  {
    assert |Fault(InvalidType, at)| == 1;
  }

  lemma EnvironmentStands(o: Dict, out: Dict)
    requires EnvironmentIssues(o) == [] && out == CanonicalJson(Normalize(o))
    ensures SectionKept(Get(o, "ui"), Get(out, "ui"), (r, q) => UiKept(r, q))
    ensures SectionKept(Get(o, "resources"), Get(out, "resources"), (r, q) => Completed(r, q, RESOURCES))
    ensures SectionKept(Get(o, "localization"), Get(out, "localization"), (r, q) => Completed(r, q, LOCALIZATION))
    ensures SectionKept(Get(o, "compatibility"), Get(out, "compatibility"), (r, q) => Completed(r, q, COMPATIBILITY))
  {
    hide EnvironmentIssues, CanonicalJson, Normalize, UiIssues, ResourceIssues, LocalizationIssues,
      CompatibilityIssues, SectionKept, UiJson, ResourcesJson, LocalizationJson, CompatibilityJson,
      NormalizePanels, NormalizeResources, NormalizeLocalization, NormalizeCompatibility;
    EnvironmentParts(o);
    SectionsOf(o);
    F.EnvironmentMembers(Normalize(o));
    UiSection(Get(o, "ui"));
    ResourcesSection(Get(o, "resources"));
    LocalizationSection(Get(o, "localization"));
    CompatibilitySection(Get(o, "compatibility"));
  }

  lemma TailStands(o: Dict, out: Dict)
    requires out == CanonicalJson(Normalize(o))
    ensures CostKept(Get(o, "cost_estimate"), Get(out, "cost_estimate"))
    ensures StringKept(Get(o, "signature"), Get(out, "signature"))
    ensures StringKept(Get(o, "signing_key_id"), Get(out, "signing_key_id"))
  {
    hide CanonicalJson, Normalize, NormalizeCost, CostJson, CostKept;
    SectionsOf(o);
    F.EnvironmentMembers(Normalize(o));
    CostStands(Get(o, "cost_estimate"));
  }

  lemma NoOtherKeys(c: Canonical)
    ensures CanonicalJson(c).Keys <= CANONICAL_KEYS
  {
    hide RequirementsJson, PricingJson, PersonaJson, UiJson, ResourcesJson, LocalizationJson, CompatibilityJson,
      CostJson, ListJson, StringsJson;
  }

  /** Normalizing a valid manifest keeps everything canonical that it writes, and fills in the rest from the
      tables. */
  lemma NormalizeKeeps(o: Dict)
    requires ManifestIssues(Obj(o)) == []
    ensures ManifestKept(o, CanonicalJson(Normalize(o)))
  {
    hide ManifestIssues, CanonicalJson, Normalize, Filled, SectionKept, ListKept, CostKept, StringKept;
    var out := CanonicalJson(Normalize(o));
    SectionsValid(o);
    IdentityStands(o, out);
    ReleaseStands(o, out);
    CapabilitiesStand(o, out);
    TermsStand(o, out);
    EnvironmentStands(o, out);
    TailStands(o, out);
    NoOtherKeys(Normalize(o));
  }

  lemma SectionsValid(o: Dict)
    requires ManifestIssues(Obj(o)) == []
    ensures IdentityIssues(o) == [] && ReleaseIssues(o) == [] && TermsIssues(o) == []
    ensures CapabilityIssues(o) == [] && EnvironmentIssues(o) == []
  {
    hide IdentityIssues, ReleaseIssues, TermsIssues, CapabilityIssues, EnvironmentIssues, ReferenceIssues,
      NamesOf;
  }
}
