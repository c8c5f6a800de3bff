/** The canonical manifest and the normalization that fills it (`manifest.rs`): shorthand is expanded,
    omitted fields get their defaults, and the canonical form is written out as JSON. */
module ManifestNormal {
  import opened Text
  import opened Json
  import opened ManifestSchema

  // --------------------------------------------------------------- canonical form

  datatype Requirements = Requirements(tier: string, params: Option<int>, ram: Option<int>)
  datatype Price = Price(amountMinor: int, currency: string)
  datatype Pricing = Pricing(free: bool, price: Option<Price>)
  datatype FewShot = FewShot(role: string, content: string)
  datatype Persona = Persona(role: string, systemPrompt: string, compressedPrompt: string, fewShot: seq<FewShot>)
  datatype Tool = Tool(
    toolRef: string, config: Value, readsState: seq<string>, writesState: seq<string>, updatesWidget: Option<string>)
  datatype Slot = Slot(slot: string, access: string, schema: string)
  datatype Emit = Emit(name: string, toChat: bool)
  datatype Panel = Panel(
    widget: string, id: string, title: Option<string>, region: string, priority: int, props: Dict,
    bindsState: Option<string>, bindsTool: Option<string>, emits: seq<Emit>, minWidgetVersion: string)
  datatype Resources = Resources(icon: Option<string>, assets: seq<string>, strings: seq<string>)
  datatype Localization = Localization(defaultLocale: Option<string>, units: string)
  datatype Compatibility = Compatibility(conflictsWith: seq<string>, combinePriority: int)
  datatype CostEstimate = CostEstimate(promptTokens: int, tools: int, panels: int)

  datatype Canonical = Canonical(
    manifestVersion: string, id: string, name: string, summary: Option<string>, version: string, status: string,
    category: string, minAppVersion: string, requirements: Requirements, pricing: Pricing, persona: Persona,
    capabilities: seq<string>, tools: seq<Tool>, sharedState: seq<Slot>, panels: seq<Panel>, resources: Resources,
    localization: Localization, compatibility: Compatibility, cost: Option<CostEstimate>,
    signature: Option<string>, signingKeyId: Option<string>)

  // ---------------------------------------------------------- per-widget defaults

  function DefaultRegion(widget: string): string {
    if widget in ["timer_stack", "editable_list", "key_value_panel", "media_note", "tabs"] then "side"
    else if widget in ["segmented_toggle", "switch", "slider", "stepper", "quick_actions", "progress",
                       "date_time_picker"] then "bottom"
    else "inline"
  }

  function DefaultToChat(widget: string): bool { widget == "timer_stack" }

  function DefaultEvents(widget: string): seq<string> {
    if widget == "timer_stack" then ["timer_finished"]
    else if widget == "editable_list" then ["item_checked"]
    else if widget in ["segmented_toggle", "switch", "slider", "stepper", "date_time_picker"] then ["changed"]
    else if widget == "quick_actions" then ["action"]
    else if widget == "progress" then ["complete"]
    else []
  }

  // ---------------------------------------------------------------- normalization

  function StrOr(v: Option<Value>, default: string): string {
    if StrOf(v).Some? then StrOf(v).value else default
  }

  function IntOf(v: Option<Value>): Option<int> {
    if v.None? then None else v.value.AsI64()
  }

  function IntOr(v: Option<Value>, default: int): int {
    if IntOf(v).Some? then IntOf(v).value else default
  }

  /** The string entries of an array; others are skipped. */
  function Strings(items: seq<Value>): seq<string> {
    if items == [] then []
    else if items[0].Str? then [items[0].s] + Strings(items[1..])
    else Strings(items[1..])
  }

  /** The object entries of an array; others are skipped. */
  function Objects(items: seq<Value>): seq<Dict> {
    if items == [] then []
    else if items[0].Obj? then [items[0].members] + Objects(items[1..])
    else Objects(items[1..])
  }

  function Each<A>(dicts: seq<Dict>, f: Dict -> A): seq<A> {
    seq(|dicts|, (i: nat) requires i < |dicts| => f(dicts[i]))
  }

  function StrArray(v: Option<Value>): seq<string> { Strings(ItemsOf(v)) }

  function NormalizeRequirements(v: Option<Value>): Requirements {
    Requirements(StrOr(Within(v, "min_model_tier"), "small"), IntOf(Within(v, "min_params_b")),
        IntOf(Within(v, "min_ram_gb")))
  }

  /** `(usd * 100.0).round() as i64`: halves away from zero. */
  function RoundCents(usd: real): int {
    var x := usd * 100.0;
    if x >= 0.0 then (x + 0.5).Floor else -((0.5 - x).Floor)
  }

  function NormalizePricing(v: Option<Value>): Pricing {
    var free := Within(v, "free");
    if free.None? || free.value.AsBool() != Some(false) then Pricing(true, None)
    else
      var price := Within(v, "price");
      var usd := Within(v, "price_usd");
      if price.Some? && price.value.Obj? then
        Pricing(false, Some(Price(IntOr(price.value.Get("amount_minor"), 0),
            StrOr(price.value.Get("currency"), "USD"))))
      else if usd.Some? && usd.value.AsF64().Some? then
        Pricing(false, Some(Price(RoundCents(usd.value.AsF64().value), "USD")))
      else Pricing(false, None)
  }

  function NormalizeFewShot(e: Dict): FewShot { FewShot(StrOr(Get(e, "role"), ""), StrOr(Get(e, "content"), "")) }

  function NormalizePersona(v: Option<Value>): Persona {
    Persona(
      StrOr(Within(v, "role"), "primary_eligible"), StrOr(Within(v, "system_prompt"), ""),
      StrOr(Within(v, "compressed_prompt"), ""), Each(Objects(ItemsOf(Within(v, "few_shot"))), NormalizeFewShot))
  }

  function NormalizeTool(t: Dict): Tool {
    Tool(
      StrOr(Get(t, "ref"), ""), if "config" in t then t["config"] else Obj(map[]),
      StrArray(Get(t, "reads_state")), StrArray(Get(t, "writes_state")), StrOf(Get(t, "updates_widget")))
  }

  function NormalizeTools(v: Option<Value>): seq<Tool> { Each(Objects(ItemsOf(v)), NormalizeTool) }

  function NormalizeSlot(s: Dict): Slot {
    Slot(StrOr(Get(s, "slot"), ""), StrOr(Get(s, "access"), "read"), StrOr(Get(s, "schema"), ""))
  }

  function NormalizeSlots(v: Option<Value>): seq<Slot> { Each(Objects(ItemsOf(v)), NormalizeSlot) }

  /** Shorthand keys enter `props` unless `props` already has them. */
  function FoldInline(props: Dict, p: Dict, inline: seq<string>): Dict
    decreases inline
  {
    if inline == [] then props
    else
      var k := inline[0];
      FoldInline(if k in p && k !in props then props[k := p[k]] else props, p, inline[1..])
  }

  method NormalizeProps(p: Dict) returns (props: Dict)
    ensures props == PropsOf(p)
  {
    var inline := InlinePropKeys(StrOr(Get(p, "type"), ""));
    props := if "props" in p && p["props"].Obj? then p["props"].members else map[];
    for i := 0 to |inline|
      invariant FoldInline(props, p, inline[i..]) == PropsOf(p)
    {
      var k := inline[i];
      assert inline[i..][1..] == inline[i + 1..];
      if k in p && k !in props { props := props[k := p[k]]; }
    }
  }

  function PropsOf(p: Dict): Dict {
    FoldInline(
      if "props" in p && p["props"].Obj? then p["props"].members else map[],
      p, InlinePropKeys(StrOr(Get(p, "type"), "")))
  }

  /** What folding means: a canonical prop keeps its value, a shorthand key of this widget supplies the
      missing ones, and there is nothing else. */
  lemma {:induction false} FoldedProps(props: Dict, p: Dict, inline: seq<string>, k: string)
    ensures Get(FoldInline(props, p, inline), k) ==
            if k in props then Some(props[k]) else if k in inline then Get(p, k) else None
    decreases inline
  {
    if inline != [] {
      var k0 := inline[0];
      FoldedProps(if k0 in p && k0 !in props then props[k0 := p[k0]] else props, p, inline[1..], k);
    }
  }

  function EmitOf(e: Value, widget: string): Option<Emit> {
    match e
    case Str(s) => Some(Emit(s, DefaultToChat(widget)))
    case Obj(o) =>
      if StrOf(Get(o, "name")).None? then None
      else
        var toChat := if "to_chat" in o && o["to_chat"].Bool? then o["to_chat"].b else DefaultToChat(widget);
        Some(Emit(StrOf(Get(o, "name")).value, toChat))
    case _ => None
  }

  function EmitsOf(items: seq<Value>, widget: string): seq<Emit> {
    if items == [] then []
    else
      var e := EmitOf(items[0], widget);
      (if e.Some? then [e.value] else []) + EmitsOf(items[1..], widget)
  }

  function DefaultEmits(widget: string): seq<Emit> {
    var names := DefaultEvents(widget);
    seq(|names|, (i: nat) requires i < |names| => Emit(names[i], DefaultToChat(widget)))
  }

  function NormalizeEmits(v: Option<Value>, widget: string): seq<Emit> {
    if v.Some? && v.value.Arr? then EmitsOf(v.value.items, widget) else DefaultEmits(widget)
  }

  function NormalizePanel(p: Dict): Panel {
    var widget := StrOr(Get(p, "type"), "");
    Panel(
      widget, StrOr(Get(p, "id"), ""), StrOf(Get(p, "title")), StrOr(Get(p, "region"), DefaultRegion(widget)),
      IntOr(Get(p, "priority"), 50), PropsOf(p), StrOf(Get(p, "binds_state")), StrOf(Get(p, "binds_tool")),
      NormalizeEmits(Get(p, "emits"), widget), StrOr(Get(p, "min_widget_version"), "1.0"))
  }

  function NormalizePanels(ui: Option<Value>): seq<Panel> {
    Each(Objects(ItemsOf(Within(ui, "panels"))), NormalizePanel)
  }

  function NormalizeResources(v: Option<Value>): Resources {
    Resources(StrOf(Within(v, "icon")), StrArray(Within(v, "assets")), StrArray(Within(v, "strings")))
  }

  function NormalizeLocalization(v: Option<Value>): Localization {
    Localization(StrOf(Within(v, "default_locale")), StrOr(Within(v, "unit_system_default"), "auto"))
  }

  function NormalizeCompatibility(v: Option<Value>): Compatibility {
    Compatibility(StrArray(Within(v, "conflicts_with")), IntOr(Within(v, "combine_priority"), 50))
  }

  function NormalizeCost(v: Option<Value>): Option<CostEstimate> {
    if v.None? || !v.value.Obj? then None
    else Some(CostEstimate(IntOr(v.value.Get("prompt_tokens"), 0), IntOr(v.value.Get("tools"), 0),
        IntOr(v.value.Get("panels"), 0)))
  }

  function Normalize(o: Dict): Canonical {
    Canonical(
      StrOr(Get(o, "manifest_version"), "1.0"), StrOr(Get(o, "id"), ""), StrOr(Get(o, "name"), ""),
      StrOf(Get(o, "summary")), StrOr(Get(o, "version"), ""), StrOr(Get(o, "status"), "published"),
      StrOr(Get(o, "category"), ""), StrOr(Get(o, "min_app_version"), ""),
      NormalizeRequirements(Get(o, "requirements")), NormalizePricing(Get(o, "pricing")),
      NormalizePersona(Get(o, "persona")), StrArray(Get(o, "capabilities")), NormalizeTools(Get(o, "tools")),
      NormalizeSlots(Get(o, "shared_state")), NormalizePanels(Get(o, "ui")), NormalizeResources(Get(o, "resources")),
      NormalizeLocalization(Get(o, "localization")), NormalizeCompatibility(Get(o, "compatibility")),
      NormalizeCost(Get(o, "cost_estimate")), StrOf(Get(o, "signature")), StrOf(Get(o, "signing_key_id")))
  }

  datatype Validated = Ok(canonical: Canonical) | Err(issues: Issues)

  ghost function Validate(raw: Value): Validated {
    if ManifestIssues(raw) == [] then Ok(Normalize(raw.members)) else Err(ManifestIssues(raw))
  }

  // ----------------------------------------------------------------- serialization

  /** An omitted optional field is not written. */
  function Put(o: Dict, key: string, v: Option<Value>): Dict {
    if v.Some? then o[key := v.value] else o
  }

  function StrJson(s: Option<string>): Option<Value> {
    if s.Some? then Some(Str(s.value)) else None
  }

  function IntJson(n: int): Value { Num(Int(n)) }

  function OptIntJson(n: Option<int>): Option<Value> {
    if n.Some? then Some(IntJson(n.value)) else None
  }

  function StringsJson(l: seq<string>): Value { Arr(seq(|l|, (i: nat) requires i < |l| => Str(l[i]))) }

  function ListJson<A>(l: seq<A>, f: A -> Dict): Value {
    Arr(seq(|l|, (i: nat) requires i < |l| => Obj(f(l[i]))))
  }

  function RequirementsJson(r: Requirements): Dict {
    Put(Put(map["min_model_tier" := Str(r.tier)], "min_params_b", OptIntJson(r.params)), "min_ram_gb",
        OptIntJson(r.ram))
  }

  function PriceJson(p: Price): Dict { map["amount_minor" := IntJson(p.amountMinor), "currency" := Str(p.currency)] }

  function PricingJson(p: Pricing): Dict {
    Put(map["free" := Bool(p.free)], "price", if p.price.Some? then Some(Obj(PriceJson(p.price.value))) else None)
  }

  function FewShotJson(e: FewShot): Dict { map["role" := Str(e.role), "content" := Str(e.content)] }

  function PersonaJson(p: Persona): Dict {
    map["role" := Str(p.role), "system_prompt" := Str(p.systemPrompt), "compressed_prompt" := Str(p.compressedPrompt),
        "few_shot" := ListJson(p.fewShot, FewShotJson)]
  }

  function ToolJson(t: Tool): Dict {
    Put(map["ref" := Str(t.toolRef), "config" := t.config, "reads_state" := StringsJson(t.readsState),
            "writes_state" := StringsJson(t.writesState)], "updates_widget", StrJson(t.updatesWidget))
  }

  function SlotJson(s: Slot): Dict { map["slot" := Str(s.slot), "access" := Str(s.access), "schema" := Str(s.schema)] }

  function EmitJson(e: Emit): Dict { map["name" := Str(e.name), "to_chat" := Bool(e.toChat)] }

  function PanelJson(p: Panel): Dict {
    Put(Put(Put(
      map["type" := Str(p.widget), "id" := Str(p.id), "region" := Str(p.region), "priority" := IntJson(p.priority),
          "props" := Obj(p.props), "emits" := ListJson(p.emits, EmitJson),
          "min_widget_version" := Str(p.minWidgetVersion)],
      "title", StrJson(p.title)), "binds_state", StrJson(p.bindsState)), "binds_tool", StrJson(p.bindsTool))
  }

  function UiJson(panels: seq<Panel>): Dict { map["panels" := ListJson(panels, PanelJson)] }

  function ResourcesJson(r: Resources): Dict {
    Put(map["assets" := StringsJson(r.assets), "strings" := StringsJson(r.strings)], "icon", StrJson(r.icon))
  }

  function LocalizationJson(l: Localization): Dict {
    Put(map["unit_system_default" := Str(l.units)], "default_locale", StrJson(l.defaultLocale))
  }

  function CompatibilityJson(c: Compatibility): Dict {
    map["conflicts_with" := StringsJson(c.conflictsWith), "combine_priority" := IntJson(c.combinePriority)]
  }

  function CostJson(c: Option<CostEstimate>): Option<Value> {
    if c.None? then None
    else Some(Obj(map["prompt_tokens" := IntJson(c.value.promptTokens), "tools" := IntJson(c.value.tools),
                      "panels" := IntJson(c.value.panels)]))
  }

  function CanonicalJson(c: Canonical): Dict {
    Put(Put(Put(Put(
      map["manifest_version" := Str(c.manifestVersion), "id" := Str(c.id), "name" := Str(c.name),
          "version" := Str(c.version), "status" := Str(c.status), "category" := Str(c.category),
          "min_app_version" := Str(c.minAppVersion), "requirements" := Obj(RequirementsJson(c.requirements)),
          "pricing" := Obj(PricingJson(c.pricing)), "persona" := Obj(PersonaJson(c.persona)),
          "capabilities" := StringsJson(c.capabilities), "tools" := ListJson(c.tools, ToolJson),
          "shared_state" := ListJson(c.sharedState, SlotJson), "ui" := Obj(UiJson(c.panels)),
          "resources" := Obj(ResourcesJson(c.resources)), "localization" := Obj(LocalizationJson(c.localization)),
          "compatibility" := Obj(CompatibilityJson(c.compatibility))],
      "summary", StrJson(c.summary)), "cost_estimate", CostJson(c.cost)),
      "signature", StrJson(c.signature)), "signing_key_id", StrJson(c.signingKeyId))
  }

  function ToJson(c: Canonical): Value { Obj(CanonicalJson(c)) }
}
