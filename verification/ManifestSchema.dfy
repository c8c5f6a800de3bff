/** What `manifest.rs` accepts: the closed sets, the format predicates, and for every part of a raw
    manifest the issues it gives rise to, in the order they are reported. */
module ManifestSchema {
  import opened Text
  import opened Json
  import opened Order

  type Dict = map<string, Value>

  function Get(o: Dict, key: string): Option<Value> {
    if key in o then Some(o[key]) else None
  }

  // ------------------------------------------------------------------ closed sets

  const TOOL_REFS: seq<string> := ["start_timer", "convert_units", "list_manage", "calculate", "date_math"]

  const CAPABILITIES: seq<string> :=
    ["timers", "unit_conversion", "list_management", "calculation", "date_math"]

  const WIDGET_TYPES: seq<string> :=
    ["chat", "timer_stack", "editable_list", "segmented_toggle", "switch", "key_value_panel", "slider",
     "stepper", "table", "quick_actions", "media_note", "tabs", "progress", "date_time_picker"]

  const CATEGORIES: seq<string> :=
    ["Home & Lifestyle", "Cooking", "Travel", "Home & DIY", "Nutrition", "Budgeting", "Study & Reading",
     "Productivity", "Other"]

  const MODEL_TIERS: seq<string> := ["small", "mid"]
  const REGIONS: seq<string> := ["side", "bottom", "inline"]
  const ACCESS_MODES: seq<string> := ["read", "read_write"]
  const ROLES: seq<string> := ["primary_eligible", "secondary_only"]
  const SPEAKERS: seq<string> := ["user", "assistant"]
  const STATUSES: seq<string> := ["published", "deprecated", "withdrawn"]
  const UNIT_SYSTEMS: seq<string> := ["US", "Metric", "auto"]
  const MANIFEST_VERSIONS: seq<string> := ["1.0"]

  const CANONICAL_PANEL_KEYS: seq<string> :=
    ["type", "id", "title", "region", "priority", "props", "binds_state", "binds_tool", "emits",
     "min_widget_version"]

  /** The shorthand keys a widget type may carry next to the canonical ones. */
  function InlinePropKeys(widget: string): seq<string> {
    if widget == "timer_stack" then ["multi"]
    else if widget == "editable_list" then ["checkable", "reorderable", "max_items"]
    else if widget == "segmented_toggle" || widget == "switch" then ["options", "default"]
    else if widget == "slider" || widget == "stepper" then ["min", "max", "step", "default"]
    else if widget == "table" then ["columns"]
    else if widget == "quick_actions" then ["actions"]
    else if widget == "progress" then ["mode"]
    else if widget == "date_time_picker" then ["mode", "min", "max"]
    else if widget == "media_note" then ["image", "body"]
    else if widget == "tabs" then ["tab_ids"]
    else []
  }

  // ---------------------------------------------------------------------- formats

  /** The text before and after the first `sep`. */
  function SplitOnce(s: string, sep: char): Option<(string, string)> {
    match Find(s, [sep])
    case None => None
    case Some(i) => Some((s[..i], s[i + 1..]))
  }

  predicate IsLower(c: char) { 'a' <= c <= 'z' }
  predicate IsUpper(c: char) { 'A' <= c <= 'Z' }
  predicate IsAlnum(c: char) { IsLower(c) || IsUpper(c) || IsDigit(c) }

  predicate AllDigits(s: string) { forall i :: 0 <= i < |s| ==> IsDigit(s[i]) }

  predicate IsNumId(s: string) { s == "0" || (s != "" && s[0] != '0' && AllDigits(s)) }

  predicate IsDotDashAlnum(s: string) {
    s != "" && forall i :: 0 <= i < |s| ==> IsAlnum(s[i]) || s[i] == '.' || s[i] == '-'
  }

  predicate IsCore(s: string) {
    var parts := Split(s, '.');
    |parts| == 3 && forall i :: 0 <= i < |parts| ==> IsNumId(parts[i])
  }

  predicate IsSemver(s: string) {
    var plus := SplitOnce(s, '+');
    var rest := if plus.Some? then plus.value.0 else s;
    var dash := SplitOnce(rest, '-');
    && (plus.Some? ==> IsDotDashAlnum(plus.value.1))
    && (dash.Some? ==> IsDotDashAlnum(dash.value.1))
    && IsCore(if dash.Some? then dash.value.0 else rest)
  }

  predicate IsWidgetVersion(s: string) {
    var parts := Split(s, '.');
    2 <= |parts| <= 3 && forall i :: 0 <= i < |parts| ==> parts[i] != "" && AllDigits(parts[i])
  }

  predicate IsSlug(s: string) {
    s != "" && forall i :: 0 <= i < |s| ==> IsLower(s[i]) || IsDigit(s[i])
  }

  predicate IsSkillId(s: string) {
    2 <= |s| <= 64 && forall part :: part in Split(s, '-') ==> IsSlug(part)
  }

  predicate IsIdentName(s: string) {
    1 <= |s| <= 48 && IsLower(s[0]) && forall i :: 0 <= i < |s| ==> IsLower(s[i]) || IsDigit(s[i]) || s[i] == '_'
  }

  predicate IsLocale(s: string) {
    || (|s| == 2 && IsLower(s[0]) && IsLower(s[1]))
    || (|s| == 5 && IsLower(s[0]) && IsLower(s[1]) && s[2] == '-' && IsUpper(s[3]) && IsUpper(s[4]))
  }

  predicate IsPathPart(s: string) {
    s != "" && forall i :: 0 <= i < |s| ==> IsAlnum(s[i]) || s[i] == '_' || s[i] == '-'
  }

  predicate EndsWith(s: string, suffix: string) {
    |suffix| <= |s| && s[|s| - |suffix|..] == suffix
  }

  predicate IsSvgAssetPath(s: string) {
    |s| <= 128 && EndsWith(s, ".svg") && |s| > 4 && forall part :: part in Split(s[..|s| - 4], '/') ==> IsPathPart(part)
  }

  /** A skill id is one path component: no separator, no dot. */
  lemma SkillIdIsComponent(s: string, i: nat)
    requires IsSkillId(s) && i < |s|
    ensures IsLower(s[i]) || IsDigit(s[i]) || s[i] == '-'
  {
    if s[i] != '-' {
      SplitCovers(s, '-', i);
      var k :| 0 <= k < |Split(s, '-')| && s[i] in Split(s, '-')[k];
      assert IsSlug(Split(s, '-')[k]);
    }
  }

  /** An asset path is relative and cannot climb: its one dot starts the extension, it has no colon or
      backslash, and it does not begin with a slash. */
  lemma AssetPathIsRelative(s: string, i: nat)
    requires IsSvgAssetPath(s) && i < |s|
    ensures s[i] == '.' <==> i == |s| - 4
    ensures s[i] != ':' && s[i] != '\\' && s[0] != '/'
  {
    var stem := s[..|s| - 4];
    var parts := Split(stem, '/');
    assert s[|s| - 4..] == ".svg";
    if i < |stem| && s[i] != '/' {
      SplitCovers(stem, '/', i);
      var k :| 0 <= k < |parts| && stem[i] in parts[k];
      assert IsPathPart(parts[k]);
    } else if i >= |stem| {
      assert s[i] == ".svg"[i - |stem|];
    }
    assert IsPathPart(parts[0]);
  }

  predicate IsCurrency(s: string) { |s| == 3 && IsUpper(s[0]) && IsUpper(s[1]) && IsUpper(s[2]) }

  predicate IsSlotSchema(s: string) {
    || s == "scalar" || s == "list" || s == "record"
    || ((StartsWith(s, "scalar<") || StartsWith(s, "list<") || StartsWith(s, "record<")) && EndsWith(s, ">"))
  }

  // ----------------------------------------------------------------------- issues

  datatype Code =
    | MissingField | InvalidType | InvalidEnum | InvalidLength | OutOfRange | InvalidSemver | InvalidFormat
    | InvalidAssetPath | InvalidSlotSchema | InvalidPricing | UnknownToolRef | UnknownCapability
    | UnknownWidgetType | UnknownStateRef | UnknownProperty | DuplicatePanelId | UndeclaredDefaultLocale

  /** A step of a JSON pointer. */
  datatype Step = Key(key: string) | At(index: nat)
  type Pointer = seq<Step>

  datatype Issue = Issue(code: Code, at: Pointer)
  type Issues = seq<Issue>

  type Form = string -> bool

  function Len(lo: nat, hi: nat): Form { s => lo <= |s| <= hi }
  function In(options: seq<string>): Form { s => s in options }
  function NonEmpty(): Form { s => s != "" }

  function Fault(code: Code, at: Pointer): Issues { [Issue(code, at)] }

  function StrIssues(v: Value, form: Form, bad: Code, at: Pointer): Issues {
    if !v.Str? then Fault(InvalidType, at) else if form(v.s) then [] else Fault(bad, at)
  }

  function OptionalStr(v: Option<Value>, form: Form, bad: Code, at: Pointer): Issues {
    if v.None? then [] else StrIssues(v.value, form, bad, at)
  }

  function RequiredStr(v: Option<Value>, form: Form, bad: Code, at: Pointer): Issues {
    if v.None? then Fault(MissingField, at) else StrIssues(v.value, form, bad, at)
  }

  /** Inside an array entry a member that is not a string counts as missing. */
  function EntryStr(v: Option<Value>, form: Form, bad: Code, at: Pointer): Issues {
    if v.None? || !v.value.Str? then Fault(MissingField, at)
    else if form(v.value.s) then [] else Fault(bad, at)
  }

  function IntIssues(v: Value, lo: int, hi: int, at: Pointer): Issues {
    match v.AsI64()
    case None => Fault(InvalidType, at)
    case Some(n) => if lo <= n <= hi then [] else Fault(OutOfRange, at)
  }

  function OptionalInt(v: Option<Value>, lo: int, hi: int, at: Pointer): Issues {
    if v.None? then [] else IntIssues(v.value, lo, hi, at)
  }

  function OptionalObject(v: Option<Value>, at: Pointer): Issues {
    if v.Some? && !v.value.Obj? then Fault(InvalidType, at) else []
  }

  type ItemCheck = (Value, Pointer) -> Issues

  function ItemIssues(items: seq<Value>, from: nat, check: ItemCheck, at: Pointer): Issues
    decreases |items| - from
  {
    if from >= |items| then [] else check(items[from], at + [At(from)]) + ItemIssues(items, from + 1, check, at)
  }

  function ListIssues(v: Option<Value>, check: ItemCheck, at: Pointer): Issues {
    if v.None? then [] else if !v.value.Arr? then Fault(InvalidType, at) else ItemIssues(v.value.items, 0, check, at)
  }

  function StrItem(form: Form, bad: Code): ItemCheck { (v, at) => StrIssues(v, form, bad, at) }

  function ObjectItem(check: (Dict, Pointer) -> Issues): ItemCheck {
    (v: Value, at) => if v.Obj? then check(v.members, at) else Fault(InvalidType, at)
  }

  function Section(v: Option<Value>, required: bool, check: (Dict, Pointer) -> Issues, at: Pointer): Issues {
    if v.None? then (if required then Fault(MissingField, at) else [])
    else if v.value.Obj? then check(v.value.members, at)
    else Fault(InvalidType, at)
  }

  // --------------------------------------------------------------------- sections

  function RequirementIssues(r: Dict, at: Pointer): Issues {
    RequiredStr(Get(r, "min_model_tier"), In(MODEL_TIERS), InvalidEnum, at + [Key("min_model_tier")])
    + OptionalInt(Get(r, "min_params_b"), 1, 100, at + [Key("min_params_b")])
    + OptionalInt(Get(r, "min_ram_gb"), 1, 1024, at + [Key("min_ram_gb")])
  }

  function PricingIssues(p: Dict, at: Pointer): Issues {
    match Get(p, "free")
    case None => Fault(MissingField, at + [Key("free")])
    case Some(Bool(free)) =>
      PriceChoiceIssues(free, "price_usd" in p, "price" in p, at)
      + UsdIssues(Get(p, "price_usd"), at + [Key("price_usd")])
      + PriceIssues(Get(p, "price"), at + [Key("price")])
    case Some(_) => Fault(InvalidType, at + [Key("free")])
  }

  function PriceChoiceIssues(free: bool, usd: bool, price: bool, at: Pointer): Issues {
    (if free && (usd || price) then Fault(InvalidPricing, at) else [])
    + (if !free && usd == price then Fault(InvalidPricing, at) else [])
  }

  function UsdIssues(v: Option<Value>, at: Pointer): Issues {
    if v.None? then []
    else match v.value.AsF64()
      case None => Fault(InvalidType, at)
      case Some(n) => if n <= 0.0 || n > 1000.0 then Fault(OutOfRange, at) else []
  }

  function PriceIssues(v: Option<Value>, at: Pointer): Issues {
    if v.None? then []
    else if !v.value.Obj? then Fault(InvalidType, at)
    else
      AmountIssues(Get(v.value.members, "amount_minor"), at + [Key("amount_minor")])
      + RequiredStr(Get(v.value.members, "currency"), IsCurrency, InvalidFormat, at + [Key("currency")])
  }

  function AmountIssues(v: Option<Value>, at: Pointer): Issues {
    if v.None? then Fault(MissingField, at) else IntIssues(v.value, 1, I64_MAX, at)
  }

  function PersonaIssues(p: Dict, at: Pointer): Issues {
    RequiredStr(Get(p, "system_prompt"), Len(1, 16000), InvalidLength, at + [Key("system_prompt")])
    + RequiredStr(Get(p, "compressed_prompt"), Len(1, 400), InvalidLength, at + [Key("compressed_prompt")])
    + OptionalStr(Get(p, "role"), In(ROLES), InvalidEnum, at + [Key("role")])
    + ListIssues(Get(p, "few_shot"), ObjectItem(FewShotIssues), at + [Key("few_shot")])
  }

  function FewShotIssues(e: Dict, at: Pointer): Issues {
    EntryStr(Get(e, "role"), In(SPEAKERS), InvalidEnum, at + [Key("role")])
    + EntryStr(Get(e, "content"), NonEmpty(), MissingField, at + [Key("content")])
  }

  function ToolIssues(t: Dict, at: Pointer): Issues {
    EntryStr(Get(t, "ref"), In(TOOL_REFS), UnknownToolRef, at + [Key("ref")])
    + OptionalObject(Get(t, "config"), at + [Key("config")])
    + ListIssues(Get(t, "reads_state"), StrItem(IsIdentName, InvalidFormat), at + [Key("reads_state")])
    + ListIssues(Get(t, "writes_state"), StrItem(IsIdentName, InvalidFormat), at + [Key("writes_state")])
    + OptionalStr(Get(t, "updates_widget"), IsIdentName, InvalidFormat, at + [Key("updates_widget")])
  }

  function SlotIssues(s: Dict, at: Pointer): Issues {
    EntryStr(Get(s, "slot"), IsIdentName, InvalidFormat, at + [Key("slot")])
    + EntryStr(Get(s, "access"), In(ACCESS_MODES), InvalidEnum, at + [Key("access")])
    + EntryStr(Get(s, "schema"), IsSlotSchema, InvalidSlotSchema, at + [Key("schema")])
  }

  function ResourceIssues(r: Dict, at: Pointer): Issues {
    OptionalStr(Get(r, "icon"), IsSvgAssetPath, InvalidAssetPath, at + [Key("icon")])
    + ListIssues(Get(r, "assets"), StrItem(IsSvgAssetPath, InvalidAssetPath), at + [Key("assets")])
    + ListIssues(Get(r, "strings"), StrItem(IsLocale, InvalidFormat), at + [Key("strings")])
  }

  function LocalizationIssues(l: Dict, at: Pointer): Issues {
    OptionalStr(Get(l, "default_locale"), IsLocale, InvalidFormat, at + [Key("default_locale")])
    + OptionalStr(Get(l, "unit_system_default"), In(UNIT_SYSTEMS), InvalidEnum, at + [Key("unit_system_default")])
  }

  function CompatibilityIssues(c: Dict, at: Pointer): Issues {
    ListIssues(Get(c, "conflicts_with"), StrItem(IsSkillId, InvalidFormat), at + [Key("conflicts_with")])
    + OptionalInt(Get(c, "combine_priority"), 0, 100, at + [Key("combine_priority")])
  }

  ghost function UiIssues(ui: Dict, at: Pointer): Issues {
    if "panels" !in ui then Fault(MissingField, at + [Key("panels")])
    else ListIssues(Get(ui, "panels"), ObjectItem(PanelIssues), at + [Key("panels")])
  }

  ghost function PanelIssues(p: Dict, at: Pointer): Issues {
    PanelFieldIssues(p, at)
    + ListIssues(Get(p, "emits"), EmitIssues, at + [Key("emits")])
    + UnknownKeyIssues(p, at)
  }

  function PanelFieldIssues(p: Dict, at: Pointer): Issues { PlacementIssues(p, at) + BindingIssues(p, at) }

  function PlacementIssues(p: Dict, at: Pointer): Issues {
    EntryStr(Get(p, "type"), In(WIDGET_TYPES), UnknownWidgetType, at + [Key("type")])
    + EntryStr(Get(p, "id"), IsIdentName, InvalidFormat, at + [Key("id")])
    + OptionalStr(Get(p, "title"), Len(0, 80), InvalidLength, at + [Key("title")])
    + OptionalStr(Get(p, "region"), In(REGIONS), InvalidEnum, at + [Key("region")])
    + OptionalInt(Get(p, "priority"), 0, 100, at + [Key("priority")])
  }

  function BindingIssues(p: Dict, at: Pointer): Issues {
    OptionalObject(Get(p, "props"), at + [Key("props")])
    + OptionalStr(Get(p, "binds_state"), IsIdentName, InvalidFormat, at + [Key("binds_state")])
    + OptionalStr(Get(p, "binds_tool"), In(TOOL_REFS), UnknownToolRef, at + [Key("binds_tool")])
    + OptionalStr(Get(p, "min_widget_version"), IsWidgetVersion, InvalidFormat, at + [Key("min_widget_version")])
  }

  function EmitIssues(e: Value, at: Pointer): Issues {
    match e
    case Str(_) => StrIssues(e, Len(1, 48), InvalidLength, at)
    case Obj(o) =>
      EntryStr(Get(o, "name"), Len(1, 48), InvalidLength, at + [Key("name")])
      + (if "to_chat" in o && !o["to_chat"].Bool? then Fault(InvalidType, at + [Key("to_chat")]) else [])
    case _ => Fault(InvalidType, at)
  }

  /** For a known widget type, every key that is neither canonical nor that widget's shorthand. */
  ghost function UnknownKeyIssues(p: Dict, at: Pointer): Issues {
    match Get(p, "type")
    case Some(Str(widget)) =>
      if widget in WIDGET_TYPES then KeyIssues(Ascending(p.Keys), InlinePropKeys(widget), at) else []
    case _ => []
  }

  function KeyIssues(keys: seq<string>, inline: seq<string>, at: Pointer): Issues {
    if keys == [] then []
    else OneKeyIssues(keys[0], inline, at) + KeyIssues(keys[1..], inline, at)
  }

  function OneKeyIssues(k: string, inline: seq<string>, at: Pointer): Issues {
    if k in CANONICAL_PANEL_KEYS || k in inline then [] else Fault(UnknownProperty, at + [Key(k)])
  }

  // -------------------------------------------------------- referential integrity

  /** The names a manifest declares and the names it refers to. */
  datatype ToolUse = ToolUse(read: seq<Option<string>>, written: seq<Option<string>>)
  datatype PanelUse = PanelUse(id: Option<string>, tool: Option<string>, state: Option<string>)
  datatype Names = Names(
    tools: seq<Option<string>>, slots: seq<Option<string>>, locales: seq<Option<string>>,
    uses: seq<ToolUse>, panels: seq<PanelUse>, locale: Option<string>)

  function Within(v: Option<Value>, key: string): Option<Value> {
    if v.None? then None else v.value.Get(key)
  }

  function StrOf(v: Option<Value>): Option<string> {
    if v.None? then None else v.value.AsStr()
  }

  function ItemsOf(v: Option<Value>): seq<Value> {
    if v.Some? && v.value.Arr? then v.value.items else []
  }

  /** What `as_str` makes of each entry. */
  function StrsOf(items: seq<Value>): seq<Option<string>> {
    seq(|items|, (i: nat) requires i < |items| => items[i].AsStr())
  }

  function MembersOf(items: seq<Value>, key: string): seq<Option<string>> {
    seq(|items|, (i: nat) requires i < |items| => StrOf(items[i].Get(key)))
  }

  function NamesOf(o: Dict): Names {
    var tools := ItemsOf(Get(o, "tools"));
    var panels := ItemsOf(Within(Get(o, "ui"), "panels"));
    Names(
      MembersOf(tools, "ref"),
      MembersOf(ItemsOf(Get(o, "shared_state")), "slot"),
      StrsOf(ItemsOf(Within(Get(o, "resources"), "strings"))),
      seq(|tools|, (i: nat) requires i < |tools| => UseOf(tools[i])),
      seq(|panels|, (i: nat) requires i < |panels| => PanelUseOf(panels[i])),
      StrOf(Within(Get(o, "localization"), "default_locale")))
  }

  function UseOf(t: Value): ToolUse {
    ToolUse(StrsOf(ItemsOf(t.Get("reads_state"))), StrsOf(ItemsOf(t.Get("writes_state"))))
  }

  function PanelUseOf(p: Value): PanelUse {
    PanelUse(StrOf(p.Get("id")), StrOf(p.Get("binds_tool")), StrOf(p.Get("binds_state")))
  }

  function StateIssues(refs: seq<Option<string>>, from: nat, slots: seq<Option<string>>, at: Pointer): Issues
    decreases |refs| - from
  {
    if from >= |refs| then []
    else
      (if refs[from].Some? && refs[from] !in slots then Fault(UnknownStateRef, at + [At(from)]) else [])
      + StateIssues(refs, from + 1, slots, at)
  }

  function UseIssues(uses: seq<ToolUse>, from: nat, slots: seq<Option<string>>): Issues
    decreases |uses| - from
  {
    if from >= |uses| then []
    else
      StateIssues(uses[from].read, 0, slots, [Key("tools"), At(from), Key("reads_state")])
      + StateIssues(uses[from].written, 0, slots, [Key("tools"), At(from), Key("writes_state")])
      + UseIssues(uses, from + 1, slots)
  }

  /** `seen` holds the ids of the panels before `from`. */
  function PanelRefIssues(n: Names, from: nat, seen: set<string>): Issues
    decreases |n.panels| - from
  {
    if from >= |n.panels| then []
    else
      var p := n.panels[from];
      OnePanelRefIssues(n, p, seen, [Key("ui"), Key("panels"), At(from)])
      + PanelRefIssues(n, from + 1, if p.id.Some? then seen + {p.id.value} else seen)
  }

  function OnePanelRefIssues(n: Names, p: PanelUse, seen: set<string>, at: Pointer): Issues {
    (if p.id.Some? && p.id.value in seen then Fault(DuplicatePanelId, at + [Key("id")]) else [])
    + (if p.tool.Some? && p.tool !in n.tools then Fault(UnknownToolRef, at + [Key("binds_tool")]) else [])
    + (if p.state.Some? && p.state !in n.slots then Fault(UnknownStateRef, at + [Key("binds_state")]) else [])
  }

  function LocaleIssues(n: Names): Issues {
    if n.locale.Some? && (exists l :: l in n.locales && l.Some?) && n.locale !in n.locales
    then Fault(UndeclaredDefaultLocale, [Key("localization"), Key("default_locale")])
    else []
  }

  function ReferenceIssues(n: Names): Issues {
    UseIssues(n.uses, 0, n.slots) + PanelRefIssues(n, 0, {}) + LocaleIssues(n)
  }

  // ----------------------------------------------------------- the whole manifest

  function HeaderIssues(o: Dict): Issues { IdentityIssues(o) + ReleaseIssues(o) }

  function IdentityIssues(o: Dict): Issues {
    OptionalStr(Get(o, "manifest_version"), In(MANIFEST_VERSIONS), InvalidEnum, [Key("manifest_version")])
    + RequiredStr(Get(o, "id"), IsSkillId, InvalidFormat, [Key("id")])
    + RequiredStr(Get(o, "name"), Len(1, 60), InvalidLength, [Key("name")])
    + OptionalStr(Get(o, "summary"), Len(0, 140), InvalidLength, [Key("summary")])
  }

  function ReleaseIssues(o: Dict): Issues {
    RequiredStr(Get(o, "version"), IsSemver, InvalidSemver, [Key("version")])
    + OptionalStr(Get(o, "status"), In(STATUSES), InvalidEnum, [Key("status")])
    + RequiredStr(Get(o, "category"), In(CATEGORIES), InvalidEnum, [Key("category")])
    + RequiredStr(Get(o, "min_app_version"), IsSemver, InvalidSemver, [Key("min_app_version")])
  }

  ghost function BodyIssues(o: Dict): Issues { TermsIssues(o) + CapabilityIssues(o) + EnvironmentIssues(o) }

  function TermsIssues(o: Dict): Issues {
    Section(Get(o, "requirements"), true, RequirementIssues, [Key("requirements")])
    + Section(Get(o, "pricing"), true, PricingIssues, [Key("pricing")])
    + Section(Get(o, "persona"), true, PersonaIssues, [Key("persona")])
  }

  function CapabilityIssues(o: Dict): Issues {
    ListIssues(Get(o, "capabilities"), StrItem(In(CAPABILITIES), UnknownCapability), [Key("capabilities")])
    + ListIssues(Get(o, "tools"), ObjectItem(ToolIssues), [Key("tools")])
    + ListIssues(Get(o, "shared_state"), ObjectItem(SlotIssues), [Key("shared_state")])
  }

  ghost function EnvironmentIssues(o: Dict): Issues {
    Section(Get(o, "resources"), false, ResourceIssues, [Key("resources")])
    + Section(Get(o, "localization"), false, LocalizationIssues, [Key("localization")])
    + Section(Get(o, "compatibility"), false, CompatibilityIssues, [Key("compatibility")])
    + UiSectionIssues(Get(o, "ui"), [Key("ui")])
  }

  ghost function UiSectionIssues(v: Option<Value>, at: Pointer): Issues {
    if v.None? then [] else if v.value.Obj? then UiIssues(v.value.members, at) else Fault(InvalidType, at)
  }

  ghost function ManifestIssues(raw: Value): Issues {
    if !raw.Obj? then Fault(InvalidType, [])
    else HeaderIssues(raw.members) + BodyIssues(raw.members) + ReferenceIssues(NamesOf(raw.members))
  }
}
