/** What the composer reads of a manifest (`composition.rs` through the deserializer's defaults in
    `orchestrator.rs`), member by member. */
module MergeView {
  import opened Text
  import opened Json
  import opened ManifestSchema
  import opened Orchestrator
  import opened Composition

  /** The view `s` of the manifest `v`. */
  predicate Shows(v: Value, s: Skill) {
    && v.Obj? && v.Get("id") == Some(Str(s.id))
    && ObjectOrAbsent(v.Get("persona")) && ObjectOrAbsent(v.Get("compatibility"))
    && RoleShown(Within(v.Get("persona"), "role"), s.role)
    && Worded(Within(v.Get("persona"), "system_prompt"), s.systemPrompt)
    && Worded(Within(v.Get("persona"), "compressed_prompt"), s.compressedPrompt)
    && ToolsShown(v.Get("tools"), s.tools)
    && ConflictsShown(Within(v.Get("compatibility"), "conflicts_with"), s.conflicts)
    && PriorityShown(Within(v.Get("compatibility"), "combine_priority"), s.priority)
    && CostShown(v.Get("cost_estimate"), s.cost)
    && SlotsReadable(v.Get("shared_state"))
  }

  /** A section is an object or left out. */
  predicate ObjectOrAbsent(v: Option<Value>) { v.Some? ==> v.value.Obj? }

  predicate RoleShown(v: Option<Value>, role: Role) {
    match role
    case PrimaryEligible => v == None || v == Some(Str("primary_eligible"))
    case SecondaryOnly => v == Some(Str("secondary_only"))
  }

  /** A string, empty when left out. */
  predicate Worded(v: Option<Value>, s: string) { v == Some(Str(s)) || (v == None && s == "") }

  /** An array of that many entries, or nothing for none. */
  predicate Listed(v: Option<Value>, n: nat) {
    if v.None? then n == 0 else v.value.Arr? && |v.value.items| == n
  }

  predicate ToolsShown(v: Option<Value>, tools: seq<ToolRef>) {
    && Listed(v, |tools|)
    && forall i :: 0 <= i < |tools| ==> ToolShown(v.value.items[i], tools[i])
  }

  predicate ToolShown(v: Value, tool: ToolRef) {
    && v.Get("ref") == Some(Str(tool.name))
    && (v.Get("config") == Some(tool.config) || (v.Get("config") == None && tool.config == Null))
  }

  predicate ConflictsShown(v: Option<Value>, ids: seq<string>) {
    Listed(v, |ids|) && forall i :: 0 <= i < |ids| ==> v.value.items[i] == Str(ids[i])
  }

  predicate PriorityShown(v: Option<Value>, n: int) {
    || (v == None && n == 50)
    || (v == Some(Num(Int(n))) && -0x8000_0000_0000_0000 <= n < 0x8000_0000_0000_0000)
  }

  /** The cost by member, or by position in an array of at most three entries. */
  predicate CostShown(v: Option<Value>, cost: Cost) {
    match v
    case None => cost == Cost(0, 0, 0)
    case Some(Obj(_)) =>
      && Counted(Within(v, "prompt_tokens"), cost.promptTokens) && Counted(Within(v, "tools"), cost.tools)
      && Counted(Within(v, "panels"), cost.panels)
    case Some(Arr(items)) =>
      && |items| <= 3 && Counted(Entry(items, 0), cost.promptTokens) && Counted(Entry(items, 1), cost.tools)
      && Counted(Entry(items, 2), cost.panels)
    case _ => false
  }

  function Entry(items: seq<Value>, i: nat): Option<Value> { if i < |items| then Some(items[i]) else None }

  predicate Counted(v: Option<Value>, n: U32) { v == Some(Num(Int(n))) || (v == None && n == 0) }

  predicate SlotsReadable(v: Option<Value>) {
    v.Some? ==> v.value.Arr? && forall s :: s in v.value.items ==> SlotReadable(s)
  }

  predicate SlotReadable(s: Value) {
    && s.Get("slot").Some? && s.Get("slot").value.Str?
    && (s.Get("access").Some? ==> s.Get("access").value.Str?)
    && (s.Get("schema").Some? ==> s.Get("schema").value.Str?)
  }

  /** A manifest is read, and as what, exactly when it shows that view. */
  lemma ViewIff(v: Value, s: Skill)
    ensures ParseSkill(v) == Some(s) <==> Shows(v, s)
  {
    hide ParseTools, ParseStrings, ParseCost, CostShown, ToolsShown, ConflictsShown, ParseRole, RoleShown,
      PriorityShown, ParsePriority, ParseSlots, SlotsReadable, ListField, Worded, StrField, Listed;
    if v.Obj? && ObjectOrAbsent(v.Get("persona")) && ObjectOrAbsent(v.Get("compatibility")) {
      var o := v.members;
      var persona, compat := SectionOf(Get(o, "persona")).value, SectionOf(Get(o, "compatibility")).value;
      SectionGet(Get(o, "persona"));
      SectionGet(Get(o, "compatibility"));
      TextIff(Get(o, "id"), s.id);
      TextIff(Get(persona, "system_prompt"), s.systemPrompt);
      TextIff(Get(persona, "compressed_prompt"), s.compressedPrompt);
      RoleIff(Get(persona, "role"), s.role);
      ToolsIff(Get(o, "tools"), s.tools);
      ConflictsIff(Get(compat, "conflicts_with"), s.conflicts);
      PriorityIff(Get(compat, "combine_priority"), s.priority);
      CostIff(Get(o, "cost_estimate"), s.cost);
      SlotsIff(Get(o, "shared_state"));
    }
  }

  lemma SectionGet(v: Option<Value>)
    requires ObjectOrAbsent(v)
    ensures SectionOf(v).Some? && forall key :: Within(v, key) == Get(SectionOf(v).value, key)
  {
  }

  lemma TextIff(v: Option<Value>, s: string)
    ensures v == Some(Str(s)) <==> StrField(v) == Given(s)
    ensures Worded(v, s) <==> !StrField(v).Wrong? && OrEmpty(StrField(v)) == s
  {
  }

  lemma RoleIff(v: Option<Value>, role: Role)
    ensures ParseRole(v) == Some(role) <==> RoleShown(v, role)
  {
  }

  lemma PriorityIff(v: Option<Value>, n: int)
    ensures ParsePriority(v) == Some(n) <==> PriorityShown(v, n)
  {
  }

  lemma ToolsIff(v: Option<Value>, tools: seq<ToolRef>)
    ensures ListField(v).Some? && ParseTools(ListField(v).value) == Some(tools) <==> ToolsShown(v, tools)
  {
    hide ToolShown;
    if ListField(v).Some? { ToolItems(ListField(v).value, tools); }
  }

  lemma {:induction false} ToolItems(items: seq<Value>, tools: seq<ToolRef>)
    ensures ParseTools(items) == Some(tools)
            <==> |items| == |tools| && forall i :: 0 <= i < |tools| ==> ToolShown(items[i], tools[i])
  {
    hide ToolShown, ParseTool;
    if items != [] && tools != [] {
      ToolItems(items[1..], tools[1..]);
      ToolIff(items[0], tools[0]);
      assert tools == [tools[0]] + tools[1..];
      forall i | 0 < i < |tools| && |items| == |tools|
        ensures ToolShown(items[i], tools[i]) <==> ToolShown(items[1..][i - 1], tools[1..][i - 1]) {
      }
    }
  }

  lemma ToolIff(v: Value, tool: ToolRef)
    ensures ParseTool(v) == Some(tool) <==> ToolShown(v, tool)
  {
  }

  lemma ConflictsIff(v: Option<Value>, ids: seq<string>)
    ensures ListField(v).Some? && ParseStrings(ListField(v).value) == Some(ids) <==> ConflictsShown(v, ids)
  {
    if ListField(v).Some? { StringItems(ListField(v).value, ids); }
  }

  lemma {:induction false} StringItems(items: seq<Value>, ids: seq<string>)
    ensures ParseStrings(items) == Some(ids)
            <==> |items| == |ids| && forall i :: 0 <= i < |ids| ==> items[i] == Str(ids[i])
  {
    if items != [] && ids != [] {
      StringItems(items[1..], ids[1..]);
      assert ids == [ids[0]] + ids[1..];
      forall i | 0 < i < |ids| && |items| == |ids|
        ensures items[i] == Str(ids[i]) <==> items[1..][i - 1] == Str(ids[1..][i - 1]) {
      }
    }
  }

  lemma CostIff(v: Option<Value>, cost: Cost)
    ensures ParseCost(v) == Some(cost) <==> CostShown(v, cost)
  {
    hide U32Field, Counted;
    if v.Some? && v.value.Obj? {
      CountIff(Within(v, "prompt_tokens"), cost.promptTokens);
      CountIff(Within(v, "tools"), cost.tools);
      CountIff(Within(v, "panels"), cost.panels);
    } else if v.Some? && v.value.Arr? {
      CountIff(Entry(v.value.items, 0), cost.promptTokens);
      CountIff(Entry(v.value.items, 1), cost.tools);
      CountIff(Entry(v.value.items, 2), cost.panels);
    }
  }

  lemma CountIff(v: Option<Value>, n: U32)
    ensures U32Field(v) == Some(n) <==> Counted(v, n)
  {
  }

  lemma SlotsIff(v: Option<Value>)
    ensures ParseSlots(v) <==> SlotsReadable(v)
  {
    hide ParseSlot, SlotReadable;
    if v.Some? && v.value.Arr? {
      forall s | s in v.value.items ensures ParseSlot(s) <==> SlotReadable(s) { SlotIff(s); }
    }
  }

  lemma SlotIff(s: Value)
    ensures ParseSlot(s) <==> SlotReadable(s)
  {
  }
}
