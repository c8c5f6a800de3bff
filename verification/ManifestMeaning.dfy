/** What `validate_manifest` accepts and reports, described without its order of questions: the report
    is empty for exactly the conforming manifests, and each cross-reference issue is reported at a
    place exactly when that place is at fault. */
module ManifestMeaning {
  import opened Text
  import opened Json
  import opened Order
  import opened ManifestSchema

  // --------------------------------------------------------------- well-formed parts

  predicate IsStr(v: Option<Value>, form: Form) { v.Some? && v.value.Str? && form(v.value.s) }

  predicate IsInt(v: Option<Value>, lo: int, hi: int) {
    v.Some? && v.value.AsI64().Some? && lo <= v.value.AsI64().value <= hi
  }

  predicate IsObject(v: Option<Value>, ok: Dict -> bool) { v.Some? && v.value.Obj? && ok(v.value.members) }

  predicate IsList(v: Option<Value>, ok: Value -> bool) {
    v.Some? && v.value.Arr? && forall x :: x in v.value.items ==> ok(x)
  }

  predicate IsStrList(v: Option<Value>, form: Form) { IsList(v, (x: Value) => x.Str? && form(x.s)) }

  predicate IsObjectList(v: Option<Value>, ok: Dict -> bool) { IsList(v, (x: Value) => x.Obj? && ok(x.members)) }

  predicate AnyDict(d: Dict) { true }

  predicate GoodRequirements(r: Dict) {
    && IsStr(Get(r, "min_model_tier"), In(MODEL_TIERS))
    && ("min_params_b" in r ==> IsInt(Get(r, "min_params_b"), 1, 100))
    && ("min_ram_gb" in r ==> IsInt(Get(r, "min_ram_gb"), 1, 1024))
  }

  predicate GoodUsd(v: Value) { v.AsF64().Some? && 0.0 < v.AsF64().value <= 1000.0 }

  predicate GoodPrice(v: Value) {
    && v.Obj?
    && IsInt(Get(v.members, "amount_minor"), 1, I64_MAX)
    && IsStr(Get(v.members, "currency"), IsCurrency)
  }

  predicate IsFree(p: Dict) {
    Get(p, "free") == Some(Bool(true)) && "price_usd" !in p && "price" !in p
  }

  predicate IsPaid(p: Dict) {
    && Get(p, "free") == Some(Bool(false))
    && ((("price_usd" in p && GoodUsd(p["price_usd"])) && "price" !in p)
        || ("price_usd" !in p && "price" in p && GoodPrice(p["price"])))
  }

  predicate GoodExample(e: Dict) {
    IsStr(Get(e, "role"), In(SPEAKERS)) && IsStr(Get(e, "content"), NonEmpty())
  }

  predicate GoodPersona(p: Dict) {
    && IsStr(Get(p, "system_prompt"), Len(1, 16000))
    && IsStr(Get(p, "compressed_prompt"), Len(1, 400))
    && ("role" in p ==> IsStr(Get(p, "role"), In(ROLES)))
    && ("few_shot" in p ==> IsObjectList(Get(p, "few_shot"), GoodExample))
  }

  predicate GoodTool(t: Dict) {
    && IsStr(Get(t, "ref"), In(TOOL_REFS))
    && ("config" in t ==> IsObject(Get(t, "config"), AnyDict))
    && ("reads_state" in t ==> IsStrList(Get(t, "reads_state"), IsIdentName))
    && ("writes_state" in t ==> IsStrList(Get(t, "writes_state"), IsIdentName))
    && ("updates_widget" in t ==> IsStr(Get(t, "updates_widget"), IsIdentName))
  }

  predicate GoodSlot(s: Dict) {
    && IsStr(Get(s, "slot"), IsIdentName)
    && IsStr(Get(s, "access"), In(ACCESS_MODES))
    && IsStr(Get(s, "schema"), IsSlotSchema)
  }

  predicate GoodResources(r: Dict) {
    && ("icon" in r ==> IsStr(Get(r, "icon"), IsSvgAssetPath))
    && ("assets" in r ==> IsStrList(Get(r, "assets"), IsSvgAssetPath))
    && ("strings" in r ==> IsStrList(Get(r, "strings"), IsLocale))
  }

  predicate GoodLocalization(l: Dict) {
    && ("default_locale" in l ==> IsStr(Get(l, "default_locale"), IsLocale))
    && ("unit_system_default" in l ==> IsStr(Get(l, "unit_system_default"), In(UNIT_SYSTEMS)))
  }

  predicate GoodCompatibility(c: Dict) {
    && ("conflicts_with" in c ==> IsStrList(Get(c, "conflicts_with"), IsSkillId))
    && ("combine_priority" in c ==> IsInt(Get(c, "combine_priority"), 0, 100))
  }

  predicate GoodEmit(e: Value) {
    || (e.Str? && 1 <= |e.s| <= 48)
    || (e.Obj? && IsStr(Get(e.members, "name"), Len(1, 48))
        && ("to_chat" in e.members ==> e.members["to_chat"].Bool?))
  }

  predicate GoodPlacement(p: Dict) {
    && IsStr(Get(p, "type"), In(WIDGET_TYPES))
    && IsStr(Get(p, "id"), IsIdentName)
    && ("title" in p ==> IsStr(Get(p, "title"), Len(0, 80)))
    && ("region" in p ==> IsStr(Get(p, "region"), In(REGIONS)))
    && ("priority" in p ==> IsInt(Get(p, "priority"), 0, 100))
  }

  predicate GoodBindings(p: Dict) {
    && ("props" in p ==> IsObject(Get(p, "props"), AnyDict))
    && ("binds_state" in p ==> IsStr(Get(p, "binds_state"), IsIdentName))
    && ("binds_tool" in p ==> IsStr(Get(p, "binds_tool"), In(TOOL_REFS)))
    && ("min_widget_version" in p ==> IsStr(Get(p, "min_widget_version"), IsWidgetVersion))
  }

  /** A key this widget has no use for. */
  predicate StrayKey(p: Dict, key: string) {
    && IsStr(Get(p, "type"), In(WIDGET_TYPES))
    && key in p && key !in CANONICAL_PANEL_KEYS && key !in InlinePropKeys(p["type"].s)
  }

  predicate GoodPanel(p: Dict) {
    && GoodPlacement(p) && GoodBindings(p)
    && ("emits" in p ==> IsList(Get(p, "emits"), GoodEmit))
    && forall key :: key in p ==> !StrayKey(p, key)
  }

  predicate GoodUi(ui: Dict) { IsObjectList(Get(ui, "panels"), GoodPanel) }

  predicate GoodIdentity(o: Dict) {
    && ("manifest_version" in o ==> IsStr(Get(o, "manifest_version"), In(MANIFEST_VERSIONS)))
    && IsStr(Get(o, "id"), IsSkillId)
    && IsStr(Get(o, "name"), Len(1, 60))
    && ("summary" in o ==> IsStr(Get(o, "summary"), Len(0, 140)))
  }

  predicate GoodRelease(o: Dict) {
    && IsStr(Get(o, "version"), IsSemver)
    && ("status" in o ==> IsStr(Get(o, "status"), In(STATUSES)))
    && IsStr(Get(o, "category"), In(CATEGORIES))
    && IsStr(Get(o, "min_app_version"), IsSemver)
  }

  predicate GoodSections(o: Dict) {
    && IsObject(Get(o, "requirements"), GoodRequirements)
    && IsObject(Get(o, "pricing"), (p: Dict) => IsFree(p) || IsPaid(p))
    && IsObject(Get(o, "persona"), GoodPersona)
    && ("capabilities" in o ==> IsStrList(Get(o, "capabilities"), In(CAPABILITIES)))
    && ("tools" in o ==> IsObjectList(Get(o, "tools"), GoodTool))
    && ("shared_state" in o ==> IsObjectList(Get(o, "shared_state"), GoodSlot))
    && ("resources" in o ==> IsObject(Get(o, "resources"), GoodResources))
    && ("localization" in o ==> IsObject(Get(o, "localization"), GoodLocalization))
    && ("compatibility" in o ==> IsObject(Get(o, "compatibility"), GoodCompatibility))
    && ("ui" in o ==> IsObject(Get(o, "ui"), GoodUi))
  }

  // ------------------------------------------------------------------ cross-references

  /** A tool's slot list names a slot the manifest does not declare. */
  predicate Dangling(refs: seq<Option<string>>, i: nat, slots: seq<Option<string>>) {
    i < |refs| && refs[i].Some? && refs[i] !in slots
  }

  predicate RepeatsId(n: Names, i: nat) {
    i < |n.panels| && n.panels[i].id.Some? && exists j :: 0 <= j < i && n.panels[j].id == n.panels[i].id
  }

  predicate LocaleMissing(n: Names) {
    n.locale.Some? && n.locale !in n.locales && exists l :: l in n.locales && l.Some?
  }

  predicate SlotsDeclared(refs: seq<Option<string>>, slots: seq<Option<string>>) {
    forall r :: r in refs && r.Some? ==> r in slots
  }

  predicate ReferencesHold(n: Names) {
    && (forall u :: u in n.uses ==> SlotsDeclared(u.read, n.slots) && SlotsDeclared(u.written, n.slots))
    && (forall i, j :: 0 <= i < j < |n.panels| && n.panels[i].id.Some? ==> n.panels[i].id != n.panels[j].id)
    && (forall p :: p in n.panels && p.tool.Some? ==> p.tool in n.tools)
    && (forall p :: p in n.panels && p.state.Some? ==> p.state in n.slots)
    && (n.locale.Some? && (exists l :: l in n.locales && l.Some?) ==> n.locale in n.locales)
  }

  predicate Conforms(o: Dict) {
    GoodIdentity(o) && GoodRelease(o) && GoodSections(o) && ReferencesHold(NamesOf(o))
  }

  // -------------------------------------------------------------- one issue, one place

  predicate SlotFault(refs: seq<Option<string>>, k: nat, slots: seq<Option<string>>, at: Pointer, i: Issue) {
    Dangling(refs, k, slots) && i == Issue(UnknownStateRef, at + [At(k)])
  }

  lemma StateStep(refs: seq<Option<string>>, from: nat, slots: seq<Option<string>>, at: Pointer, i: Issue)
    ensures i in StateIssues(refs, from, slots, at)
            <==> from < |refs|
                 && (SlotFault(refs, from, slots, at, i) || i in StateIssues(refs, from + 1, slots, at))
  {
    assert from < |refs| ==>
        StateIssues(refs, from, slots, at)
            == (if Dangling(refs, from, slots) then Fault(UnknownStateRef, at + [At(from)]) else [])
            + StateIssues(refs, from + 1, slots, at);
  }

  /** A dangling slot is reported exactly at its place in the list. */
  lemma {:induction false} StateIssuesExact(
    refs: seq<Option<string>>, from: nat, slots: seq<Option<string>>, at: Pointer, i: Issue)
    ensures i in StateIssues(refs, from, slots, at)
            <==> exists k :: from <= k < |refs| && SlotFault(refs, k, slots, at, i)
    decreases |refs| - from
  {
    hide StateIssues, SlotFault;
    StateStep(refs, from, slots, at, i);
    if from < |refs| { StateIssuesExact(refs, from + 1, slots, at, i); }
  }

  /** The slots a tool reads, or those it writes, and where they are listed. */
  function Used(u: ToolUse, written: bool): seq<Option<string>> { if written then u.written else u.read }

  function UseAt(tool: nat, written: bool): Pointer {
    [Key("tools"), At(tool), Key(if written then "writes_state" else "reads_state")]
  }

  function PanelAt(panel: nat): Pointer { [Key("ui"), Key("panels"), At(panel)] }

  ghost predicate UseFault(n: Names, i: Issue, t: nat, k: nat) {
    && t < |n.uses|
    && (|| SlotFault(n.uses[t].read, k, n.slots, UseAt(t, false), i)
        || SlotFault(n.uses[t].written, k, n.slots, UseAt(t, true), i))
  }

  ghost predicate ToolFault(n: Names, i: Issue, t: nat) { exists k: nat :: UseFault(n, i, t, k) }

  lemma OneUseExact(n: Names, t: nat, i: Issue)
    requires t < |n.uses|
    ensures || i in StateIssues(n.uses[t].read, 0, n.slots, UseAt(t, false))
            || i in StateIssues(n.uses[t].written, 0, n.slots, UseAt(t, true))
            <==> ToolFault(n, i, t)
  {
    StateIssuesExact(n.uses[t].read, 0, n.slots, UseAt(t, false), i);
    StateIssuesExact(n.uses[t].written, 0, n.slots, UseAt(t, true), i);
    forall k: nat | SlotFault(n.uses[t].read, k, n.slots, UseAt(t, false), i) ensures UseFault(n, i, t, k) {}
    forall k: nat | SlotFault(n.uses[t].written, k, n.slots, UseAt(t, true), i) ensures UseFault(n, i, t, k) {}
  }

  lemma {:induction false} UseIssuesExact(n: Names, from: nat, i: Issue)
    ensures i in UseIssues(n.uses, from, n.slots) <==> exists t :: from <= t < |n.uses| && ToolFault(n, i, t)
    decreases |n.uses| - from
  {
    hide ToolFault;
    if from < |n.uses| {
      UseIssuesExact(n, from + 1, i);
      OneUseExact(n, from, i);
    }
  }

  ghost predicate PanelFault(n: Names, i: Issue, k: nat) {
    && k < |n.panels|
    && ((RepeatsId(n, k) && i == Issue(DuplicatePanelId, PanelAt(k) + [Key("id")]))
        || (n.panels[k].tool.Some? && n.panels[k].tool !in n.tools
            && i == Issue(UnknownToolRef, PanelAt(k) + [Key("binds_tool")]))
        || (n.panels[k].state.Some? && n.panels[k].state !in n.slots
            && i == Issue(UnknownStateRef, PanelAt(k) + [Key("binds_state")])))
  }

  lemma {:induction false} PanelIssuesExact(n: Names, from: nat, seen: set<string>, i: Issue)
    requires from <= |n.panels|
    requires forall id :: id in seen <==> exists j :: 0 <= j < from && n.panels[j].id == Some(id)
    ensures i in PanelRefIssues(n, from, seen) <==> exists k: nat :: from <= k && PanelFault(n, i, k)
    decreases |n.panels| - from
  {
    if from < |n.panels| {
      var p := n.panels[from];
      var next := if p.id.Some? then seen + {p.id.value} else seen;
      PanelIssuesExact(n, from + 1, next, i);
      assert p.id.Some? ==> (p.id.value in seen <==> RepeatsId(n, from));
      assert i in OnePanelRefIssues(n, p, seen, PanelAt(from)) <==> PanelFault(n, i, from);
    }
  }

  /** Every cross-reference issue names one faulty place, and every faulty place is reported. */
  lemma ReferenceIssuesExact(n: Names, i: Issue)
    ensures i in ReferenceIssues(n)
            <==> || (exists t :: 0 <= t < |n.uses| && ToolFault(n, i, t))
                 || (exists k: nat :: PanelFault(n, i, k))
                 || (LocaleMissing(n)
                     && i == Issue(UndeclaredDefaultLocale, [Key("localization"), Key("default_locale")]))
  {
    UseIssuesExact(n, 0, i);
    PanelIssuesExact(n, 0, {}, i);
  }

  /** A panel is reported as a duplicate exactly when an earlier panel has its id. */
  lemma DuplicateReported(n: Names, k: nat)
    ensures Issue(DuplicatePanelId, PanelAt(k) + [Key("id")]) in ReferenceIssues(n) <==> RepeatsId(n, k)
  {
    var i := Issue(DuplicatePanelId, PanelAt(k) + [Key("id")]);
    ReferenceIssuesExact(n, i);
    assert i.at[2] == At(k);
    assert RepeatsId(n, k) ==> PanelFault(n, i, k);
    forall m: nat | PanelFault(n, i, m) ensures m == k {
      assert (PanelAt(m) + [Key("id")])[2] == At(m);
    }
  }

  /** A tool's slot is reported as unknown exactly when the manifest does not declare it. */
  lemma DanglingReported(n: Names, t: nat, written: bool, k: nat)
    ensures Issue(UnknownStateRef, UseAt(t, written) + [At(k)]) in ReferenceIssues(n)
            <==> t < |n.uses| && Dangling(Used(n.uses[t], written), k, n.slots)
  {
    var i := Issue(UnknownStateRef, UseAt(t, written) + [At(k)]);
    hide ReferenceIssues;
    ReferenceIssuesExact(n, i);
    forall u: nat | ToolFault(n, i, u) ensures u == t && Dangling(Used(n.uses[t], written), k, n.slots) {
      var j :| UseFault(n, i, u, j);
      var w := !SlotFault(n.uses[u].read, j, n.slots, UseAt(u, false), i);
      assert SlotFault(Used(n.uses[u], w), j, n.slots, UseAt(u, w), i);
      SamePlace(t, written, k, u, w, j);
    }
    forall p: nat ensures !PanelFault(n, i, p) { PanelElsewhere(t, written, k, p); }
    if t < |n.uses| && Dangling(Used(n.uses[t], written), k, n.slots) {
      assert UseFault(n, i, t, k) && ToolFault(n, i, t);
    }
  }

  lemma SamePlace(t: nat, written: bool, k: nat, u: nat, written': bool, j: nat)
    requires UseAt(t, written) + [At(k)] == UseAt(u, written') + [At(j)]
    ensures t == u && written == written' && k == j
  {
    var a, b := UseAt(t, written) + [At(k)], UseAt(u, written') + [At(j)];
    assert a[1] == b[1] && a[2] == b[2] && a[3] == b[3];
  }

  lemma PanelElsewhere(t: nat, written: bool, k: nat, p: nat)
    ensures forall key :: UseAt(t, written) + [At(k)] != PanelAt(p) + [Key(key)]
  {
    assert (UseAt(t, written) + [At(k)])[0] != PanelAt(p)[0];
    assert forall key :: (PanelAt(p) + [Key(key)])[0] == PanelAt(p)[0];
  }

  /** The cross-references raise no issue exactly when every used slot is declared, panel ids are
      distinct, every bound tool and slot is declared, and a default locale is among the declared ones
      when there are any. */
  lemma ReferencesHoldIff(n: Names)
    ensures ReferenceIssues(n) == [] <==> ReferencesHold(n)
  {
    var all := ReferenceIssues(n);
    if all != [] {
      ReferenceIssuesExact(n, all[0]);
    }
    forall k: nat, i | PanelFault(n, i, k) ensures !ReferencesHold(n) { assert n.panels[k] in n.panels; }
    forall t: nat, k: nat, i | UseFault(n, i, t, k) ensures !ReferencesHold(n) {
      var u := n.uses[t];
      assert u in n.uses;
      assert k < |u.read| ==> u.read[k] in u.read;
      assert k < |u.written| ==> u.written[k] in u.written;
    }
    if !ReferencesHold(n) {
      var i := SomeFault(n);
      ReferenceIssuesExact(n, i);
    }
  }

  lemma SomeDangling(refs: seq<Option<string>>, slots: seq<Option<string>>) returns (k: nat)
    requires !SlotsDeclared(refs, slots)
    ensures Dangling(refs, k, slots)
  {
    var r :| r in refs && r.Some? && r !in slots;
    k :| 0 <= k < |refs| && refs[k] == r;
  }

  /** An issue some broken reference calls for. */
  lemma SomeFault(n: Names) returns (i: Issue)
    requires !ReferencesHold(n)
    ensures (exists t :: 0 <= t < |n.uses| && ToolFault(n, i, t))
            || (exists k: nat :: PanelFault(n, i, k))
            || (LocaleMissing(n)
                && i == Issue(UndeclaredDefaultLocale, [Key("localization"), Key("default_locale")]))
  {
    i := Issue(UndeclaredDefaultLocale, [Key("localization"), Key("default_locale")]);
    if a, b :| 0 <= a < b < |n.panels| && n.panels[a].id.Some? && n.panels[a].id == n.panels[b].id {
      i := Issue(DuplicatePanelId, PanelAt(b) + [Key("id")]);
      assert RepeatsId(n, b);
      assert PanelFault(n, i, b);
    } else if k :| 0 <= k < |n.panels| && n.panels[k].tool.Some? && n.panels[k].tool !in n.tools {
      i := Issue(UnknownToolRef, PanelAt(k) + [Key("binds_tool")]);
      assert PanelFault(n, i, k);
    } else if k :| 0 <= k < |n.panels| && n.panels[k].state.Some? && n.panels[k].state !in n.slots {
      i := Issue(UnknownStateRef, PanelAt(k) + [Key("binds_state")]);
      assert PanelFault(n, i, k);
    } else if !LocaleMissing(n) {
      var u :| u in n.uses && !(SlotsDeclared(u.read, n.slots) && SlotsDeclared(u.written, n.slots));
      var t :| 0 <= t < |n.uses| && n.uses[t] == u;
      if !SlotsDeclared(u.read, n.slots) {
        var k := SomeDangling(u.read, n.slots);
        i := Issue(UnknownStateRef, UseAt(t, false) + [At(k)]);
        assert UseFault(n, i, t, k) && ToolFault(n, i, t);
      } else {
        var k := SomeDangling(u.written, n.slots);
        i := Issue(UnknownStateRef, UseAt(t, true) + [At(k)]);
        assert UseFault(n, i, t, k) && ToolFault(n, i, t);
      }
    }
  }

  // ---------------------------------------------------------------------------- lists

  predicate ItemFault(items: seq<Value>, k: nat, check: ItemCheck, at: Pointer, i: Issue) {
    k < |items| && i in check(items[k], at + [At(k)])
  }

  lemma ItemStep(items: seq<Value>, from: nat, check: ItemCheck, at: Pointer, i: Issue)
    ensures i in ItemIssues(items, from, check, at)
            <==> from < |items|
                 && (ItemFault(items, from, check, at, i) || i in ItemIssues(items, from + 1, check, at))
  {
  }

  /** A list's issues are exactly those of its entries, each at its own index. */
  lemma {:induction false} ItemIssuesExact(items: seq<Value>, from: nat, check: ItemCheck, at: Pointer, i: Issue)
    ensures i in ItemIssues(items, from, check, at)
            <==> exists k :: from <= k < |items| && ItemFault(items, k, check, at, i)
    decreases |items| - from
  {
    hide ItemIssues, ItemFault;
    ItemStep(items, from, check, at, i);
    if from < |items| { ItemIssuesExact(items, from + 1, check, at, i); }
  }

  lemma {:induction false} ItemsClean(items: seq<Value>, from: nat, check: ItemCheck, ok: Value -> bool, at: Pointer)
    requires forall x, p :: check(x, p) == [] <==> ok(x)
    ensures ItemIssues(items, from, check, at) == [] <==> forall k :: from <= k < |items| ==> ok(items[k])
    decreases |items| - from
  {
    if from < |items| { ItemsClean(items, from + 1, check, ok, at); }
  }

  lemma ListClean(v: Option<Value>, check: ItemCheck, ok: Value -> bool, at: Pointer)
    requires forall x, p :: check(x, p) == [] <==> ok(x)
    ensures ListIssues(v, check, at) == [] <==> (v.Some? ==> IsList(v, ok))
  {
    if v.Some? && v.value.Arr? { ItemsClean(v.value.items, 0, check, ok, at); }
  }

  lemma StringsClean(v: Option<Value>, form: Form, bad: Code, at: Pointer)
    ensures ListIssues(v, StrItem(form, bad), at) == [] <==> (v.Some? ==> IsStrList(v, form))
  {
    ListClean(v, StrItem(form, bad), (x: Value) => x.Str? && form(x.s), at);
  }

  lemma ObjectsClean(v: Option<Value>, check: (Dict, Pointer) -> Issues, ok: Dict -> bool, at: Pointer)
    requires forall d, p :: check(d, p) == [] <==> ok(d)
    ensures ListIssues(v, ObjectItem(check), at) == [] <==> (v.Some? ==> IsObjectList(v, ok))
  {
    var good := (x: Value) => x.Obj? && ok(x.members);
    forall x, p ensures ObjectItem(check)(x, p) == [] <==> good(x) {
      if x.Obj? {
        assert ObjectItem(check)(x, p) == check(x.members, p);
        assert check(x.members, p) == [] <==> ok(x.members);
        assert good(x) == ok(x.members);
      } else {
        assert ObjectItem(check)(x, p) == Fault(InvalidType, p);
        assert !good(x);
      }
    }
    ListClean(v, ObjectItem(check), good, at);
  }

  // ------------------------------------------------------------------------- sections

  lemma RequirementsIff(r: Dict, at: Pointer)
    ensures RequirementIssues(r, at) == [] <==> GoodRequirements(r)
  {
  }

  /** Pricing is free with no price, or paid with exactly one of the two price forms, and that one valid. */
  lemma PricingIff(p: Dict, at: Pointer)
    ensures PricingIssues(p, at) == [] <==> IsFree(p) || IsPaid(p)
  {
  }

  lemma ExampleIff(e: Dict, at: Pointer)
    ensures FewShotIssues(e, at) == [] <==> GoodExample(e)
  {
  }

  lemma PersonaIff(p: Dict, at: Pointer)
    ensures PersonaIssues(p, at) == [] <==> GoodPersona(p)
  {
    forall e, q ensures FewShotIssues(e, q) == [] <==> GoodExample(e) { ExampleIff(e, q); }
    ObjectsClean(Get(p, "few_shot"), FewShotIssues, GoodExample, at + [Key("few_shot")]);
  }

  lemma ToolIff(t: Dict, at: Pointer)
    ensures ToolIssues(t, at) == [] <==> GoodTool(t)
  {
    StringsClean(Get(t, "reads_state"), IsIdentName, InvalidFormat, at + [Key("reads_state")]);
    StringsClean(Get(t, "writes_state"), IsIdentName, InvalidFormat, at + [Key("writes_state")]);
  }

  lemma ResourcesIff(r: Dict, at: Pointer)
    ensures ResourceIssues(r, at) == [] <==> GoodResources(r)
  {
    StringsClean(Get(r, "assets"), IsSvgAssetPath, InvalidAssetPath, at + [Key("assets")]);
    StringsClean(Get(r, "strings"), IsLocale, InvalidFormat, at + [Key("strings")]);
  }

  lemma CompatibilityIff(c: Dict, at: Pointer)
    ensures CompatibilityIssues(c, at) == [] <==> GoodCompatibility(c)
  {
    StringsClean(Get(c, "conflicts_with"), IsSkillId, InvalidFormat, at + [Key("conflicts_with")]);
  }

  // --------------------------------------------------------------------------- panels

  lemma {:induction false} KeyIssuesExact(keys: seq<string>, inline: seq<string>, at: Pointer, i: Issue)
    ensures i in KeyIssues(keys, inline, at)
            <==> exists k :: k in keys && k !in CANONICAL_PANEL_KEYS && k !in inline
                             && i == Issue(UnknownProperty, at + [Key(k)])
  {
    if keys != [] {
      KeyIssuesExact(keys[1..], inline, at, i);
      assert keys == [keys[0]] + keys[1..];
    }
  }

  /** For a known widget exactly the keys it has no use for are reported; for any other, none. */
  lemma UnknownKeysExact(p: Dict, at: Pointer, i: Issue)
    ensures i in UnknownKeyIssues(p, at)
            <==> exists k :: StrayKey(p, k) && i == Issue(UnknownProperty, at + [Key(k)])
  {
    AscendingLists(p.Keys);
    if IsStr(Get(p, "type"), In(WIDGET_TYPES)) {
      KeyIssuesExact(Ascending(p.Keys), InlinePropKeys(p["type"].s), at, i);
    }
  }

  lemma UnknownKeysIff(p: Dict, at: Pointer)
    ensures UnknownKeyIssues(p, at) == [] <==> forall key :: key in p ==> !StrayKey(p, key)
  {
    var all := UnknownKeyIssues(p, at);
    if all != [] { UnknownKeysExact(p, at, all[0]); }
    if key :| key in p && StrayKey(p, key) { UnknownKeysExact(p, at, Issue(UnknownProperty, at + [Key(key)])); }
  }

  lemma PlacementIff(p: Dict, at: Pointer)
    ensures PlacementIssues(p, at) == [] <==> GoodPlacement(p)
  {
  }

  lemma BindingsIff(p: Dict, at: Pointer)
    ensures BindingIssues(p, at) == [] <==> GoodBindings(p)
  {
  }

  lemma PanelIff(p: Dict, at: Pointer)
    ensures PanelIssues(p, at) == [] <==> GoodPanel(p)
  {
    PlacementIff(p, at);
    BindingsIff(p, at);
    ListClean(Get(p, "emits"), EmitIssues, GoodEmit, at + [Key("emits")]);
    UnknownKeysIff(p, at);
  }

  lemma UiIff(v: Option<Value>, at: Pointer)
    ensures UiSectionIssues(v, at) == [] <==> (v.Some? ==> IsObject(v, GoodUi))
  {
    if v.Some? && v.value.Obj? {
      forall d, p ensures PanelIssues(d, p) == [] <==> GoodPanel(d) { PanelIff(d, p); }
      ObjectsClean(Get(v.value.members, "panels"), PanelIssues, GoodPanel, at + [Key("panels")]);
    }
  }

  // ------------------------------------------------------------------- whole manifests

  lemma HeaderIff(o: Dict)
    ensures HeaderIssues(o) == [] <==> GoodIdentity(o) && GoodRelease(o)
  {
  }

  lemma TermsIff(o: Dict)
    ensures TermsIssues(o) == []
            <==> && IsObject(Get(o, "requirements"), GoodRequirements)
                 && IsObject(Get(o, "pricing"), (p: Dict) => IsFree(p) || IsPaid(p))
                 && IsObject(Get(o, "persona"), GoodPersona)
  {
    hide RequirementIssues, PricingIssues, PersonaIssues, GoodRequirements, IsFree, IsPaid, GoodPersona;
    forall d, p ensures RequirementIssues(d, p) == [] <==> GoodRequirements(d) { RequirementsIff(d, p); }
    forall d, p ensures PricingIssues(d, p) == [] <==> IsFree(d) || IsPaid(d) { PricingIff(d, p); }
    forall d, p ensures PersonaIssues(d, p) == [] <==> GoodPersona(d) { PersonaIff(d, p); }
  }

  lemma CapabilitiesIff(o: Dict)
    ensures CapabilityIssues(o) == []
            <==> && ("capabilities" in o ==> IsStrList(Get(o, "capabilities"), In(CAPABILITIES)))
                 && ("tools" in o ==> IsObjectList(Get(o, "tools"), GoodTool))
                 && ("shared_state" in o ==> IsObjectList(Get(o, "shared_state"), GoodSlot))
  {
    StringsClean(Get(o, "capabilities"), In(CAPABILITIES), UnknownCapability, [Key("capabilities")]);
    forall d, p ensures ToolIssues(d, p) == [] <==> GoodTool(d) { ToolIff(d, p); }
    ObjectsClean(Get(o, "tools"), ToolIssues, GoodTool, [Key("tools")]);
    ObjectsClean(Get(o, "shared_state"), SlotIssues, GoodSlot, [Key("shared_state")]);
  }

  lemma EnvironmentIff(o: Dict)
    ensures EnvironmentIssues(o) == []
            <==> && ("resources" in o ==> IsObject(Get(o, "resources"), GoodResources))
                 && ("localization" in o ==> IsObject(Get(o, "localization"), GoodLocalization))
                 && ("compatibility" in o ==> IsObject(Get(o, "compatibility"), GoodCompatibility))
                 && ("ui" in o ==> IsObject(Get(o, "ui"), GoodUi))
  {
    hide ResourceIssues, CompatibilityIssues, GoodResources, GoodCompatibility, UiSectionIssues, GoodUi;
    forall d, p ensures ResourceIssues(d, p) == [] <==> GoodResources(d) { ResourcesIff(d, p); }
    forall d, p ensures CompatibilityIssues(d, p) == [] <==> GoodCompatibility(d) { CompatibilityIff(d, p); }
    UiIff(Get(o, "ui"), [Key("ui")]);
  }

  /** The report is empty for exactly the conforming manifests. */
  lemma AcceptedIffConforms(raw: Value)
    ensures ManifestIssues(raw) == [] <==> raw.Obj? && Conforms(raw.members)
  {
    if raw.Obj? {
      hide HeaderIssues, TermsIssues, CapabilityIssues, EnvironmentIssues, ReferenceIssues, NamesOf;
      var o := raw.members;
      HeaderIff(o);
      TermsIff(o);
      CapabilitiesIff(o);
      EnvironmentIff(o);
      ReferencesHoldIff(NamesOf(o));
    }
  }
}
