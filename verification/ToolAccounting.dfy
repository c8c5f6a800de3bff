/** The tool union accounts for every declaration (`compose_tools` in `orchestrator.rs`). */
module ToolAccounting {
  import opened Text
  import opened Json
  import opened Order
  import opened Orchestrator
  import opened OrchestratorLaws

  /** Call names are unambiguous when neither ids nor tool refs contain the separating dot. */
  predicate NoDots(enabled: seq<Skill>) {
    forall s :: s in enabled ==> '.' !in s.id && forall t :: t in s.tools ==> '.' !in t.name
  }

  predicate DeclaresOnce(s: Skill) {
    forall i, j :: 0 <= i < j < |s.tools| ==> s.tools[i].name != s.tools[j].name
  }

  ghost predicate Declares(s: Skill, name: string) { exists t :: t in s.tools && t.name == name }

  predicate Serves(t: ComposedTool, skill: string, name: string) { t.toolRef == name && skill in t.contributors }

  // ----------------------------------------------------------------- declarations

  function All(skills: seq<Skill>): seq<Decl> {
    if skills == [] then [] else DeclsOf(skills[0].id, skills[0].tools) + All(skills[1..])
  }

  lemma {:induction false} GatherAll(byId: map<string, Skill>, skills: seq<Skill>)
    requires forall s :: s in skills ==> s.id in byId && byId[s.id] == s
    ensures Gather(byId, Ids(skills)) == All(skills)
  {
    if skills != [] {
      assert skills[0] in skills && Ids(skills)[0] == skills[0].id;
      assert Ids(skills)[1..] == Ids(skills[1..]);
      GatherAll(byId, skills[1..]);
    }
  }

  lemma {:induction false} DeclsAre(id: string, tools: seq<ToolRef>)
    ensures |DeclsOf(id, tools)| == |tools|
    ensures forall i :: 0 <= i < |tools| ==> DeclsOf(id, tools)[i] == Decl(id, tools[i].name, tools[i].config)
  {
    if tools != [] { DeclsAre(id, tools[1..]); }
  }

  /** A skill of the list declares exactly this. */
  ghost predicate Origin(skills: seq<Skill>, d: Decl) {
    exists s :: s in skills && s.id == d.skill && ToolRef(d.name, d.config) in s.tools
  }

  lemma {:induction false} AllAre(skills: seq<Skill>, d: Decl)
    ensures d in All(skills) <==> Origin(skills, d)
  {
    if skills != [] {
      var s := skills[0];
      AllAre(skills[1..], d);
      DeclsAre(s.id, s.tools);
      assert d in DeclsOf(s.id, s.tools) <==> s.id == d.skill && ToolRef(d.name, d.config) in s.tools by {
        if s.id == d.skill && ToolRef(d.name, d.config) in s.tools {
          var i :| 0 <= i < |s.tools| && s.tools[i] == ToolRef(d.name, d.config);
          assert DeclsOf(s.id, s.tools)[i] == d;
        }
      }
      assert Origin(skills, d) <==>
             (s.id == d.skill && ToolRef(d.name, d.config) in s.tools) || Origin(skills[1..], d) by {
        assert forall x :: x in skills <==> x == s || x in skills[1..];
      }
    }
  }

  /** No skill declares a tool twice. */
  predicate Unrepeated(decls: seq<Decl>) {
    forall i, j :: 0 <= i < j < |decls| ==> decls[i].skill != decls[j].skill || decls[i].name != decls[j].name
  }

  lemma {:induction false} AllUnrepeated(skills: seq<Skill>)
    requires DistinctIds(skills) && forall s :: s in skills ==> DeclaresOnce(s)
    ensures Unrepeated(All(skills))
  {
    if skills != [] {
      var s := skills[0];
      var here, rest := DeclsOf(s.id, s.tools), All(skills[1..]);
      AllUnrepeated(skills[1..]);
      DeclsAre(s.id, s.tools);
      assert s in skills;
      forall j | 0 <= j < |rest| ensures rest[j].skill != s.id {
        AllAre(skills[1..], rest[j]);
        var t :| t in skills[1..] && t.id == rest[j].skill;
        var k :| 0 <= k < |skills[1..]| && skills[1..][k] == t;
        assert skills[k + 1] == t;
      }
      assert Unrepeated(here + rest);
    }
  }

  // ----------------------------------------------------------------------- groups

  lemma {:induction false} GroupIs(decls: seq<Decl>, name: string, d: Decl)
    ensures d in Group(decls, name) <==> d in decls && d.name == name
  {
    if decls != [] { GroupIs(decls[1..], name, d); }
  }

  predicate Apart(g: seq<Decl>) {
    forall i, j :: 0 <= i < j < |g| ==> g[i].skill != g[j].skill
  }

  /** The group's declarations come from different skills. */
  lemma {:induction false} GroupApart(decls: seq<Decl>, name: string)
    requires Unrepeated(decls)
    ensures Apart(Group(decls, name))
  {
    if decls != [] {
      GroupApart(decls[1..], name);
      var g := Group(decls[1..], name);
      if decls[0].name == name {
        forall i | 0 <= i < |g| ensures g[i].skill != decls[0].skill {
          assert g[i] in g;
          GroupIs(decls[1..], name, g[i]);
          var k :| 0 <= k < |decls[1..]| && decls[1..][k] == g[i];
          assert decls[k + 1] == g[i];
        }
        assert Apart([decls[0]] + g);
      }
    }
  }

  lemma {:induction false} ComposeHas(names: seq<string>, decls: seq<Decl>, t: ComposedTool)
    ensures t in Compose(names, decls) <==> exists name :: name in names && t in ToolsFor(name, Group(decls, name))
  {
    if names != [] {
      ComposeHas(names[1..], decls, t);
      assert forall name :: name in names <==> name == names[0] || name in names[1..];
      if t in ToolsFor(names[0], Group(decls, names[0])) { assert names[0] in names; }
      assert t in Compose(names, decls) <==>
        t in ToolsFor(names[0], Group(decls, names[0])) || t in Compose(names[1..], decls);
    }
  }

  lemma ToolsForIs(name: string, g: seq<Decl>, t: ComposedTool)
    ensures t in ToolsFor(name, g) <==>
            if Agree(g) then t == ComposedTool(name, name, Declarers(g), false)
            else exists i :: 0 <= i < |g| && t == ComposedTool(g[i].skill + "." + name, name, [g[i].skill], true)
  {
  }

  // ------------------------------------------------------------------- call names

  /** What stands before the first dot. */
  function Head(s: string): string {
    if s == "" || s[0] == '.' then "" else [s[0]] + Head(s[1..])
  }

  lemma {:induction false} HeadOf(a: string, r: string)
    requires '.' !in a
    ensures Head(a + "." + r) == a
  {
    var s := a + "." + r;
    if a != "" {
      HeadOf(a[1..], r);
      assert s[1..] == a[1..] + "." + r && a == [a[0]] + a[1..];
    }
  }

  /** The dot tells variants of one skill and tool from every other call name. */
  lemma DottedInjective(a: string, r: string, b: string, q: string)
    requires '.' !in a && '.' !in b && a + "." + r == b + "." + q
    ensures a == b && r == q
  {
    HeadOf(a, r);
    HeadOf(b, q);
    assert (a + "." + r)[|a| + 1..] == r && (b + "." + q)[|b| + 1..] == q;
  }

  ghost predicate DistinctCalls(tools: seq<ComposedTool>) {
    forall i, j :: 0 <= i < j < |tools| ==> tools[i].callName != tools[j].callName
  }

  predicate PlainDecls(decls: seq<Decl>) { forall d :: d in decls ==> '.' !in d.skill && '.' !in d.name }

  lemma DotMeansVariant(name: string, g: seq<Decl>, t: ComposedTool)
    requires PlainDecls(g) && '.' !in name && t in ToolsFor(name, g)
    ensures t.toolRef == name && (t.namespaced <==> '.' in t.callName) && (!t.namespaced ==> t.callName == name)
  {
    ToolsForIs(name, g, t);
    if t.namespaced {
      var i :| 0 <= i < |g| && t == ComposedTool(g[i].skill + "." + name, name, [g[i].skill], true);
      assert t.callName[|g[i].skill|] == '.';
    }
  }

  /** A call name determines its tool ref. */
  lemma CallNamesTell(name: string, g: seq<Decl>, t: ComposedTool, other: string, h: seq<Decl>, u: ComposedTool)
    requires PlainDecls(g) && PlainDecls(h) && '.' !in name && '.' !in other
    requires t in ToolsFor(name, g) && u in ToolsFor(other, h) && t.callName == u.callName
    ensures name == other
  {
    DotMeansVariant(name, g, t);
    DotMeansVariant(other, h, u);
    ToolsForIs(name, g, t);
    ToolsForIs(other, h, u);
    if t.namespaced {
      var i :| 0 <= i < |g| && t == ComposedTool(g[i].skill + "." + name, name, [g[i].skill], true);
      var j :| 0 <= j < |h| && u == ComposedTool(h[j].skill + "." + other, other, [h[j].skill], true);
      assert g[i] in g && h[j] in h;
      DottedInjective(g[i].skill, name, h[j].skill, other);
    }
  }

  lemma ToolsForDistinct(name: string, g: seq<Decl>)
    requires PlainDecls(g) && Apart(g)
    ensures DistinctCalls(ToolsFor(name, g))
  {
    if !Agree(g) {
      var out := Variants(name, g);
      forall i, j | 0 <= i < j < |out| ensures out[i].callName != out[j].callName {
        assert g[i] in g && g[j] in g;
        if out[i].callName == out[j].callName { DottedInjective(g[i].skill, name, g[j].skill, name); }
      }
    }
  }

  lemma {:induction false} ComposeDistinct(names: seq<string>, decls: seq<Decl>)
    requires StrictlyAscending(names) && (forall name :: name in names ==> '.' !in name)
    requires PlainDecls(decls) && Unrepeated(decls)
    ensures DistinctCalls(Compose(names, decls))
  {
    if names != [] {
      var name := names[0];
      var g := Group(decls, name);
      var here, rest := ToolsFor(name, g), Compose(names[1..], decls);
      ComposeDistinct(names[1..], decls);
      GroupApart(decls, name);
      GroupPlain(decls, name);
      ToolsForDistinct(name, g);
      forall i, j | 0 <= i < |here| && 0 <= j < |rest| ensures here[i].callName != rest[j].callName {
        assert here[i] in here && rest[j] in rest;
        ComposeHas(names[1..], decls, rest[j]);
        var other :| other in names[1..] && rest[j] in ToolsFor(other, Group(decls, other));
        GroupPlain(decls, other);
        assert name != other;
        if here[i].callName == rest[j].callName {
          CallNamesTell(name, g, here[i], other, Group(decls, other), rest[j]);
        }
      }
    }
  }

  lemma GroupPlain(decls: seq<Decl>, name: string)
    requires PlainDecls(decls)
    ensures PlainDecls(Group(decls, name))
  {
    forall d | d in Group(decls, name) ensures '.' !in d.skill && '.' !in d.name { GroupIs(decls, name, d); }
  }

  // ---------------------------------------------------------------------- sorting

  predicate StrictCalls(tools: seq<ComposedTool>) {
    forall i, j :: 0 <= i < j < |tools| ==>
      Le(tools[i].callName, tools[j].callName) && tools[i].callName != tools[j].callName
  }

  lemma ByCallIsOrdering()
    ensures Ordering(ByCall)
  {
    forall x, y ensures ByCall(x, y) || ByCall(y, x) { LeTotal(x.callName, y.callName); }
    forall x, y, z | ByCall(x, y) && ByCall(y, z) ensures ByCall(x, z) {
      LeTransitive(x.callName, y.callName, z.callName);
    }
  }

  lemma {:induction false} InsertDistinct(x: ComposedTool, s: seq<ComposedTool>)
    requires DistinctCalls(s) && forall t :: t in s ==> t.callName != x.callName
    ensures DistinctCalls(Insert(x, s, ByCall)) && forall t :: t in Insert(x, s, ByCall) <==> t == x || t in s
  {
    if s != [] && !ByCall(x, s[0]) {
      InsertDistinct(x, s[1..]);
      var r := Insert(x, s[1..], ByCall);
      forall j | 0 <= j < |r| ensures r[j].callName != s[0].callName {
        assert r[j] in r;
        if r[j] != x {
          var k :| 0 <= k < |s[1..]| && s[1..][k] == r[j];
          assert s[k + 1] == r[j];
        }
      }
      assert s == [s[0]] + s[1..];
    }
  }

  lemma {:induction false} SortDistinct(s: seq<ComposedTool>)
    requires DistinctCalls(s)
    ensures DistinctCalls(Sort(s, ByCall)) && forall t :: t in Sort(s, ByCall) <==> t in s
  {
    if s != [] {
      SortDistinct(s[1..]);
      forall t | t in s[1..] ensures t.callName != s[0].callName {
        var k :| 0 <= k < |s[1..]| && s[1..][k] == t;
        assert s[k + 1] == t;
      }
      InsertDistinct(s[0], Sort(s[1..], ByCall));
      assert s == [s[0]] + s[1..];
    }
  }

  /** The union holds what each declared ref gives, whatever the declarations. */
  lemma UnionHas(decls: seq<Decl>, t: ComposedTool)
    ensures t in ToolUnion(decls) <==> exists name :: name in Declared(decls) && t in ToolsFor(name, Group(decls, name))
  {
    hide Compose, ToolsFor;
    var names := Ascending(Declared(decls));
    AscendingLists(Declared(decls));
    ByCallIsOrdering();
    SortSorts(Compose(names, decls), ByCall);
    SameMembers(Compose(names, decls), ToolUnion(decls));
    ComposeHas(names, decls, t);
  }

  lemma UnionStrict(decls: seq<Decl>)
    requires PlainDecls(decls) && Unrepeated(decls)
    ensures StrictCalls(ToolUnion(decls))
  {
    hide Compose, ToolsFor, Unrepeated;
    var names := Ascending(Declared(decls));
    AscendingLists(Declared(decls));
    var out := Compose(names, decls);
    ComposeDistinct(names, decls);
    SortDistinct(out);
    ByCallIsOrdering();
    SortSorts(out, ByCall);
  }

  // --------------------------------------------------------------- the accounting

  /** All declarations of the tool agree on its configuration. */
  ghost predicate OneConfig(decls: seq<Decl>, name: string) {
    forall d, e :: d in decls && e in decls && d.name == name && e.name == name ==> d.config == e.config
  }

  lemma AgreeIff(decls: seq<Decl>, name: string)
    ensures Agree(Group(decls, name)) <==> OneConfig(decls, name)
  {
    var g := Group(decls, name);
    forall d ensures d in g <==> d in decls && d.name == name { GroupIs(decls, name, d); }
    if Agree(g) {
      forall d, e | d in decls && e in decls && d.name == name && e.name == name ensures d.config == e.config {
        assert d in g && e in g;
      }
    } else {
      var i, j :| 0 <= i < |g| && 0 <= j < |g| && g[i].config != g[j].config;
      assert g[i] in g && g[j] in g;
    }
  }

  /** Every declaration is served by one tool of the union. */
  lemma Served(decls: seq<Decl>, d: Decl) returns (t: ComposedTool)
    requires d in decls
    ensures t in ToolUnion(decls) && Serves(t, d.skill, d.name)
  {
    var g := Group(decls, d.name);
    GroupIs(decls, d.name, d);
    var i :| 0 <= i < |g| && g[i] == d;
    t := if Agree(g) then ComposedTool(d.name, d.name, Declarers(g), false)
         else ComposedTool(d.skill + "." + d.name, d.name, [d.skill], true);
    ToolsForIs(d.name, g, t);
    assert Declarers(g)[i] == d.skill;
    assert d.name in Declared(decls);
    UnionHas(decls, t);
  }

  /** A tool of the union is what its own ref's group gives. */
  lemma ToolOf(decls: seq<Decl>, t: ComposedTool)
    requires t in ToolUnion(decls)
    ensures t.toolRef in Declared(decls) && t in ToolsFor(t.toolRef, Group(decls, t.toolRef))
    ensures t.namespaced <==> !OneConfig(decls, t.toolRef)
  {
    UnionHas(decls, t);
    var name :| name in Declared(decls) && t in ToolsFor(name, Group(decls, name));
    ToolsForIs(name, Group(decls, name), t);
    AgreeIff(decls, name);
  }

  /** What the model calls it: a shared tool by its ref, a variant by its one skill and the ref. */
  predicate WellNamed(t: ComposedTool) {
    if t.namespaced then |t.contributors| == 1 && t.callName == t.contributors[0] + "." + t.toolRef
    else t.callName == t.toolRef
  }

  lemma Named(decls: seq<Decl>, t: ComposedTool)
    requires t in ToolUnion(decls)
    ensures WellNamed(t)
  {
    ToolOf(decls, t);
    ToolsForIs(t.toolRef, Group(decls, t.toolRef), t);
  }

  lemma ServedOnce(decls: seq<Decl>, t: ComposedTool, u: ComposedTool, skill: string, name: string)
    requires t in ToolUnion(decls) && u in ToolUnion(decls)
    requires Serves(t, skill, name) && Serves(u, skill, name)
    ensures t == u
  {
    ToolOf(decls, t);
    ToolOf(decls, u);
    ToolsForIs(name, Group(decls, name), t);
    ToolsForIs(name, Group(decls, name), u);
  }

  lemma Contributed(decls: seq<Decl>, t: ComposedTool, skill: string)
    requires t in ToolUnion(decls) && skill in t.contributors
    ensures exists d :: d in decls && d.skill == skill && d.name == t.toolRef
  {
    ToolOf(decls, t);
    var g := Group(decls, t.toolRef);
    ToolsForIs(t.toolRef, g, t);
    var i :| 0 <= i < |g| && g[i].skill == skill;
    assert g[i] in g;
    GroupIs(decls, t.toolRef, g[i]);
  }

  lemma GatheredAll(base: string, enabled: seq<Skill>, hint: Option<string>)
    requires DistinctIds(enabled) && Merge(base, enabled, hint).Merged?
    ensures var agent := Merge(base, enabled, hint).agent;
            var arranged := Arranged(enabled, agent.primary);
            && agent.tools == ToolUnion(All(arranged)) && Gather(ById(enabled), agent.order) == All(arranged)
            && DistinctIds(arranged) && forall s :: s in arranged <==> s in enabled
  {
    hide ToolUnion, Gather, Persona, ChoosePrimary, FirstConflict, Secondaries, ById;
    OrderShape(base, enabled, hint);
    var agent := Merge(base, enabled, hint).agent;
    var arranged := Arranged(enabled, agent.primary);
    SameMembers(enabled, arranged);
    DistinctPermuted(enabled, arranged);
    forall s | s in arranged ensures s.id in ById(enabled) && ById(enabled)[s.id] == s {
      ByIdFinds(enabled, s.id);
      FindSkillFinds(enabled, s.id);
      DistinctSame(enabled, s, FindSkill(enabled, s.id).value);
    }
    GatherAll(ById(enabled), arranged);
  }

  /** The declarations behind an agent are those of its skills. */
  lemma AgentDecls(base: string, enabled: seq<Skill>, hint: Option<string>) returns (decls: seq<Decl>)
    requires DistinctIds(enabled) && Merge(base, enabled, hint).Merged?
    ensures var agent := Merge(base, enabled, hint).agent;
            agent.tools == ToolUnion(decls) && decls == Gather(ById(enabled), agent.order)
    ensures forall d :: d in decls <==> Origin(enabled, d)
    ensures (forall s :: s in enabled ==> DeclaresOnce(s)) ==> Unrepeated(decls)
    ensures NoDots(enabled) ==> PlainDecls(decls)
  {
    hide ToolUnion, Gather, ById, Merge, Unrepeated, All;
    GatheredAll(base, enabled, hint);
    var arranged := Arranged(enabled, Merge(base, enabled, hint).agent.primary);
    decls := All(arranged);
    if forall s :: s in enabled ==> DeclaresOnce(s) { AllUnrepeated(arranged); }
    forall d ensures d in decls <==> Origin(enabled, d) { AllAre(arranged, d); }
    if NoDots(enabled) {
      forall d | d in decls ensures '.' !in d.skill && '.' !in d.name { assert Origin(enabled, d); }
    }
  }

  /** Some enabled skill declares the tool with this configuration. */
  ghost predicate Configured(enabled: seq<Skill>, name: string, config: Value) {
    exists s :: s in enabled && ToolRef(name, config) in s.tools
  }

  /** Two declarations of the tool, in one skill or two, differ in configuration. */
  ghost predicate Disputed(enabled: seq<Skill>, name: string) {
    exists c, d :: Configured(enabled, name, c) && Configured(enabled, name, d) && c != d
  }

  lemma ConfiguredIff(enabled: seq<Skill>, decls: seq<Decl>, name: string, config: Value)
    requires forall d :: d in decls <==> Origin(enabled, d)
    ensures Configured(enabled, name, config) <==> exists d :: d in decls && d.name == name && d.config == config
  {
    if Configured(enabled, name, config) {
      var s :| s in enabled && ToolRef(name, config) in s.tools;
      assert Origin(enabled, Decl(s.id, name, config));
    }
    if d :| d in decls && d.name == name && d.config == config {
      assert Origin(enabled, d);
    }
  }

  lemma DisputedIff(enabled: seq<Skill>, decls: seq<Decl>, name: string)
    requires forall d :: d in decls <==> Origin(enabled, d)
    ensures Disputed(enabled, name) <==> !OneConfig(decls, name)
  {
    hide Configured, Origin;
    forall c ensures Configured(enabled, name, c) <==> exists d :: d in decls && d.name == name && d.config == c {
      ConfiguredIff(enabled, decls, name, c);
    }
    if Disputed(enabled, name) {
      var c, e :| Configured(enabled, name, c) && Configured(enabled, name, e) && c != e;
    } else {
      forall d, e | d in decls && e in decls && d.name == name && e.name == name ensures d.config == e.config {
        assert Configured(enabled, name, d.config) && Configured(enabled, name, e.config);
      }
    }
  }

  /** One tool of the union, and only one, serves this skill's declaration. */
  ghost predicate ServedByOne(tools: seq<ComposedTool>, skill: string, name: string) {
    exists t :: t in tools && Serves(t, skill, name) && forall u :: u in tools && Serves(u, skill, name) ==> u == t
  }

  lemma EachServedOnce(enabled: seq<Skill>, decls: seq<Decl>, s: Skill, name: string)
    requires forall d :: d in decls <==> Origin(enabled, d)
    requires s in enabled && Declares(s, name)
    ensures ServedByOne(ToolUnion(decls), s.id, name)
  {
    hide ToolUnion;
    var r :| r in s.tools && r.name == name;
    var d := Decl(s.id, name, r.config);
    assert ToolRef(name, r.config) == r;
    assert Origin(enabled, d);
    var t := Served(decls, d);
    forall u | u in ToolUnion(decls) && Serves(u, s.id, name) ensures u == t { ServedOnce(decls, u, t, s.id, name); }
  }

  lemma NoneInvented(enabled: seq<Skill>, decls: seq<Decl>, t: ComposedTool, c: string)
    requires forall d :: d in decls <==> Origin(enabled, d)
    requires t in ToolUnion(decls) && c in t.contributors
    ensures exists s :: s in enabled && s.id == c && Declares(s, t.toolRef)
  {
    hide ToolUnion;
    Contributed(decls, t, c);
    var d :| d in decls && d.skill == c && d.name == t.toolRef;
    assert Origin(enabled, d);
    var s :| s in enabled && s.id == d.skill && ToolRef(d.name, d.config) in s.tools;
    assert Declares(s, t.toolRef);
  }

  /** With distinct ids, each skill declaring a tool at most once, and no dots in ids or refs: call names
      are strictly increasing and say what they name, every declared (skill, ref) pair is served by exactly
      one tool, no contributor is invented, and a tool is shared exactly when all its declarers agree on
      the configuration. */
  lemma ToolsAccounted(base: string, enabled: seq<Skill>, hint: Option<string>)
    requires DistinctIds(enabled) && NoDots(enabled) && (forall s :: s in enabled ==> DeclaresOnce(s))
    requires Merge(base, enabled, hint).Merged?
    ensures var tools := Merge(base, enabled, hint).agent.tools;
            && StrictCalls(tools) && (forall t :: t in tools ==> WellNamed(t))
            && (forall s, name :: s in enabled && Declares(s, name) ==> ServedByOne(tools, s.id, name))
            && (forall t, c :: t in tools && c in t.contributors ==>
                  exists s :: s in enabled && s.id == c && Declares(s, t.toolRef))
            && (forall t :: t in tools ==> (t.namespaced <==> Disputed(enabled, t.toolRef)))
  {
    hide ToolUnion, Merge, Unrepeated, PlainDecls, NoDots, DeclaresOnce, Declares, ServedByOne, Disputed,
      Origin;
    var decls := AgentDecls(base, enabled, hint);
    var tools := ToolUnion(decls);
    UnionStrict(decls);
    forall s, name | s in enabled && Declares(s, name) ensures ServedByOne(tools, s.id, name) {
      EachServedOnce(enabled, decls, s, name);
    }
    forall t, c | t in tools && c in t.contributors
      ensures exists s :: s in enabled && s.id == c && Declares(s, t.toolRef)
    {
      NoneInvented(enabled, decls, t, c);
    }
    forall t | t in tools ensures (t.namespaced <==> Disputed(enabled, t.toolRef)) && WellNamed(t) {
      Named(decls, t);
      ToolOf(decls, t);
      DisputedIff(enabled, decls, t.toolRef);
    }
  }

  // ------------------------------------------------------------ who shares a tool

  predicate DeclaresName(s: Skill, name: string) { exists t :: t in s.tools && t.name == name }

  /** The ids of the skills that declare the tool, in the given order. */
  function DeclaringIds(skills: seq<Skill>, name: string): seq<string> {
    if skills == [] then []
    else (if DeclaresName(skills[0], name) then [skills[0].id] else []) + DeclaringIds(skills[1..], name)
  }

  lemma {:induction false} GroupConcat(a: seq<Decl>, b: seq<Decl>, name: string)
    ensures Group(a + b, name) == Group(a, name) + Group(b, name)
  {
    if a == [] {
      assert a + b == b;
    } else {
      assert (a + b)[1..] == a[1..] + b;
      GroupConcat(a[1..], b, name);
    }
  }

  lemma {:induction false} OwnGroup(id: string, tools: seq<ToolRef>, name: string)
    requires forall i, j :: 0 <= i < j < |tools| ==> tools[i].name != tools[j].name
    ensures Declarers(Group(DeclsOf(id, tools), name)) == if exists t :: t in tools && t.name == name then [id] else []
  {
    if tools != [] {
      OwnGroup(id, tools[1..], name);
      assert forall t :: t in tools <==> t == tools[0] || t in tools[1..];
      if tools[0].name == name {
        assert forall t :: t in tools[1..] ==> t.name != name;
      }
    }
  }

  lemma {:induction false} GroupDeclarers(skills: seq<Skill>, name: string)
    requires forall s :: s in skills ==> DeclaresOnce(s)
    ensures Declarers(Group(All(skills), name)) == DeclaringIds(skills, name)
  {
    hide Group, Declarers, DeclsOf;
    if skills == [] {
      NoDeclarers(name);
    } else {
      var s := skills[0];
      assert s in skills && forall x :: x in skills[1..] ==> x in skills;
      GroupDeclarers(skills[1..], name);
      OwnGroup(s.id, s.tools, name);
      GroupConcat(DeclsOf(s.id, s.tools), All(skills[1..]), name);
      DeclarersConcat(Group(DeclsOf(s.id, s.tools), name), Group(All(skills[1..]), name));
    }
  }

  lemma NoDeclarers(name: string)
    ensures Declarers(Group([], name)) == []
  {
  }

  lemma DeclarersConcat(a: seq<Decl>, b: seq<Decl>)
    ensures Declarers(a + b) == Declarers(a) + Declarers(b)
  {
  }

  /** A shared tool lists its contributors completely and in merge order. */
  lemma SharedInMergeOrder(base: string, enabled: seq<Skill>, hint: Option<string>, t: ComposedTool)
    requires DistinctIds(enabled) && (forall s :: s in enabled ==> DeclaresOnce(s))
             && Merge(base, enabled, hint).Merged?
    requires t in Merge(base, enabled, hint).agent.tools && !t.namespaced
    ensures t.contributors == DeclaringIds(Arranged(enabled, Merge(base, enabled, hint).agent.primary), t.toolRef)
  {
    hide ToolUnion, Merge, Arranged, All, DeclaresOnce;
    GatheredAll(base, enabled, hint);
    var arranged := Arranged(enabled, Merge(base, enabled, hint).agent.primary);
    ToolOf(All(arranged), t);
    ToolsForIs(t.toolRef, Group(All(arranged), t.toolRef), t);
    GroupDeclarers(arranged, t.toolRef);
  }
}
