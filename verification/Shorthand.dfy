/** What merging makes of a tool configuration that is filled in where it was omitted, and of other costs
    (`orchestrator.rs`): nothing but the tools can change, and those only where an omitted configuration
    met an empty one. */
module Shorthand {
  import opened Text
  import opened Json
  import opened Order
  import opened Orchestrator
  import opened ToolAccounting

  // ------------------------------------------------------- filling in configurations

  /** An omitted configuration is `Null` in the merge view and `{}` in the canonical form. */
  function Fill(config: Value): Value { if config.Null? then Obj(map[]) else config }

  function FillRefs(tools: seq<ToolRef>): seq<ToolRef> {
    seq(|tools|, (i: nat) requires i < |tools| => ToolRef(tools[i].name, Fill(tools[i].config)))
  }

  /** What a skill is charged when it is composed from its canonical form. */
  type Costing = Skill -> Cost

  function FillSkill(s: Skill, f: Costing): Skill { s.(tools := FillRefs(s.tools), cost := f(s)) }

  function FillAll(skills: seq<Skill>, f: Costing): seq<Skill> {
    seq(|skills|, (i: nat) requires i < |skills| => FillSkill(skills[i], f))
  }

  function FillDecls(decls: seq<Decl>): seq<Decl> {
    seq(|decls|, (i: nat) requires i < |decls| => decls[i].(config := Fill(decls[i].config)))
  }

  lemma FillAllCons(skills: seq<Skill>, f: Costing)
    requires skills != []
    ensures FillAll(skills, f)[0] == FillSkill(skills[0], f) && FillAll(skills, f)[1..] == FillAll(skills[1..], f)
    ensures FillAll(skills, f) == [FillSkill(skills[0], f)] + FillAll(skills[1..], f)
  {
  }

  lemma FillDeclsCons(decls: seq<Decl>)
    requires decls != []
    ensures FillDecls(decls)[1..] == FillDecls(decls[1..])
    ensures FillDecls(decls) == [decls[0].(config := Fill(decls[0].config))] + FillDecls(decls[1..])
  {
  }

  // ------------------------------------------- everything but the tools is unaffected

  function MapSkill(s: Option<Skill>, f: Costing): Option<Skill> { if s.Some? then Some(FillSkill(s.value, f))
      else None }

  lemma {:induction false} PartnerFill(e: seq<Skill>, i: nat, j: nat, f: Costing)
    requires i < |e|
    ensures Partner(FillAll(e, f), i, j) == Partner(e, i, j)
    decreases |e| - j
  {
    if j < |e| { PartnerFill(e, i, j + 1, f); }
  }

  lemma {:induction false} ConflictFill(e: seq<Skill>, i: nat, f: Costing)
    ensures FirstConflict(FillAll(e, f), i) == FirstConflict(e, i)
    decreases |e| - i
  {
    if i < |e| {
      PartnerFill(e, i, i + 1, f);
      ConflictFill(e, i + 1, f);
    }
  }

  lemma {:induction false} FindFill(e: seq<Skill>, id: string, f: Costing)
    ensures FindSkill(FillAll(e, f), id) == MapSkill(FindSkill(e, id), f)
  {
    if e != [] {
      FillAllCons(e, f);
      FindFill(e[1..], id, f);
    }
  }

  lemma {:induction false} EligibleFill(e: seq<Skill>, f: Costing)
    ensures Eligible(FillAll(e, f)) == FillAll(Eligible(e), f)
  {
    if e != [] {
      FillAllCons(e, f);
      EligibleFill(e[1..], f);
    }
  }

  lemma {:induction false} BestFill(acc: Skill, rest: seq<Skill>, f: Costing)
    ensures Best(FillSkill(acc, f), FillAll(rest, f)) == FillSkill(Best(acc, rest), f)
    decreases rest
  {
    if rest != [] {
      FillAllCons(rest, f);
      BestFill(if Rank(rest[0], acc) then rest[0] else acc, rest[1..], f);
    }
  }

  lemma PrimaryFill(e: seq<Skill>, hint: Option<string>, f: Costing)
    ensures ChoosePrimary(FillAll(e, f), hint) == ChoosePrimary(e, hint)
  {
    if hint.Some? { FindFill(e, hint.value, f); }
    EligibleFill(e, f);
    var c := Eligible(e);
    if c != [] {
      FillAllCons(c, f);
      BestFill(c[0], c[1..], f);
    }
  }

  lemma {:induction false} OthersFill(e: seq<Skill>, p: Option<string>, f: Costing)
    ensures Others(FillAll(e, f), p) == FillAll(Others(e, p), f)
  {
    if e != [] {
      FillAllCons(e, f);
      OthersFill(e[1..], p, f);
    }
  }

  lemma {:induction false} InsertFill(x: Skill, s: seq<Skill>, f: Costing)
    ensures Insert(FillSkill(x, f), FillAll(s, f), Rank) == FillAll(Insert(x, s, Rank), f)
  {
    if s != [] {
      FillAllCons(s, f);
      if !Rank(x, s[0]) { InsertFill(x, s[1..], f); }
    }
  }

  lemma {:induction false} SortFill(s: seq<Skill>, f: Costing)
    ensures Sort(FillAll(s, f), Rank) == FillAll(Sort(s, Rank), f)
  {
    if s != [] {
      FillAllCons(s, f);
      SortFill(s[1..], f);
      InsertFill(s[0], Sort(s[1..], Rank), f);
    }
  }

  lemma {:induction false} MentionsFill(s: seq<Skill>, f: Costing)
    ensures Mentions(FillAll(s, f)) == Mentions(s)
  {
    if s != [] {
      FillAllCons(s, f);
      MentionsFill(s[1..], f);
    }
  }

  // ------------------------------------------------------------------------ tools

  lemma {:induction false} ByIdFill(e: seq<Skill>, f: Costing)
    ensures ById(FillAll(e, f)).Keys == ById(e).Keys
    ensures forall id :: id in ById(e) ==> ById(FillAll(e, f))[id] == FillSkill(ById(e)[id], f)
  {
    if e != [] {
      var n := |e| - 1;
      assert FillAll(e, f)[..n] == FillAll(e[..n], f);
      ByIdFill(e[..n], f);
    }
  }

  lemma {:induction false} DeclsOfFill(id: string, tools: seq<ToolRef>)
    ensures DeclsOf(id, FillRefs(tools)) == FillDecls(DeclsOf(id, tools))
  {
    if tools != [] {
      assert FillRefs(tools)[1..] == FillRefs(tools[1..]);
      DeclsOfFill(id, tools[1..]);
    }
  }

  lemma FillDeclsAppend(a: seq<Decl>, b: seq<Decl>)
    ensures FillDecls(a + b) == FillDecls(a) + FillDecls(b)
  {
  }

  lemma {:induction false} GatherFill(e: seq<Skill>, order: seq<string>, f: Costing)
    ensures Gather(ById(FillAll(e, f)), order) == FillDecls(Gather(ById(e), order))
  {
    hide FillDecls;
    ByIdFill(e, f);
    if order == [] {
      assert FillDecls([]) == [] by { FillNothing(); }
    } else {
      GatherFill(e, order[1..], f);
      FillNothing();
      if order[0] in ById(e) {
        var s := ById(e)[order[0]];
        DeclsOfFill(s.id, s.tools);
        FillDeclsAppend(DeclsOf(s.id, s.tools), Gather(ById(e), order[1..]));
      } else {
        FillDeclsAppend([], Gather(ById(e), order[1..]));
      }
    }
  }

  lemma FillNothing()
    ensures FillDecls([]) == []
  {
  }

  lemma {:induction false} GroupFill(decls: seq<Decl>, name: string)
    ensures Group(FillDecls(decls), name) == FillDecls(Group(decls, name))
  {
    if decls != [] {
      FillDeclsCons(decls);
      GroupFill(decls[1..], name);
    }
  }

  lemma NamesFill(decls: seq<Decl>)
    ensures Declared(FillDecls(decls)) == Declared(decls)
  {
    var f := FillDecls(decls);
    forall name ensures name in Declared(f) <==> name in Declared(decls) {
      if name in Declared(decls) {
        var d :| d in decls && d.name == name;
        var i :| 0 <= i < |decls| && decls[i] == d;
        assert f[i] in f && f[i].name == name;
      }
      if name in Declared(f) {
        var d :| d in f && d.name == name;
        var i :| 0 <= i < |f| && f[i] == d;
        assert decls[i] in decls && decls[i].name == name;
      }
    }
  }

  lemma ToolsForFill(name: string, g: seq<Decl>)
    requires Agree(g) == Agree(FillDecls(g))
    ensures ToolsFor(name, FillDecls(g)) == ToolsFor(name, g)
  {
    assert Declarers(FillDecls(g)) == Declarers(g);
    assert Variants(name, FillDecls(g)) == Variants(name, g);
  }

  lemma {:induction false} ComposeFill(names: seq<string>, decls: seq<Decl>)
    requires forall name :: name in names ==> (OneConfig(decls, name) <==> OneConfig(FillDecls(decls), name))
    ensures Orchestrator.Compose(names, FillDecls(decls)) == Orchestrator.Compose(names, decls)
  {
    hide FillDecls, OneConfig, Agree, ToolsFor;
    if names != [] {
      var name := names[0];
      ComposeFill(names[1..], decls);
      AgreeIff(decls, name);
      AgreeIff(FillDecls(decls), name);
      GroupFill(decls, name);
      ToolsForFill(name, Group(decls, name));
    }
  }

  /** Filling in leaves the union alone exactly when it settles no dispute. */
  lemma UnionFill(decls: seq<Decl>)
    ensures ToolUnion(FillDecls(decls)) == ToolUnion(decls) <==>
            forall name :: name in Declared(decls) ==> (OneConfig(decls, name) <==> OneConfig(FillDecls(decls), name))
  {
    hide FillDecls, OneConfig, Orchestrator.Compose, Declared;
    var filled := FillDecls(decls);
    NamesFill(decls);
    AscendingLists(Declared(decls));
    if forall name :: name in Declared(decls) ==> (OneConfig(decls, name) <==> OneConfig(filled, name)) {
      ComposeFill(Ascending(Declared(decls)), decls);
    }
    if ToolUnion(filled) == ToolUnion(decls) {
      forall name | name in Declared(decls) ensures OneConfig(decls, name) <==> OneConfig(filled, name) {
        UnionTells(decls, filled, name);
      }
    }
  }

  lemma UnionTells(decls: seq<Decl>, filled: seq<Decl>, name: string)
    requires ToolUnion(decls) == ToolUnion(filled) && name in Declared(decls)
    ensures OneConfig(decls, name) <==> OneConfig(filled, name)
  {
    hide ToolUnion, OneConfig;
    var d :| d in decls && d.name == name;
    var t := Served(decls, d);
    ToolOf(decls, t);
    ToolOf(filled, t);
  }

  /** A tool all of whose declarations omit the configuration or leave it empty, some each way. */
  ghost predicate OmittedVsEmpty(enabled: seq<Skill>, name: string) {
    && Configured(enabled, name, Null) && Configured(enabled, name, Obj(map[]))
    && forall c :: Configured(enabled, name, c) ==> Fill(c) == Obj(map[])
  }

  lemma FilledConfigs(decls: seq<Decl>, name: string)
    ensures OneConfig(FillDecls(decls), name) <==>
            forall d, e :: d in decls && e in decls && d.name == name && e.name == name ==>
              Fill(d.config) == Fill(e.config)
  {
    var f := FillDecls(decls);
    if OneConfig(f, name) {
      forall d, e | d in decls && e in decls && d.name == name && e.name == name
        ensures Fill(d.config) == Fill(e.config)
      {
        var i :| 0 <= i < |decls| && decls[i] == d;
        var j :| 0 <= j < |decls| && decls[j] == e;
        assert f[i] in f && f[j] in f;
      }
    } else {
      var d, e :| d in f && e in f && d.name == name && e.name == name && d.config != e.config;
      var i :| 0 <= i < |f| && f[i] == d;
      var j :| 0 <= j < |f| && f[j] == e;
      assert decls[i] in decls && decls[j] in decls;
    }
  }

  lemma SettlesIff(enabled: seq<Skill>, decls: seq<Decl>, name: string)
    requires forall d :: d in decls <==> Origin(enabled, d)
    ensures (OneConfig(decls, name) <==> OneConfig(FillDecls(decls), name)) <==> !OmittedVsEmpty(enabled, name)
  {
    hide Configured, Origin, FillDecls;
    forall c ensures Configured(enabled, name, c) <==> exists d :: d in decls && d.name == name && d.config == c {
      ConfiguredIff(enabled, decls, name, c);
    }
    FilledConfigs(decls, name);
    if OmittedVsEmpty(enabled, name) {
      var d :| d in decls && d.name == name && d.config == Null;
      var e :| e in decls && e.name == name && e.config == Obj(map[]);
    }
  }

  // --------------------------------------------------------------------- merging

  lemma ConflictSame(base: string, e: seq<Skill>, hint: Option<string>, f: Costing)
    ensures Merge(base, e, hint).Conflict? <==> Merge(base, FillAll(e, f), hint).Conflict?
    ensures Merge(base, e, hint).Conflict? ==> Merge(base, FillAll(e, f), hint) == Merge(base, e, hint)
  {
    hide ToolUnion, Gather, ById, ChoosePrimary, FirstConflict, Arranged, Persona;
    ConflictFill(e, 0, f);
    ConflictFound(e, 0);
  }

  lemma ArrangedFill(e: seq<Skill>, p: Option<string>, f: Costing)
    ensures Ids(Arranged(FillAll(e, f), p)) == Ids(Arranged(e, p))
    ensures Secondaries(FillAll(e, f), p) == FillAll(Secondaries(e, p), f)
            && Leader(FillAll(e, f), p) == MapSkill(Leader(e, p), f)
  {
    hide FindSkill, Others;
    OthersFill(e, p, f);
    SortFill(Others(e, p), f);
    if p.Some? { FindFill(e, p.value, f); }
  }

  lemma PersonaFill(base: string, e: seq<Skill>, p: Option<string>, f: Costing)
    ensures Persona(base, Leader(FillAll(e, f), p), Secondaries(FillAll(e, f), p))
            == Persona(base, Leader(e, p), Secondaries(e, p))
  {
    hide Leader, Secondaries, Mentions;
    ArrangedFill(e, p, f);
    MentionsFill(Secondaries(e, p), f);
  }

  lemma AgentFill(base: string, e: seq<Skill>, hint: Option<string>, f: Costing)
    requires Merge(base, e, hint).Merged?
    ensures var raw := Merge(base, e, hint).agent;
            Merge(base, FillAll(e, f), hint) == Merged(raw.(tools := ToolUnion(FillDecls(Gather(ById(e), raw.order)))))
  {
    hide ToolUnion, Gather, ById, ChoosePrimary, FirstConflict, Arranged, Persona, Leader, Secondaries,
      FillDecls;
    ConflictSame(base, e, hint, f);
    PrimaryFill(e, hint, f);
    var p := ChoosePrimary(e, hint);
    ArrangedFill(e, p, f);
    PersonaFill(base, e, p, f);
    GatherFill(e, Ids(Arranged(e, p)), f);
  }

  /** Filling in the configurations changes neither the outcome of merging nor the order, the leader and
      the persona; the tools change exactly when some tool is only omitted-or-empty, both ways. */
  lemma MergeFill(base: string, e: seq<Skill>, hint: Option<string>, f: Costing)
    requires DistinctIds(e)
    ensures var raw := Merge(base, e, hint);
            var filled := Merge(base, FillAll(e, f), hint);
            && (raw.Conflict? ==> filled == raw)
            && (raw.Merged? ==>
                  && filled.Merged? && filled.agent == raw.agent.(tools := filled.agent.tools)
                  && (filled.agent.tools == raw.agent.tools <==> forall name :: !OmittedVsEmpty(e, name)))
  {
    hide Merge, ToolUnion, Gather, ById, OmittedVsEmpty, OneConfig, Origin, FillDecls, Declared;
    ConflictSame(base, e, hint, f);
    if Merge(base, e, hint).Merged? {
      AgentFill(base, e, hint, f);
      var decls := AgentDecls(base, e, hint);
      UnionFill(decls);
      forall name | OmittedVsEmpty(e, name) ensures name in Declared(decls) { OmittedIsDeclared(e, decls, name); }
      forall name ensures name in Declared(decls) ==>
        ((OneConfig(decls, name) <==> OneConfig(FillDecls(decls), name)) <==> !OmittedVsEmpty(e, name)) {
        SettlesIff(e, decls, name);
      }
    }
  }

  lemma OmittedIsDeclared(e: seq<Skill>, decls: seq<Decl>, name: string)
    requires OmittedVsEmpty(e, name) && forall d :: d in decls <==> Origin(e, d)
    ensures name in Declared(decls)
  {
    ConfiguredIff(e, decls, name, Null);
  }
}
