/** Merging the enabled skills into one agent (`orchestrator.rs`): conflicts, the leading voice, the
    merge order, the persona and the tool union. */
module Orchestrator {
  import opened Text
  import opened Json
  import opened Order
  import opened Scanner

  datatype Role = PrimaryEligible | SecondaryOnly
  datatype ToolRef = ToolRef(name: string, config: Value)

  const U32_MAX: int := 0xFFFF_FFFF
  type U32 = n: int | 0 <= n <= U32_MAX

  datatype Cost = Cost(promptTokens: U32, tools: U32, panels: U32)

  datatype Skill = Skill(
    id: string, role: Role, systemPrompt: string, compressedPrompt: string, tools: seq<ToolRef>,
    priority: int, conflicts: seq<string>, cost: Cost)

  datatype ComposedTool = ComposedTool(callName: string, toolRef: string, contributors: seq<string>, namespaced: bool)
  datatype Agent = Agent(order: seq<string>, primary: Option<string>, persona: string, tools: seq<ComposedTool>)
  datatype MergeResult = Merged(agent: Agent) | Conflict(a: string, b: string)

  predicate DistinctIds(enabled: seq<Skill>) {
    forall i, j :: 0 <= i < j < |enabled| ==> enabled[i].id != enabled[j].id
  }

  // -------------------------------------------------------------------- conflicts

  predicate Blocks(a: Skill, b: Skill) { b.id in a.conflicts || a.id in b.conflicts }

  /** The first skill from `j` on that cannot be combined with skill `i`. */
  function Partner(enabled: seq<Skill>, i: nat, j: nat): Option<nat>
    requires i < |enabled|
    decreases |enabled| - j
  {
    if j >= |enabled| then None
    else if Blocks(enabled[i], enabled[j]) then Some(j)
    else Partner(enabled, i, j + 1)
  }

  function FirstConflict(enabled: seq<Skill>, i: nat): Option<(nat, nat)>
    decreases |enabled| - i
  {
    if i >= |enabled| then None
    else if Partner(enabled, i, i + 1).Some? then Some((i, Partner(enabled, i, i + 1).value))
    else FirstConflict(enabled, i + 1)
  }

  lemma {:induction false} PartnerFound(enabled: seq<Skill>, i: nat, j: nat)
    requires i < |enabled|
    ensures var r := Partner(enabled, i, j);
            && (r.Some? ==> j <= r.value < |enabled| && Blocks(enabled[i], enabled[r.value]))
            && (r.None? ==> forall k :: j <= k < |enabled| ==> !Blocks(enabled[i], enabled[k]))
    decreases |enabled| - j
  {
    if j < |enabled| { PartnerFound(enabled, i, j + 1); }
  }

  lemma {:induction false} ConflictFound(enabled: seq<Skill>, i: nat)
    ensures var r := FirstConflict(enabled, i);
            && (r.Some? ==> i <= r.value.0 < r.value.1 < |enabled| && Blocks(enabled[r.value.0], enabled[r.value.1]))
            && (r.None? ==> forall j, k :: i <= j < k < |enabled| ==> !Blocks(enabled[j], enabled[k]))
    decreases |enabled| - i
  {
    if i < |enabled| {
      PartnerFound(enabled, i, i + 1);
      ConflictFound(enabled, i + 1);
    }
  }

  /** No two of the enabled skills name each other; a skill naming itself is no conflict. */
  ghost predicate Compatible(enabled: seq<Skill>) {
    forall a, b :: a in enabled && b in enabled && a.id != b.id ==> !Blocks(a, b)
  }

  lemma CompatibleIff(enabled: seq<Skill>)
    requires DistinctIds(enabled)
    ensures FirstConflict(enabled, 0) == None <==> Compatible(enabled)
  {
    ConflictFound(enabled, 0);
    var r := FirstConflict(enabled, 0);
    if r.Some? {
      var a, b := enabled[r.value.0], enabled[r.value.1];
      assert a in enabled && b in enabled && a.id != b.id && Blocks(a, b);
    } else {
      forall a, b | a in enabled && b in enabled && a.id != b.id ensures !Blocks(a, b) {
        var i :| 0 <= i < |enabled| && enabled[i] == a;
        var j :| 0 <= j < |enabled| && enabled[j] == b;
        assert !Blocks(enabled[if i < j then i else j], enabled[if i < j then j else i]);
      }
    }
  }

  // ---------------------------------------------------------------------- primary

  /** Merge order: higher priority first, ties by id. */
  predicate Rank(a: Skill, b: Skill) {
    a.priority > b.priority || (a.priority == b.priority && Le(a.id, b.id))
  }

  function FindSkill(enabled: seq<Skill>, id: string): Option<Skill> {
    if enabled == [] then None
    else if enabled[0].id == id then Some(enabled[0])
    else FindSkill(enabled[1..], id)
  }

  function Eligible(enabled: seq<Skill>): seq<Skill> {
    if enabled == [] then []
    else if enabled[0].role.PrimaryEligible? then [enabled[0]] + Eligible(enabled[1..])
    else Eligible(enabled[1..])
  }

  /** `max_by`: the last of the greatest; greatest is best ranked here. */
  function Best(acc: Skill, rest: seq<Skill>): Skill
    decreases rest
  {
    if rest == [] then acc else Best(if Rank(rest[0], acc) then rest[0] else acc, rest[1..])
  }

  function ChoosePrimary(enabled: seq<Skill>, hint: Option<string>): Option<string> {
    var hinted := if hint.Some? then FindSkill(enabled, hint.value) else None;
    if hinted.Some? && hinted.value.role.PrimaryEligible? then hint
    else
      var candidates := Eligible(enabled);
      if candidates == [] then None else Some(Best(candidates[0], candidates[1..]).id)
  }

  lemma {:induction false} FindSkillFinds(enabled: seq<Skill>, id: string)
    ensures var r := FindSkill(enabled, id);
            && (r.Some? ==> r.value in enabled && r.value.id == id)
            && (r.None? ==> forall s :: s in enabled ==> s.id != id)
  {
    if enabled != [] { FindSkillFinds(enabled[1..], id); }
  }

  lemma {:induction false} EligibleAre(enabled: seq<Skill>, s: Skill)
    ensures s in Eligible(enabled) <==> s in enabled && s.role.PrimaryEligible?
  {
    if enabled != [] { EligibleAre(enabled[1..], s); }
  }

  lemma {:induction false} BestIsBest(acc: Skill, rest: seq<Skill>)
    ensures var b := Best(acc, rest); (b == acc || b in rest) && Rank(b, acc) && forall s :: s in rest ==> Rank(b, s)
    decreases rest
  {
    LeReflexive(acc.id);
    if rest != [] {
      var next := if Rank(rest[0], acc) then rest[0] else acc;
      BestIsBest(next, rest[1..]);
      RankOrders(rest[0], acc);
      RankTransitive(Best(acc, rest), next, acc);
      RankTransitive(Best(acc, rest), next, rest[0]);
    }
  }

  lemma RankOrders(a: Skill, b: Skill)
    ensures Rank(a, b) || Rank(b, a)
    ensures Rank(a, a)
    ensures Rank(a, b) && Rank(b, a) ==> a.id == b.id
  {
    LeTotal(a.id, b.id);
    LeReflexive(a.id);
    if Le(a.id, b.id) && Le(b.id, a.id) { LeAntisymmetric(a.id, b.id); }
  }

  lemma RankTransitive(a: Skill, b: Skill, c: Skill)
    ensures Rank(a, b) && Rank(b, c) ==> Rank(a, c)
  {
    if Le(a.id, b.id) && Le(b.id, c.id) { LeTransitive(a.id, b.id, c.id); }
  }

  lemma RankIsOrdering()
    ensures Ordering(Rank)
  {
    forall x, y ensures Rank(x, y) || Rank(y, x) { RankOrders(x, y); }
    forall x, y, z | Rank(x, y) && Rank(y, z) ensures Rank(x, z) { RankTransitive(x, y, z); }
  }

  /** Who leads, said without reference to input order: the hinted skill when it is enabled and eligible,
      else the best ranked eligible skill, else nobody. */
  ghost predicate Leads(enabled: seq<Skill>, hint: Option<string>, p: Option<string>) {
    if exists s :: s in enabled && s.role.PrimaryEligible? && hint == Some(s.id) then p == hint
    else if exists s :: s in enabled && s.role.PrimaryEligible? then
      exists s :: s in enabled && s.role.PrimaryEligible? && p == Some(s.id)
        && forall t :: t in enabled && t.role.PrimaryEligible? ==>
             s.priority > t.priority || (s.priority == t.priority && Le(s.id, t.id))
    else p == None
  }

  lemma PrimaryLeads(enabled: seq<Skill>, hint: Option<string>)
    requires DistinctIds(enabled)
    ensures Leads(enabled, hint, ChoosePrimary(enabled, hint))
  {
    forall s ensures s in Eligible(enabled) <==> s in enabled && s.role.PrimaryEligible? { EligibleAre(enabled, s); }
    if hint.Some? {
      FindSkillFinds(enabled, hint.value);
      var found := FindSkill(enabled, hint.value);
      if found.Some? {
        forall s | s in enabled && s.id == hint.value ensures s == found.value {}
      }
    }
    var c := Eligible(enabled);
    if c != [] {
      BestIsBest(c[0], c[1..]);
      assert c == [c[0]] + c[1..];
      var best := Best(c[0], c[1..]);
      assert best in c;
      assert forall t :: t in enabled && t.role.PrimaryEligible? ==> t in c;
    } else {
      assert forall s :: s in enabled && s.role.PrimaryEligible? ==> s in c;
    }
  }

  lemma LeaderUnique(enabled: seq<Skill>, hint: Option<string>, p: Option<string>, q: Option<string>)
    requires Leads(enabled, hint, p) && Leads(enabled, hint, q)
    ensures p == q
  {
    if !(exists s :: s in enabled && s.role.PrimaryEligible? && hint == Some(s.id))
       && exists s :: s in enabled && s.role.PrimaryEligible? {
      var s :| s in enabled && s.role.PrimaryEligible? && p == Some(s.id)
            && forall t :: t in enabled && t.role.PrimaryEligible? ==> Rank(s, t);
      var r :| r in enabled && r.role.PrimaryEligible? && q == Some(r.id)
            && forall t :: t in enabled && t.role.PrimaryEligible? ==> Rank(r, t);
      RankOrders(s, r);
    }
  }

  // ------------------------------------------------------------------------ order

  /** Everyone but the primary. */
  function Others(enabled: seq<Skill>, primary: Option<string>): seq<Skill> {
    if enabled == [] then []
    else if Some(enabled[0].id) != primary then [enabled[0]] + Others(enabled[1..], primary)
    else Others(enabled[1..], primary)
  }

  function Secondaries(enabled: seq<Skill>, primary: Option<string>): seq<Skill> {
    Sort(Others(enabled, primary), Rank)
  }

  function Leader(enabled: seq<Skill>, primary: Option<string>): Option<Skill> {
    if primary.None? then None else FindSkill(enabled, primary.value)
  }

  function Ids(skills: seq<Skill>): seq<string> { seq(|skills|, (i: nat) requires i < |skills| => skills[i].id) }

  /** The skills in merge order. */
  function Arranged(enabled: seq<Skill>, primary: Option<string>): seq<Skill> {
    var leader := Leader(enabled, primary);
    (if leader.Some? then [leader.value] else []) + Secondaries(enabled, primary)
  }

  // ---------------------------------------------------------------------- persona

  function Solid(s: string): seq<string> { if s == "" then [] else [s] }

  function Mention(s: Skill): seq<string> {
    var compressed := Trim(s.compressedPrompt);
    if compressed == "" then [] else ["Also available - " + s.id + ": " + compressed]
  }

  function Mentions(skills: seq<Skill>): seq<string> {
    if skills == [] then [] else Mention(skills[0]) + Mentions(skills[1..])
  }

  function Persona(base: string, leader: Option<Skill>, secondaries: seq<Skill>): string {
    Join(Solid(Trim(base)) + (if leader.Some? then Solid(Trim(leader.value.systemPrompt)) else [])
        + Mentions(secondaries), "\n\n")
  }

  /** How many of the first `i` skills have something to say as a secondary. */
  function Speakers(skills: seq<Skill>, i: nat): nat
    requires i <= |skills|
  {
    if i == 0 then 0
    else (if Trim(skills[0].compressedPrompt) != "" then 1 else 0) + Speakers(skills[1..], i - 1)
  }

  /** The parts of a persona: the trimmed base if it is not blank, then the trimmed prompt of a leader that
      has one, then for each secondary with a compressed prompt one mention, in order; no part is empty. */
  ghost predicate PersonaParts(base: string, leader: Option<Skill>, secondaries: seq<Skill>, parts: seq<string>) {
    var b := if Trim(base) != "" then 1 else 0;
    var l := if leader.Some? && Trim(leader.value.systemPrompt) != "" then 1 else 0;
    && |parts| == b + l + Speakers(secondaries, |secondaries|)
    && (b == 1 ==> parts[0] == Trim(base))
    && (l == 1 ==> parts[b] == Trim(leader.value.systemPrompt))
    && (forall i :: 0 <= i < |secondaries| && Trim(secondaries[i].compressedPrompt) != "" ==>
          && b + l + Speakers(secondaries, i) < |parts|
          && parts[b + l + Speakers(secondaries, i)]
             == "Also available - " + secondaries[i].id + ": " + Trim(secondaries[i].compressedPrompt))
    && "" !in parts
  }

  lemma {:induction false} MentionsAt(skills: seq<Skill>, i: nat)
    requires i <= |skills|
    ensures Speakers(skills, i) <= Speakers(skills, |skills|) == |Mentions(skills)| && "" !in Mentions(skills)
    ensures i < |skills| && Trim(skills[i].compressedPrompt) != "" ==>
              && Speakers(skills, i) < |Mentions(skills)|
              && [Mentions(skills)[Speakers(skills, i)]] == Mention(skills[i])
  {
    hide Trim;
    if skills != [] { MentionsAt(skills[1..], if i > 0 then i - 1 else 0); }
  }

  /** The persona is its parts with a blank line between them. */
  lemma PersonaShape(base: string, leader: Option<Skill>, secondaries: seq<Skill>)
    ensures exists parts :: PersonaParts(base, leader, secondaries, parts)
                            && Persona(base, leader, secondaries) == Join(parts, "\n\n")
  {
    hide Mentions, Join, Trim, Speakers;
    var head := Solid(Trim(base)) + (if leader.Some? then Solid(Trim(leader.value.systemPrompt)) else []);
    var tail := Mentions(secondaries);
    MentionsAt(secondaries, |secondaries|);
    forall i | 0 <= i < |secondaries| && Trim(secondaries[i].compressedPrompt) != ""
      ensures Speakers(secondaries, i) < |tail| && [tail[Speakers(secondaries, i)]] == Mention(secondaries[i])
    {
      MentionsAt(secondaries, i);
    }
    assert PersonaParts(base, leader, secondaries, head + tail);
  }

  /** Only one list of parts fits. */
  lemma PersonaPartsUnique(
    base: string, leader: Option<Skill>, secondaries: seq<Skill>, p: seq<string>, q: seq<string>)
    requires PersonaParts(base, leader, secondaries, p) && PersonaParts(base, leader, secondaries, q)
    ensures p == q
  {
    hide Trim, Speakers;
    var b := if Trim(base) != "" then 1 else 0;
    var l := if leader.Some? && Trim(leader.value.systemPrompt) != "" then 1 else 0;
    forall k | 0 <= k < |p| ensures p[k] == q[k] {
      if b + l <= k {
        var i := SpeakerOf(secondaries, k - b - l);
      }
    }
  }

  lemma {:induction false} SpeakerOf(skills: seq<Skill>, k: nat) returns (i: nat)
    requires k < Speakers(skills, |skills|)
    ensures i < |skills| && Trim(skills[i].compressedPrompt) != "" && Speakers(skills, i) == k
  {
    var first := if Trim(skills[0].compressedPrompt) != "" then 1 else 0;
    if first == 1 && k == 0 {
      i := 0;
    } else {
      i := SpeakerOf(skills[1..], k - first);
      i := i + 1;
    }
  }

  method AssemblePersona(base: string, leader: Option<Skill>, secondaries: seq<Skill>) returns (persona: string)
    ensures persona == Persona(base, leader, secondaries)
  {
    var parts: seq<string> := [];
    var b := Trim(base);
    if b != "" { parts := parts + [b]; }
    if leader.Some? {
      var sp := Trim(leader.value.systemPrompt);
      if sp != "" { parts := parts + [sp]; }
    }
    assert parts == Solid(Trim(base)) + (if leader.Some? then Solid(Trim(leader.value.systemPrompt)) else []);
    parts := AddMentions(parts, secondaries);
    return Join(parts, "\n\n");
  }

  method AddMentions(head: seq<string>, secondaries: seq<Skill>) returns (parts: seq<string>)
    ensures parts == head + Mentions(secondaries)
  {
    parts := head;
    for i := 0 to |secondaries|
      invariant parts + Mentions(secondaries[i..]) == head + Mentions(secondaries)
    {
      var s := secondaries[i];
      assert secondaries[i..][1..] == secondaries[i + 1..];
      Reassociate(parts, Mention(s), Mentions(secondaries[i + 1..]));
      var compressed := Trim(s.compressedPrompt);
      parts := parts + if compressed != "" then ["Also available - " + s.id + ": " + compressed] else [];
    }
  }

  // ------------------------------------------------------------------------ tools

  datatype Decl = Decl(skill: string, name: string, config: Value)

  /** The lookup table by id: a later skill of the same id replaces an earlier one. */
  function ById(enabled: seq<Skill>): map<string, Skill> {
    if enabled == [] then map[] else ById(enabled[..|enabled| - 1])[enabled[|enabled| - 1].id := enabled[|enabled| - 1]]
  }

  function DeclsOf(id: string, tools: seq<ToolRef>): seq<Decl> {
    if tools == [] then [] else [Decl(id, tools[0].name, tools[0].config)] + DeclsOf(id, tools[1..])
  }

  /** Every tool declaration, in merge order. */
  function Gather(byId: map<string, Skill>, order: seq<string>): seq<Decl> {
    if order == [] then []
    else (if order[0] in byId then DeclsOf(byId[order[0]].id, byId[order[0]].tools) else []) + Gather(byId, order[1..])
  }

  function Group(decls: seq<Decl>, name: string): seq<Decl> {
    if decls == [] then []
    else if decls[0].name == name then [decls[0]] + Group(decls[1..], name)
    else Group(decls[1..], name)
  }

  function Declarers(group: seq<Decl>): seq<string> { seq(|group|, (i: nat) requires i < |group| => group[i].skill) }

  predicate Agree(group: seq<Decl>) {
    forall i, j :: 0 <= i < |group| && 0 <= j < |group| ==> group[i].config == group[j].config
  }

  function Variants(name: string, group: seq<Decl>): seq<ComposedTool> {
    seq(|group|, (i: nat) requires i < |group| =>
      ComposedTool(group[i].skill + "." + name, name, [group[i].skill], true))
  }

  /** One shared tool when the configurations agree, otherwise one variant per declaration. */
  function ToolsFor(name: string, group: seq<Decl>): seq<ComposedTool> {
    if Agree(group) then [ComposedTool(name, name, Declarers(group), false)] else Variants(name, group)
  }

  function Compose(names: seq<string>, decls: seq<Decl>): seq<ComposedTool> {
    if names == [] then [] else ToolsFor(names[0], Group(decls, names[0])) + Compose(names[1..], decls)
  }

  predicate ByCall(a: ComposedTool, b: ComposedTool) { Le(a.callName, b.callName) }

  function Declared(decls: seq<Decl>): set<string> { set d | d in decls :: d.name }

  ghost function ToolUnion(decls: seq<Decl>): seq<ComposedTool> {
    Sort(Compose(Ascending(Declared(decls)), decls), ByCall)
  }

  lemma {:induction false} GroupAppend(a: seq<Decl>, d: Decl, name: string)
    ensures Group(a + [d], name) == if d.name == name then Group(a, name) + [d] else Group(a, name)
  {
    if a != [] {
      assert (a + [d])[1..] == a[1..] + [d];
      GroupAppend(a[1..], d, name);
    }
  }

  /** Declarations grouped by tool, as the loop builds them. */
  predicate Grouped(groups: map<string, seq<Decl>>, decls: seq<Decl>) {
    groups.Keys == Declared(decls) && forall name :: name in groups ==> groups[name] == Group(decls, name)
  }

  lemma GroupedAppend(groups: map<string, seq<Decl>>, decls: seq<Decl>, d: Decl)
    requires Grouped(groups, decls)
    ensures Grouped(groups[d.name := (if d.name in groups then groups[d.name] else []) + [d]], decls + [d])
  {
    var next := groups[d.name := (if d.name in groups then groups[d.name] else []) + [d]];
    forall name | name in next ensures next[name] == Group(decls + [d], name) {
      GroupAppend(decls, d, name);
      if name !in groups { NoGroup(decls, name); }
    }
    assert Declared(decls + [d]) == Declared(decls) + {d.name};
  }

  lemma {:induction false} NoGroup(decls: seq<Decl>, name: string)
    requires name !in Declared(decls)
    ensures Group(decls, name) == []
  {
    if decls != [] {
      assert decls[0].name in Declared(decls);
      assert forall d :: d in decls[1..] ==> d in decls;
      NoGroup(decls[1..], name);
    }
  }

  method GatherTools(byId: map<string, Skill>, order: seq<string>) returns (groups: map<string, seq<Decl>>)
    ensures Grouped(groups, Gather(byId, order))
  {
    hide Grouped;
    groups := map[];
    ghost var done: seq<Decl> := [];
    EmptyGroups();
    for i := 0 to |order|
      invariant Grouped(groups, done)
      invariant done + Gather(byId, order[i..]) == Gather(byId, order)
    {
      assert order[i..][1..] == order[i + 1..];
      if order[i] in byId {
        var s := byId[order[i]];
        ghost var start := done;
        for j := 0 to |s.tools|
          invariant Grouped(groups, done)
          invariant done + DeclsOf(s.id, s.tools[j..]) == start + DeclsOf(s.id, s.tools)
        {
          assert s.tools[j..][1..] == s.tools[j + 1..];
          var d := Decl(s.id, s.tools[j].name, s.tools[j].config);
          GroupedAppend(groups, done, d);
          groups := groups[d.name := (if d.name in groups then groups[d.name] else []) + [d]];
          Reassociate(done, [d], DeclsOf(s.id, s.tools[j + 1..]));
          done := done + [d];
        }
        assert done == start + DeclsOf(s.id, s.tools);
        Reassociate(start, DeclsOf(s.id, s.tools), Gather(byId, order[i + 1..]));
      }
    }
    assert done == Gather(byId, order);
  }

  lemma EmptyGroups()
    ensures Grouped(map[], [])
  {
  }

  lemma Reassociate<T>(a: seq<T>, b: seq<T>, c: seq<T>)
    ensures a + (b + c) == a + b + c
  {
  }

  /** Collects the different configurations of one tool; at most one means they agree. */
  method CountDistinct(group: seq<Decl>) returns (distinct: seq<Value>)
    ensures |distinct| <= 1 <==> Agree(group)
  {
    distinct := [];
    for i := 0 to |group|
      invariant forall k :: 0 <= k < i ==> group[k].config in distinct
      invariant forall v :: v in distinct ==> exists k :: 0 <= k < i && group[k].config == v
      invariant forall a, b :: 0 <= a < b < |distinct| ==> distinct[a] != distinct[b]
    {
      if group[i].config !in distinct { distinct := distinct + [group[i].config]; }
    }
    if |distinct| > 1 {
      assert distinct[0] in distinct && distinct[1] in distinct && distinct[0] != distinct[1];
    }
  }

  method ComposeTools(enabled: seq<Skill>, order: seq<string>) returns (tools: seq<ComposedTool>)
    ensures tools == ToolUnion(Gather(ById(enabled), order))
  {
    var byId: map<string, Skill> := map[];
    for i := 0 to |enabled|
      invariant byId == ById(enabled[..i])
    {
      assert enabled[..i + 1][..i] == enabled[..i];
      byId := byId[enabled[i].id := enabled[i]];
    }
    assert enabled[..|enabled|] == enabled;
    var groups := GatherTools(byId, order);
    var out := ComposeAll(groups, Gather(byId, order));
    return Sort(out, ByCall);
  }

  /** Walks the groups in key order. */
  method ComposeAll(groups: map<string, seq<Decl>>, ghost decls: seq<Decl>) returns (out: seq<ComposedTool>)
    requires Grouped(groups, decls)
    ensures out == Compose(Ascending(Declared(decls)), decls)
  {
    hide ToolsFor, Declared;
    out := [];
    var names := groups.Keys;
    while names != {}
      invariant names <= groups.Keys
      invariant out + Compose(Ascending(names), decls) == Compose(Ascending(groups.Keys), decls)
      decreases |names|
    {
      LeastExists(names);
      var name :| name in names && forall j :: j in names ==> Le(name, j);
      LeastUnique(name, names);
      AscendingSplits(names, decls);
      var composed := ComposeOne(name, groups[name]);
      Reassociate(out, composed, Compose(Ascending(names - {name}), decls));
      out := out + composed;
      names := names - {name};
    }
  }

  lemma AscendingSplits(names: set<string>, decls: seq<Decl>)
    requires names != {}
    ensures var name := Least(names);
            Compose(Ascending(names), decls) == ToolsFor(name, Group(decls, name))
                + Compose(Ascending(names - {name}), decls)
  {
    assert Ascending(names)[1..] == Ascending(names - {Least(names)});
  }

  method ComposeOne(name: string, group: seq<Decl>) returns (out: seq<ComposedTool>)
    ensures out == ToolsFor(name, group)
  {
    var distinct := CountDistinct(group);
    if |distinct| <= 1 {
      return [ComposedTool(name, name, Declarers(group), false)];
    }
    out := [];
    for i := 0 to |group|
      invariant out == Variants(name, group)[..i]
    {
      out := out + [ComposedTool(group[i].skill + "." + name, name, [group[i].skill], true)];
    }
  }

  // ------------------------------------------------------------------------ merge

  ghost function Merge(base: string, enabled: seq<Skill>, hint: Option<string>): MergeResult {
    var c := FirstConflict(enabled, 0);
    if c.Some? then
      ConflictFound(enabled, 0);
      var a, b := enabled[c.value.0].id, enabled[c.value.1].id;
      if Le(a, b) then Conflict(a, b) else Conflict(b, a)
    else
      var primary := ChoosePrimary(enabled, hint);
      var order := Ids(Arranged(enabled, primary));
      Merged(Agent(order, primary, Persona(base, Leader(enabled, primary), Secondaries(enabled, primary)),
                   ToolUnion(Gather(ById(enabled), order))))
  }

  /** The first conflicting pair, in input order. */
  method CheckConflicts(enabled: seq<Skill>) returns (c: Option<(nat, nat)>)
    ensures c == FirstConflict(enabled, 0)
  {
    for i := 0 to |enabled|
      invariant FirstConflict(enabled, 0) == FirstConflict(enabled, i)
    {
      var a := enabled[i];
      for j := i + 1 to |enabled|
        invariant Partner(enabled, i, i + 1) == Partner(enabled, i, j)
      {
        var b := enabled[j];
        if b.id in a.conflicts || a.id in b.conflicts { return Some((i, j)); }
      }
    }
    return None;
  }

  method WithoutPrimary(enabled: seq<Skill>, primary: Option<string>) returns (rest: seq<Skill>)
    ensures rest == Others(enabled, primary)
  {
    rest := [];
    for i := 0 to |enabled|
      invariant rest + Others(enabled[i..], primary) == Others(enabled, primary)
    {
      assert enabled[i..][1..] == enabled[i + 1..];
      if Some(enabled[i].id) != primary { rest := rest + [enabled[i]]; }
    }
  }

  method MergeSkills(base: string, enabled: seq<Skill>, hint: Option<string>) returns (r: MergeResult)
    ensures r == Merge(base, enabled, hint)
  {
    var c := CheckConflicts(enabled);
    ConflictFound(enabled, 0);
    if c.Some? {
      var a, b := enabled[c.value.0].id, enabled[c.value.1].id;
      return if Le(a, b) then Conflict(a, b) else Conflict(b, a);
    }
    var primary := ChoosePrimary(enabled, hint);
    var rest := WithoutPrimary(enabled, primary);
    var secondaries := Sort(rest, Rank);
    var leader := Leader(enabled, primary);
    var order: seq<string> := [];
    if leader.Some? { order := order + [leader.value.id]; }
    order := order + Ids(secondaries);
    assert order == Ids(Arranged(enabled, primary));
    var persona := AssemblePersona(base, leader, secondaries);
    var tools := ComposeTools(enabled, order);
    return Merged(Agent(order, primary, persona, tools));
  }
}
