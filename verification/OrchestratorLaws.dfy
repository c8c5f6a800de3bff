/** What merging promises (`orchestrator.rs`): it does not see the order in which skills were enabled,
    except in which of several conflicts it names, and removing a secondary skill only removes it. */
module OrchestratorLaws {
  import opened Text
  import opened Order
  import opened Scanner
  import opened Orchestrator

  // ------------------------------------------------------------------ permutations

  lemma SameMembers<T>(a: seq<T>, b: seq<T>)
    requires multiset(a) == multiset(b)
    ensures forall x :: x in a <==> x in b
  {
    forall x ensures x in a <==> x in b {
      assert x in a <==> x in multiset(a);
      assert x in b <==> x in multiset(b);
    }
  }

  /** Distinct ids say: a skill is determined by its id, and occurs once. */
  lemma DistinctSame(enabled: seq<Skill>, a: Skill, b: Skill)
    requires DistinctIds(enabled) && a in enabled && b in enabled && a.id == b.id
    ensures a == b
  {
  }

  lemma {:induction false} DistinctOnce(enabled: seq<Skill>, s: Skill)
    requires DistinctIds(enabled)
    ensures multiset(enabled)[s] <= 1
  {
    if enabled != [] {
      DistinctOnce(enabled[1..], s);
      assert enabled == [enabled[0]] + enabled[1..];
      if s == enabled[0] {
        assert forall i :: 0 < i < |enabled| ==> enabled[i].id != s.id;
        assert s !in enabled[1..];
      }
    }
  }

  lemma DistinctPermuted(a: seq<Skill>, b: seq<Skill>)
    requires multiset(a) == multiset(b) && DistinctIds(a)
    ensures DistinctIds(b)
  {
    SameMembers(a, b);
    forall i, j | 0 <= i < j < |b| ensures b[i].id != b[j].id {
      if b[i].id == b[j].id {
        DistinctSame(a, b[i], b[j]);
        TwiceCounts(b, i, j);
        DistinctOnce(a, b[i]);
        assert false;
      }
    }
  }

  lemma TwiceCounts(b: seq<Skill>, i: nat, j: nat)
    requires i < j < |b| && b[i] == b[j]
    ensures multiset(b)[b[i]] >= 2
  {
    assert b == b[..i] + [b[i]] + b[i + 1..j] + [b[j]] + b[j + 1..];
  }

  lemma FindSame(a: seq<Skill>, b: seq<Skill>, id: string)
    requires multiset(a) == multiset(b) && DistinctIds(a)
    ensures FindSkill(a, id) == FindSkill(b, id)
  {
    SameMembers(a, b);
    FindSkillFinds(a, id);
    FindSkillFinds(b, id);
    if FindSkill(a, id).Some? && FindSkill(b, id).Some? {
      DistinctSame(a, FindSkill(a, id).value, FindSkill(b, id).value);
    }
  }

  lemma PrimarySame(a: seq<Skill>, b: seq<Skill>, hint: Option<string>)
    requires multiset(a) == multiset(b) && DistinctIds(a)
    ensures ChoosePrimary(a, hint) == ChoosePrimary(b, hint)
  {
    SameMembers(a, b);
    DistinctPermuted(a, b);
    PrimaryLeads(a, hint);
    PrimaryLeads(b, hint);
    LeadsTransfers(a, b, hint, ChoosePrimary(b, hint));
    LeaderUnique(a, hint, ChoosePrimary(a, hint), ChoosePrimary(b, hint));
  }

  lemma LeadsTransfers(a: seq<Skill>, b: seq<Skill>, hint: Option<string>, p: Option<string>)
    requires (forall x :: x in a <==> x in b) && Leads(b, hint, p)
    ensures Leads(a, hint, p)
  {
  }

  lemma {:induction false} OthersCount(enabled: seq<Skill>, p: Option<string>, s: Skill)
    ensures multiset(Others(enabled, p))[s] == if Some(s.id) != p then multiset(enabled)[s] else 0
  {
    if enabled != [] {
      OthersCount(enabled[1..], p, s);
      assert enabled == [enabled[0]] + enabled[1..];
    }
  }

  lemma RankDistinguishes(all: seq<Skill>, some: seq<Skill>)
    requires DistinctIds(all) && forall s :: s in some ==> s in all
    ensures Distinguishes(Rank, some)
  {
    forall x, y | x in some && y in some && Rank(x, y) && Rank(y, x) ensures x == y {
      RankOrders(x, y);
      DistinctSame(all, x, y);
    }
  }

  lemma SecondariesKeep(enabled: seq<Skill>, p: Option<string>)
    ensures multiset(Secondaries(enabled, p)) == multiset(Others(enabled, p)) && Sorted(Secondaries(enabled, p), Rank)
    ensures forall s :: s in Secondaries(enabled, p) <==> s in enabled && Some(s.id) != p
  {
    RankIsOrdering();
    SortSorts(Others(enabled, p), Rank);
    forall s ensures s in Secondaries(enabled, p) <==> s in enabled && Some(s.id) != p {
      OthersCount(enabled, p, s);
      assert s in Secondaries(enabled, p) <==> multiset(Secondaries(enabled, p))[s] > 0;
    }
  }

  lemma SecondariesSame(a: seq<Skill>, b: seq<Skill>, p: Option<string>)
    requires multiset(a) == multiset(b) && DistinctIds(a)
    ensures Secondaries(a, p) == Secondaries(b, p)
  {
    forall s ensures multiset(Others(a, p))[s] == multiset(Others(b, p))[s] {
      OthersCount(a, p, s);
      OthersCount(b, p, s);
    }
    SecondariesKeep(a, p);
    SecondariesKeep(b, p);
    RankDistinguishes(a, Secondaries(a, p));
    SortedUnique(Secondaries(a, p), Secondaries(b, p), Rank);
  }

  lemma {:induction false} ByIdFinds(enabled: seq<Skill>, id: string)
    requires DistinctIds(enabled)
    ensures id in ById(enabled) <==> FindSkill(enabled, id).Some?
    ensures id in ById(enabled) ==> Some(ById(enabled)[id]) == FindSkill(enabled, id)
  {
    if enabled != [] {
      var n := |enabled| - 1;
      ByIdFinds(enabled[..n], id);
      FindSkillFinds(enabled, id);
      FindSkillFinds(enabled[..n], id);
      assert enabled == enabled[..n] + [enabled[n]];
      if FindSkill(enabled, id).Some? {
        var s := FindSkill(enabled, id).value;
        if s.id == enabled[n].id { DistinctSame(enabled, s, enabled[n]); }
        if FindSkill(enabled[..n], id).Some? { DistinctSame(enabled, s, FindSkill(enabled[..n], id).value); }
      }
    }
  }

  lemma ByIdSame(a: seq<Skill>, b: seq<Skill>)
    requires multiset(a) == multiset(b) && DistinctIds(a)
    ensures ById(a) == ById(b)
  {
    DistinctPermuted(a, b);
    forall id ensures (id in ById(a) <==> id in ById(b)) && (id in ById(a) ==> ById(a)[id] == ById(b)[id]) {
      ByIdFinds(a, id);
      ByIdFinds(b, id);
      FindSame(a, b, id);
    }
  }

  /** Merging does not depend on the order in which the skills are listed: it succeeds on both listings
      or on neither, and then gives the same agent. */
  lemma MergePermutes(base: string, a: seq<Skill>, b: seq<Skill>, hint: Option<string>)
    requires multiset(a) == multiset(b) && DistinctIds(a)
    ensures Merge(base, a, hint).Merged? <==> Merge(base, b, hint).Merged?
    ensures Merge(base, a, hint).Merged? ==> Merge(base, a, hint) == Merge(base, b, hint)
  {
    hide ToolUnion, Gather, ById, Persona, Secondaries, ChoosePrimary, FindSkill, FirstConflict;
    DistinctPermuted(a, b);
    SameMembers(a, b);
    CompatibleIff(a);
    CompatibleIff(b);
    PrimarySame(a, b, hint);
    var p := ChoosePrimary(a, hint);
    SecondariesSame(a, b, p);
    if p.Some? { FindSame(a, b, p.value); }
    ByIdSame(a, b);
  }

  // ------------------------------------------------------------- the named conflict

  /** The enabled skills named `a` and `b`, in that order, cannot be combined. */
  ghost predicate Clash(enabled: seq<Skill>, a: string, b: string) {
    exists s, t :: s in enabled && t in enabled && s.id == a && t.id == b && a != b && Le(a, b) && Blocks(s, t)
  }

  ghost predicate Listing(enabled: seq<Skill>, other: seq<Skill>) { multiset(other) == multiset(enabled) }

  lemma ConflictIsClash(base: string, enabled: seq<Skill>, hint: Option<string>)
    requires DistinctIds(enabled) && Merge(base, enabled, hint).Conflict?
    ensures Clash(enabled, Merge(base, enabled, hint).a, Merge(base, enabled, hint).b)
  {
    hide ToolUnion, Gather, ById, Persona, Secondaries, ChoosePrimary;
    ConflictFound(enabled, 0);
    var c := FirstConflict(enabled, 0).value;
    var s, t := enabled[c.0], enabled[c.1];
    assert s in enabled && t in enabled && s.id != t.id && Blocks(t, s);
    LeTotal(s.id, t.id);
  }

  /** A listing that begins with two given skills. */
  function Fronted(enabled: seq<Skill>, s: Skill, t: Skill): seq<Skill> {
    [s, t] + Without(Without(enabled, s.id), t.id)
  }

  lemma FrontedLists(enabled: seq<Skill>, s: Skill, t: Skill)
    requires DistinctIds(enabled) && s in enabled && t in enabled && s.id != t.id
    ensures Listing(enabled, Fronted(enabled, s, t))
  {
    forall x ensures multiset(Fronted(enabled, s, t))[x] == multiset(enabled)[x] { FrontedCount(enabled, s, t, x); }
  }

  lemma FrontedCount(enabled: seq<Skill>, s: Skill, t: Skill, x: Skill)
    requires DistinctIds(enabled) && s in enabled && t in enabled && s.id != t.id
    ensures multiset(Fronted(enabled, s, t))[x] == multiset(enabled)[x]
  {
    hide DistinctIds, Others;
    OthersCount(enabled, Some(s.id), x);
    OthersCount(Without(enabled, s.id), Some(t.id), x);
    DistinctOnce(enabled, x);
    assert x in enabled <==> multiset(enabled)[x] > 0;
    if x in enabled && x.id == s.id { DistinctSame(enabled, x, s); }
    if x in enabled && x.id == t.id { DistinctSame(enabled, x, t); }
  }

  lemma FrontedReports(base: string, enabled: seq<Skill>, hint: Option<string>, s: Skill, t: Skill)
    requires Blocks(s, t) && Le(s.id, t.id)
    ensures Merge(base, Fronted(enabled, s, t), hint) == Conflict(s.id, t.id)
  {
    hide ToolUnion, Gather, ById, Persona, Secondaries, ChoosePrimary, Without;
    assert FirstConflict(Fronted(enabled, s, t), 0) == Some((0, 1));
  }

  /** The conflicts some listing names are exactly the clashes among the enabled skills. */
  lemma NamedConflicts(base: string, enabled: seq<Skill>, hint: Option<string>, a: string, b: string)
    requires DistinctIds(enabled)
    ensures (exists other :: Listing(enabled, other) && Merge(base, other, hint) == Conflict(a, b))
            <==> Clash(enabled, a, b)
  {
    hide Merge, Le, Blocks, DistinctIds;
    forall other | Listing(enabled, other) && Merge(base, other, hint) == Conflict(a, b) ensures Clash(enabled, a, b) {
      DistinctPermuted(enabled, other);
      SameMembers(enabled, other);
      ConflictIsClash(base, other, hint);
    }
    if Clash(enabled, a, b) {
      var s, t :| s in enabled && t in enabled && s.id == a && t.id == b && a != b && Le(a, b) && Blocks(s, t);
      FrontedLists(enabled, s, t);
      FrontedReports(base, enabled, hint, s, t);
      assert Listing(enabled, Fronted(enabled, s, t));
    }
  }

  /** All listings give one and the same result, report included, exactly when no two clashes differ. */
  lemma ListingInvisibleIff(base: string, enabled: seq<Skill>, hint: Option<string>)
    requires DistinctIds(enabled)
    ensures (forall other :: Listing(enabled, other) ==> Merge(base, other, hint) == Merge(base, enabled, hint))
            <==> forall a, b, c, d :: Clash(enabled, a, b) && Clash(enabled, c, d) ==> a == c && b == d
  {
    hide Merge, Clash, DistinctIds;
    forall a, b ensures Clash(enabled, a, b)
        <==> exists other :: Listing(enabled, other) && Merge(base, other, hint) == Conflict(a, b)
    {
      NamedConflicts(base, enabled, hint, a, b);
    }
    forall other | Listing(enabled, other) && Merge(base, other, hint) != Merge(base, enabled, hint)
      ensures exists a, b, c, d :: Clash(enabled, a, b) && Clash(enabled, c, d) && !(a == c && b == d)
    {
      MergePermutes(base, enabled, other, hint);
      var m, r := Merge(base, enabled, hint), Merge(base, other, hint);
      assert Listing(enabled, enabled);
      assert Clash(enabled, m.a, m.b) && Clash(enabled, r.a, r.b);
    }
  }

  /** With three skills the report does follow the listing. */
  lemma ReportFollowsListing()
    ensures exists a: seq<Skill>, b: seq<Skill> ::
      multiset(a) == multiset(b) && DistinctIds(a) && Merge("", a, None) != Merge("", b, None)
  {
    hide ToolUnion, Gather, ById, Persona, Secondaries, ChoosePrimary;
    var x := Skill("x", PrimaryEligible, "", "", [], 50, ["y", "z"], Cost(0, 0, 0));
    var y := x.(id := "y", conflicts := []);
    var z := x.(id := "z", conflicts := []);
    var a, b := [x, y, z], [x, z, y];
    assert multiset(a) == multiset(b);
    assert FirstConflict(a, 0) == Some((0, 1)) && FirstConflict(b, 0) == Some((0, 1));
    assert Merge("", a, None) == Conflict("x", "y") && Merge("", b, None) == Conflict("x", "z");
  }

  // ------------------------------------------------------------------- the order

  /** The order lists every enabled skill once: the primary, if there is one, and then the rest by
      priority descending and id ascending. */
  lemma OrderShape(base: string, enabled: seq<Skill>, hint: Option<string>)
    requires DistinctIds(enabled) && Merge(base, enabled, hint).Merged?
    ensures var agent := Merge(base, enabled, hint).agent;
            var arranged := Arranged(enabled, agent.primary);
            && agent.order == Ids(arranged) && multiset(arranged) == multiset(enabled)
            && Leads(enabled, hint, agent.primary)
            && (agent.primary.Some? ==>
                  arranged != [] && Some(arranged[0].id) == agent.primary && Sorted(arranged[1..], Rank))
            && (agent.primary.None? ==> Sorted(arranged, Rank))
  {
    hide ToolUnion, Gather, ById, Persona, ChoosePrimary, FirstConflict, Secondaries, Leads, Rank, Others,
      DistinctIds, FindSkill;
    var p := ChoosePrimary(enabled, hint);
    PrimaryLeads(enabled, hint);
    SecondariesKeep(enabled, p);
    LeaderIsEnabled(enabled, hint);
    forall s ensures multiset(Arranged(enabled, p))[s] == multiset(enabled)[s] {
      OthersCount(enabled, p, s);
      if p.Some? && s.id == p.value {
        DistinctOnce(enabled, s);
        var leader := Leader(enabled, p).value;
        if s in enabled { DistinctSame(enabled, s, leader); }
      }
    }
    if p.Some? { assert Arranged(enabled, p)[1..] == Secondaries(enabled, p); }
  }

  /** Said without the ranking: higher priority comes first, and among equals the id that comes first. */
  lemma OrderByPriority(base: string, enabled: seq<Skill>, hint: Option<string>, i: nat, j: nat)
    requires DistinctIds(enabled) && Merge(base, enabled, hint).Merged?
    requires var agent := Merge(base, enabled, hint).agent;
             (if agent.primary.Some? then 1 else 0) <= i < j < |Arranged(enabled, agent.primary)|
    ensures var arranged := Arranged(enabled, Merge(base, enabled, hint).agent.primary);
            || arranged[i].priority > arranged[j].priority
            || (arranged[i].priority == arranged[j].priority && Le(arranged[i].id, arranged[j].id))
  {
    hide Merge, Arranged, Leads;
    OrderShape(base, enabled, hint);
    var agent := Merge(base, enabled, hint).agent;
    var arranged := Arranged(enabled, agent.primary);
    if agent.primary.Some? {
      assert Rank(arranged[1..][i - 1], arranged[1..][j - 1]);
    } else {
      assert Rank(arranged[i], arranged[j]);
    }
  }

  /** The agent speaks with the voice of its primary, and mentions the other skills in its own order. */
  lemma AgentSpeaks(base: string, enabled: seq<Skill>, hint: Option<string>)
    requires DistinctIds(enabled) && Merge(base, enabled, hint).Merged?
    ensures var agent := Merge(base, enabled, hint).agent;
            var arranged := Arranged(enabled, agent.primary);
            && agent.order == Ids(arranged)
            && exists parts ::
                 && agent.persona == Join(parts, "\n\n")
                 && if agent.primary.Some?
                    then arranged != [] && PersonaParts(base, Some(arranged[0]), arranged[1..], parts)
                    else PersonaParts(base, None, arranged, parts)
  {
    hide ToolUnion, Gather, ById, ChoosePrimary, FirstConflict, Secondaries, FindSkill, PersonaParts, Persona,
      Join;
    var p := ChoosePrimary(enabled, hint);
    LeaderIsEnabled(enabled, hint);
    PersonaShape(base, Leader(enabled, p), Secondaries(enabled, p));
    if p.Some? {
      assert Arranged(enabled, p)[1..] == Secondaries(enabled, p);
    } else {
      assert Arranged(enabled, p) == Secondaries(enabled, p);
    }
  }

  lemma LeaderIsEnabled(enabled: seq<Skill>, hint: Option<string>)
    requires DistinctIds(enabled)
    ensures var p := ChoosePrimary(enabled, hint);
            p.Some? ==>
              Leader(enabled, p).Some? && Leader(enabled, p).value in enabled && Leader(enabled, p).value.id == p.value
  {
    var p := ChoosePrimary(enabled, hint);
    PrimaryLeads(enabled, hint);
    if p.Some? { FindSkillFinds(enabled, p.value); }
  }

  // --------------------------------------------------------------------- removal

  function Without(enabled: seq<Skill>, id: string): seq<Skill> { Others(enabled, Some(id)) }

  function Drop(order: seq<string>, id: string): seq<string> {
    if order == [] then [] else if order[0] == id then Drop(order[1..], id) else [order[0]] + Drop(order[1..], id)
  }

  lemma {:induction false} WithoutMembers(enabled: seq<Skill>, id: string, s: Skill)
    ensures s in Without(enabled, id) <==> s in enabled && s.id != id
  {
    OthersCount(enabled, Some(id), s);
    assert s in enabled <==> multiset(enabled)[s] > 0;
    assert s in Without(enabled, id) <==> multiset(Without(enabled, id))[s] > 0;
  }

  lemma {:induction false} WithoutDistinct(enabled: seq<Skill>, id: string)
    requires DistinctIds(enabled)
    ensures DistinctIds(Without(enabled, id))
  {
    if enabled != [] {
      WithoutDistinct(enabled[1..], id);
      var rest := Without(enabled[1..], id);
      forall k | 0 <= k < |rest| ensures rest[k].id != enabled[0].id {
        assert rest[k] in rest;
        WithoutMembers(enabled[1..], id, rest[k]);
      }
    }
  }

  lemma {:induction false} WithoutSorted(s: seq<Skill>, id: string)
    requires Sorted(s, Rank)
    ensures Sorted(Without(s, id), Rank)
  {
    if s != [] {
      WithoutSorted(s[1..], id);
      var rest := Without(s[1..], id);
      forall k | 0 <= k < |rest| ensures Rank(s[0], rest[k]) {
        assert rest[k] in rest;
        WithoutMembers(s[1..], id, rest[k]);
        var j :| 0 <= j < |s[1..]| && s[1..][j] == rest[k];
        assert s[1 + j] == rest[k];
      }
    }
  }

  lemma {:induction false} DropIds(s: seq<Skill>, id: string)
    ensures Ids(Without(s, id)) == Drop(Ids(s), id)
  {
    if s != [] {
      DropIds(s[1..], id);
      assert Ids(s)[1..] == Ids(s[1..]);
    }
  }

  lemma PrimaryWithout(enabled: seq<Skill>, hint: Option<string>, id: string)
    requires DistinctIds(enabled) && ChoosePrimary(enabled, hint) != Some(id)
    ensures ChoosePrimary(Without(enabled, id), hint) == ChoosePrimary(enabled, hint)
  {
    var w := Without(enabled, id);
    WithoutDistinct(enabled, id);
    forall s ensures s in w <==> s in enabled && s.id != id { WithoutMembers(enabled, id, s); }
    PrimaryLeads(enabled, hint);
    PrimaryLeads(w, hint);
    LeadsWithout(enabled, w, hint, ChoosePrimary(enabled, hint), id);
    LeaderUnique(w, hint, ChoosePrimary(enabled, hint), ChoosePrimary(w, hint));
  }

  lemma LeadsWithout(enabled: seq<Skill>, w: seq<Skill>, hint: Option<string>, p: Option<string>, id: string)
    requires (forall s :: s in w <==> s in enabled && s.id != id) && Leads(enabled, hint, p) && p != Some(id)
    ensures Leads(w, hint, p)
  {
    if exists s :: s in enabled && s.role.PrimaryEligible? && hint == Some(s.id) {
      var s :| s in enabled && s.role.PrimaryEligible? && hint == Some(s.id);
      assert s in w;
    } else if exists s :: s in enabled && s.role.PrimaryEligible? {
      var s :| s in enabled && s.role.PrimaryEligible? && p == Some(s.id)
            && forall t :: t in enabled && t.role.PrimaryEligible? ==> Rank(s, t);
      assert s in w;
    }
  }

  lemma SecondariesWithout(enabled: seq<Skill>, p: Option<string>, id: string)
    requires DistinctIds(enabled)
    ensures Secondaries(Without(enabled, id), p) == Without(Secondaries(enabled, p), id)
  {
    var w := Without(enabled, id);
    SecondariesKeep(enabled, p);
    SecondariesKeep(w, p);
    WithoutSorted(Secondaries(enabled, p), id);
    forall s ensures multiset(Secondaries(w, p))[s] == multiset(Without(Secondaries(enabled, p), id))[s] {
      OthersCount(w, p, s);
      OthersCount(enabled, Some(id), s);
      OthersCount(Secondaries(enabled, p), Some(id), s);
      OthersCount(enabled, p, s);
    }
    forall s | s in Secondaries(w, p) ensures s in enabled { WithoutMembers(enabled, id, s); }
    RankDistinguishes(enabled, Secondaries(w, p));
    SortedUnique(Secondaries(w, p), Without(Secondaries(enabled, p), id), Rank);
  }

  /** Disabling a skill that does not lead keeps the combination composable, keeps the leader, and
      deletes exactly that skill's id from the order. */
  lemma RemoveSecondary(base: string, enabled: seq<Skill>, hint: Option<string>, id: string)
    requires DistinctIds(enabled) && Merge(base, enabled, hint).Merged?
    requires Merge(base, enabled, hint).agent.primary != Some(id)
    ensures var before := Merge(base, enabled, hint).agent;
            var after := Merge(base, Without(enabled, id), hint);
            after.Merged? && after.agent.primary == before.primary && after.agent.order == Drop(before.order, id)
  {
    hide ToolUnion, Gather, ById, Persona, Secondaries, ChoosePrimary, FindSkill, FirstConflict, Others;
    var w := Without(enabled, id);
    var p := ChoosePrimary(enabled, hint);
    WithoutDistinct(enabled, id);
    SubsetCompatible(enabled, w, id);
    PrimaryWithout(enabled, hint, id);
    SecondariesWithout(enabled, p, id);
    LeaderIsEnabled(enabled, hint);
    LeaderIsEnabled(w, hint);
    if p.Some? {
      WithoutMembers(enabled, id, Leader(w, p).value);
      DistinctSame(enabled, Leader(enabled, p).value, Leader(w, p).value);
    }
    ArrangedWithout(enabled, p, id);
  }

  lemma SubsetCompatible(enabled: seq<Skill>, w: seq<Skill>, id: string)
    requires DistinctIds(enabled) && w == Without(enabled, id) && DistinctIds(w) && FirstConflict(enabled, 0) == None
    ensures FirstConflict(w, 0) == None
  {
    CompatibleIff(enabled);
    CompatibleIff(w);
    forall s | s in w ensures s in enabled { WithoutMembers(enabled, id, s); }
  }

  lemma ArrangedWithout(enabled: seq<Skill>, p: Option<string>, id: string)
    requires Secondaries(Without(enabled, id), p) == Without(Secondaries(enabled, p), id)
    requires Leader(Without(enabled, id), p) == Leader(enabled, p)
    requires Leader(enabled, p).Some? ==> Leader(enabled, p).value.id != id
    ensures Ids(Arranged(Without(enabled, id), p)) == Drop(Ids(Arranged(enabled, p)), id)
  {
    hide Secondaries, FindSkill, Leader;
    var arranged := Arranged(enabled, p);
    DropIds(arranged, id);
    if Leader(enabled, p).Some? {
      assert arranged[1..] == Secondaries(enabled, p);
    } else {
      assert arranged == Secondaries(enabled, p);
    }
    assert Without(arranged, id) == Arranged(Without(enabled, id), p);
  }
}
