/** Laws of the composition pipeline (`composition.rs`): what composes still composes with fewer skills,
    in any order, under any lead and preamble. */
module CompositionLaws {
  import opened Text
  import opened Json
  import opened Orchestrator
  import opened OrchestratorLaws
  import opened Capacity
  import opened Composition

  /** Conflict-freedom as a property of the collection: no two occurrences block each other. */
  ghost predicate Peaceful(m: multiset<Skill>) {
    forall a, b :: a in m && b in m && (a != b || m[a] >= 2) ==> !Blocks(a, b)
  }

  lemma {:induction false} TwoPlaces(s: seq<Skill>, x: Skill) returns (i: nat, j: nat)
    requires multiset(s)[x] >= 2
    ensures i < j < |s| && s[i] == x && s[j] == x
  {
    assert s == [s[0]] + s[1..];
    if s[0] == x {
      assert x in multiset(s[1..]);
      var k :| 0 <= k < |s[1..]| && s[1..][k] == x;
      i, j := 0, k + 1;
    } else {
      i, j := TwoPlaces(s[1..], x);
      i, j := i + 1, j + 1;
    }
  }

  lemma PeacefulIff(enabled: seq<Skill>)
    ensures FirstConflict(enabled, 0) == None <==> Peaceful(multiset(enabled))
  {
    ConflictFound(enabled, 0);
    var r := FirstConflict(enabled, 0);
    if r.Some? {
      var i, j := r.value.0, r.value.1;
      assert enabled[i] in multiset(enabled) && enabled[j] in multiset(enabled);
      if enabled[i] == enabled[j] { TwiceCounts(enabled, i, j); }
    } else {
      forall a, b | a in multiset(enabled) && b in multiset(enabled) && (a != b || multiset(enabled)[a] >= 2)
        ensures !Blocks(a, b)
      {
        if a == b {
          var i, j := TwoPlaces(enabled, a);
          assert !Blocks(enabled[i], enabled[j]);
        } else {
          var i :| 0 <= i < |enabled| && enabled[i] == a;
          var j :| 0 <= j < |enabled| && enabled[j] == b;
          assert !Blocks(enabled[if i < j then i else j], enabled[if i < j then j else i]);
        }
      }
    }
  }

  lemma {:induction false} ViewsRemoved(manifests: seq<Value>, j: nat)
    requires j < |manifests| && ParseSkill(manifests[j]).Some?
    ensures multiset(Views(manifests)) == multiset{ParseSkill(manifests[j]).value}
            + multiset(Views(Removed(manifests, j)))
  {
    hide ParseSkill, Views;
    var m, rest := manifests[0], manifests[1..];
    assert manifests == [m] + rest;
    FirstView(m, rest);
    if j == 0 {
      assert Removed(manifests, 0) == rest;
    } else {
      ViewsRemoved(rest, j - 1);
      FirstView(m, Removed(rest, j - 1));
      assert Removed(manifests, j) == [m] + Removed(rest, j - 1);
    }
  }

  lemma FirstView(m: Value, rest: seq<Value>)
    ensures multiset(Views([m] + rest)) ==
            (if ParseSkill(m).Some? then multiset{ParseSkill(m).value} else multiset{}) + multiset(Views(rest))
  {
    hide ParseSkill;
    assert ([m] + rest)[1..] == rest;
  }

  lemma {:induction false} ViewsWithin(a: seq<Value>, b: seq<Value>)
    requires multiset(a) <= multiset(b) && forall m :: m in b ==> ParseSkill(m).Some?
    ensures multiset(Views(a)) <= multiset(Views(b))
  {
    hide ParseSkill;
    if a != [] {
      var j := HeadWithin(a, b);
      assert forall m :: m in Removed(b, j) ==> m in b;
      ViewsWithin(a[1..], Removed(b, j));
      ViewsRemoved(b, j);
      ViewsRemoved(a, 0);
      assert Removed(a, 0) == a[1..];
    }
  }

  /** Composability is downward closed: if a list of manifests composes, every sub-list does, in any
      order, with any preamble and any hint. */
  lemma ComposesDownward(base: string, hint: Option<string>, b: seq<Value>, ctx: U32, a: seq<Value>, base': string,
      hint': Option<string>)
    requires multiset(a) <= multiset(b) && Pipeline(base, b, hint, ctx).Composed?
    ensures Pipeline(base', a, hint', ctx).Composed?
  {
    hide ParseSkill, Acceptable, Views, Peaceful, ProjectLive, FirstConflict, ChoosePrimary, Arranged,
      ToolUnion, Persona;
    InvalidFound(b, 0);
    MalformedFound(b, 0);
    forall k | 0 <= k < |a| ensures Acceptable(a[k]) && ParseSkill(a[k]).Some? {
      assert a[k] in multiset(a);
      assert a[k] in b;
    }
    InvalidFound(a, 0);
    MalformedFound(a, 0);
    ViewsWithin(a, b);
    PeacefulIff(Views(a));
    PeacefulIff(Views(b));
    PeacefulWithin(multiset(Views(a)), multiset(Views(b)));
    FitsDownward(Views(a), Views(b), ctx, 0);
  }

  lemma PeacefulWithin(m: multiset<Skill>, n: multiset<Skill>)
    requires m <= n && Peaceful(n)
    ensures Peaceful(m)
  {
  }
}
