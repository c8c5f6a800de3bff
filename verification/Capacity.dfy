/** The context-capacity gate (`capacity.rs`): saturating 32-bit figures, and what they say about the
    true ones. */
module Capacity {
  import opened Orchestrator

  const RESERVE_FRACTION_DENOM: int := 4
  const MIN_RESERVE_TOKENS: int := 512
  const PER_TOOL_TOKENS: int := 8
  const PER_PANEL_TOKENS: int := 16

  function Saturate(n: nat): U32 { if n > U32_MAX then U32_MAX else n }
  function SatAdd(a: U32, b: U32): U32 { Saturate(a + b) }
  function SatMul(a: U32, b: U32): U32 { Saturate(a * b) }

  datatype Status = Fits | Blocked(overflow: U32)
  datatype Projection = Projection(
    ctxWindow: U32, reserveTokens: U32, skillTokens: U32, usedTokens: U32, remaining: U32, status: Status)

  function SkillCost(s: Skill): U32 {
    SatAdd(SatAdd(s.cost.promptTokens, SatMul(s.cost.tools, PER_TOOL_TOKENS)), SatMul(s.cost.panels, PER_PANEL_TOKENS))
  }

  function Reserve(ctx: U32): U32 {
    if ctx / RESERVE_FRACTION_DENOM > MIN_RESERVE_TOKENS then ctx / RESERVE_FRACTION_DENOM else MIN_RESERVE_TOKENS
  }

  /** The left fold of the skills' costs. */
  function FoldCost(acc: U32, enabled: seq<Skill>): U32
    decreases enabled
  {
    if enabled == [] then acc else FoldCost(SatAdd(acc, SkillCost(enabled[0])), enabled[1..])
  }

  function ProjectLive(enabled: seq<Skill>, ctx: U32, live: U32): Projection {
    var reserve := Reserve(ctx);
    var skills := FoldCost(0, enabled);
    Judge(ctx, reserve, skills, SatAdd(SatAdd(reserve, live), skills))
  }

  function Judge(ctx: U32, reserve: U32, skills: U32, used: U32): Projection {
    if used > ctx then Projection(ctx, reserve, skills, used, 0, Blocked(used - ctx))
    else Projection(ctx, reserve, skills, used, ctx - used, Fits)
  }

  function Project(enabled: seq<Skill>, ctx: U32): Projection { ProjectLive(enabled, ctx, 0) }

  // ------------------------------------------------------------- the true figures

  function TrueCost(s: Skill): nat { s.cost.promptTokens + s.cost.tools * 8 + s.cost.panels * 16 }

  function TrueSum(enabled: seq<Skill>): nat {
    if enabled == [] then 0 else TrueCost(enabled[0]) + TrueSum(enabled[1..])
  }

  function TrueTotal(enabled: seq<Skill>, ctx: U32, live: U32): nat { Reserve(ctx) + live + TrueSum(enabled) }

  lemma CostExact(s: Skill)
    ensures SkillCost(s) == Saturate(TrueCost(s))
  {
  }

  lemma SatOnce(a: nat, b: nat)
    ensures SatAdd(Saturate(a), Saturate(b)) == Saturate(a + b)
  {
  }

  lemma {:induction false} FoldExact(acc: U32, sum: nat, enabled: seq<Skill>)
    requires acc == Saturate(sum)
    ensures FoldCost(acc, enabled) == Saturate(sum + TrueSum(enabled))
    decreases enabled
  {
    hide SkillCost, TrueCost, Saturate, SatAdd;
    if enabled != [] {
      CostExact(enabled[0]);
      SatOnce(sum, TrueCost(enabled[0]));
      FoldExact(SatAdd(acc, SkillCost(enabled[0])), sum + TrueCost(enabled[0]), enabled[1..]);
    }
  }

  lemma FiguresExact(enabled: seq<Skill>, ctx: U32, live: U32)
    ensures ProjectLive(enabled, ctx, live) ==
            Judge(ctx, Reserve(ctx), Saturate(TrueSum(enabled)), Saturate(TrueTotal(enabled, ctx, live)))
  {
    hide Reserve, FoldCost, TrueSum, Saturate, SatAdd, Judge;
    SatZero();
    FoldExact(0, 0, enabled);
    SatSmall(Reserve(ctx));
    SatSmall(live);
    SatOnce(Reserve(ctx), live);
    SatOnce(Reserve(ctx) + live, TrueSum(enabled));
  }

  lemma SatZero()
    ensures Saturate(0) == 0
  {
  }

  lemma SatSmall(n: U32)
    ensures Saturate(n) == n
  {
  }

  /** The working reserve: the least number of tokens that is at least 512 and leaves no more than three
      quarters of the window, rounded up, to everything else. */
  ghost predicate IsReserve(r: nat, ctx: nat) {
    && r >= 512 && 4 * r + 3 >= ctx
    && forall q: nat :: q >= 512 && 4 * q + 3 >= ctx ==> r <= q
  }

  lemma ReserveIsLeast(ctx: U32)
    ensures IsReserve(Reserve(ctx), ctx)
  {
  }

  /** The nested saturating arithmetic saturates only once: every figure is the true one, capped, over the
      working reserve. So the gate blocks exactly when the true total exceeds the window, unless the window
      is the cap itself; the overflow and the remainder are the true differences, never both non-zero, and
      both zero on an exact fit. */
  lemma GateExact(enabled: seq<Skill>, ctx: U32, live: U32, reserve: nat)
    requires IsReserve(reserve, ctx)
    ensures var p := ProjectLive(enabled, ctx, live);
            var total := reserve + live + TrueSum(enabled);
            && p.ctxWindow == ctx && p.reserveTokens == reserve
            && p.skillTokens == Saturate(TrueSum(enabled)) && p.usedTokens == Saturate(total)
            && (ctx < U32_MAX ==> (p.status.Blocked? <==> total > ctx))
            && (ctx == U32_MAX ==> p.status.Fits?)
            && (p.status.Blocked? ==>
                  p.remaining == 0 && p.status.overflow == Saturate(total) - ctx && p.status.overflow > 0)
            && (p.status.Fits? ==> p.remaining == ctx - Saturate(total))
            && (p.status.Fits? && p.remaining == 0 <==> total == ctx || (ctx == U32_MAX && total > ctx))
  {
    hide ProjectLive, TrueSum, Reserve, IsReserve, Saturate, Judge;
    FiguresExact(enabled, ctx, live);
    ReserveIsLeast(ctx);
    ReserveUnique(Reserve(ctx), reserve, ctx);
    JudgeExact(ctx, Reserve(ctx), Saturate(TrueSum(enabled)), TrueTotal(enabled, ctx, live));
  }

  lemma ReserveUnique(r: nat, q: nat, ctx: nat)
    requires IsReserve(r, ctx) && IsReserve(q, ctx)
    ensures r == q
  {
  }

  lemma JudgeExact(ctx: U32, reserve: U32, skills: U32, total: nat)
    ensures var p := Judge(ctx, reserve, skills, Saturate(total));
            && p.ctxWindow == ctx && p.reserveTokens == reserve
            && p.skillTokens == skills && p.usedTokens == Saturate(total)
            && (ctx < U32_MAX ==> (p.status.Blocked? <==> total > ctx))
            && (ctx == U32_MAX ==> p.status.Fits?)
            && (p.status.Blocked? ==>
                  p.remaining == 0 && p.status.overflow == Saturate(total) - ctx && p.status.overflow > 0)
            && (p.status.Fits? ==> p.remaining == ctx - Saturate(total))
            && (p.status.Fits? && p.remaining == 0 <==> total == ctx || (ctx == U32_MAX && total > ctx))
  {
  }

  // ------------------------------------------------------------ order and subsets

  function Removed<T>(s: seq<T>, j: nat): seq<T>
    requires j < |s|
  {
    s[..j] + s[j + 1..]
  }

  lemma {:induction false} SumRemoved(enabled: seq<Skill>, j: nat)
    requires j < |enabled|
    ensures TrueSum(enabled) == TrueCost(enabled[j]) + TrueSum(Removed(enabled, j))
  {
    var r := Removed(enabled, j);
    if j == 0 {
      assert r == enabled[1..];
    } else {
      SumRemoved(enabled[1..], j - 1);
      assert r == [enabled[0]] + Removed(enabled[1..], j - 1);
    }
  }

  lemma RemovedMultiset<T>(s: seq<T>, j: nat)
    requires j < |s|
    ensures multiset(Removed(s, j)) == multiset(s) - multiset{s[j]}
  {
    assert s == s[..j] + [s[j]] + s[j + 1..];
  }

  lemma HeadWithin<T>(a: seq<T>, b: seq<T>) returns (j: nat)
    requires a != [] && multiset(a) <= multiset(b)
    ensures j < |b| && b[j] == a[0] && multiset(a[1..]) <= multiset(Removed(b, j))
  {
    assert a == [a[0]] + a[1..];
    assert a[0] in multiset(b);
    j :| 0 <= j < |b| && b[j] == a[0];
    RemovedMultiset(b, j);
  }

  /** A sub-list, in any order, costs no more. */
  lemma {:induction false} SumMonotone(a: seq<Skill>, b: seq<Skill>)
    requires multiset(a) <= multiset(b)
    ensures TrueSum(a) <= TrueSum(b)
  {
    if a != [] {
      var j := HeadWithin(a, b);
      SumMonotone(a[1..], Removed(b, j));
      SumRemoved(b, j);
    }
  }

  /** What fits still fits with fewer skills, in any order. */
  lemma FitsDownward(a: seq<Skill>, b: seq<Skill>, ctx: U32, live: U32)
    requires multiset(a) <= multiset(b) && ProjectLive(b, ctx, live).status.Fits?
    ensures ProjectLive(a, ctx, live).status.Fits?
            && ProjectLive(a, ctx, live).remaining >= ProjectLive(b, ctx, live).remaining
  {
    SumMonotone(a, b);
    ReserveIsLeast(ctx);
    GateExact(a, ctx, live, Reserve(ctx));
    GateExact(b, ctx, live, Reserve(ctx));
  }
}
