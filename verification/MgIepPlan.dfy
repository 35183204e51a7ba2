/** Pruning and inclusion-exclusion together. */
module MgIepPlan {
  import opened Patterns
  import opened Schedules
  import opened Completions
  import opened Closure
  import opened Ir
  import opened Plans
  import opened LoopCode
  import opened PlanCorrect
  import opened PlainPlan
  import opened Matcher
  import opened ExclusionGroups
  import opened IepPlan
  import opened MgPlan
  import opened MgCollect
  import opened MgCompile

  /** Every piece of the looped part is the rewritten one. */
  ghost predicate MgIepRun(s: Setting, mgs: seq<seq<MgIr>>, k: nat, groups: seq<seq<seq<nat>>>, vals: seq<int>, prog: Program) {
    && IepLayout(s, k, groups, vals, prog) && GoodMgs(s.p, mgs) && |s.p.ops| < |mgs|
    && forall d, t :: 0 <= d < s.loops && 0 <= t < |s.p.ops[d]| && t < |prog.code[d]| ==>
         IsMgPieceOf(s.p, mgs, prog.code[d][t], d, t)
  }

  lemma {:induction false} MgIepShape(s: Setting, mgs: seq<seq<MgIr>>, k: nat, groups: seq<seq<seq<nat>>>,
                                      vals: seq<int>, prog: Program)
    requires MgIepRun(s, mgs, k, groups, vals, prog)
    ensures ProgramShape(s, prog)
  {
    hide Setting.Valid, GoodTables, GoodMgs, IsIepCode, CodeFits, IsMgPieceOf;
    forall d, t | 0 <= d < s.loops && 0 <= t < |s.p.ops[d]| && t < |prog.code[d]| ensures CodeFits(prog.code[d][t], d + 1) {
      MgPieceFits(s.p, mgs, prog.code[d][t], d, t);
    }
    LayoutShape(s, k, groups, vals, prog);
  }

  /** Under any pruning policy whose answers are good, the rewritten loops with the signed
      products count what the unpruned ones count. */
  lemma {:induction false} PrunedIepCounts(s: Setting, mgs: seq<seq<MgIr>>, bounded: set<MgIr>, k: nat,
                                           groups: seq<seq<seq<nat>>>, vals: seq<int>, prog: Program)
    requires MgIepRun(s, mgs, k, groups, vals, prog)
    requires BoundedSafe(s.p, mgs, bounded, s.loops) && AnswersGood(s, mgs, bounded)
    ensures ProgramFits(prog) && |prog.code| > 0
    ensures Run(s.g, s.ans, prog) == |All(ProblemOf(s.g, s.q, s.res, s.q.n - k))|
  {
    hide Setting.Valid, Partial, IsMgPieceOf, PieceRuns, GoodTables, GoodMgs, IsIepCode, Run, All, BoundedSafe, AnswersGood;
    MgIepShape(s, mgs, k, groups, vals, prog);
    forall d, t, f, env, total | 0 <= d < s.loops && 0 <= t < |s.p.ops[d]|
      ensures PieceRuns(s, prog, d, t, f, env, total)
    {
      MaybePiece(s, mgs, bounded, prog, d, t, f, env, total);
    }
    IepCounts(s, k, groups, vals, prog);
  }

  method GenMgIepPlan(p: PlanIr, mgs: seq<seq<MgIr>>, ghost s: Setting, k: nat, groups: seq<seq<seq<nat>>>, vals: seq<int>)
    returns (prog: Program)
    requires IepReady(s, k) && s.p == p && p.n == s.loops + k && GoodTables(k, groups, vals)
    requires Shaped(p) && |mgs| == p.n && GoodMgs(p, mgs)
    ensures MgIepRun(s, mgs, k, groups, vals, prog)
  {
    hide Setting.Valid, GoodTables, IsMgPieceOf, IepLayout, GoodMgs, Shaped;
    IepFacts(s, k);
    SizesShaped(p);
    var code := GenMgLoops(p, mgs, p.n - k);
    forall d | 0 <= d < s.loops ensures |code[d]| == |p.ops[d]| {
      assert IsMgCodeOf(p, mgs, code[d], d);
    }
    prog := AppendProducts(p, s, k, groups, vals, code);
    forall d, t | 0 <= d < s.loops && 0 <= t < |s.p.ops[d]| && t < |prog.code[d]| ensures IsMgPieceOf(s.p, mgs, prog.code[d][t], d, t) {
      MgCodeHasPiece(p, mgs, code[d], d, t);
    }
  }

  /** From a pattern whose last k vertices are independent to pruned loops and products
      that count on every graph, whatever the pruning policy. */
  method CompilePrunedIep(q: Query, pairs: seq<Pair>, isStatic: bool, k: nat, groups: seq<seq<seq<nat>>>, vals: seq<int>)
    returns (out: Option<Program>, p: Option<PlanIr>, mgs: seq<seq<MgIr>>, bounded: set<MgIr>, res: Matrix)
    requires q.Valid() && !q.induced && q.n >= 3 && InOrder(pairs, q.n)
    requires 2 <= k < q.n && Independent(q.adj, q.n - k) && GoodTables(k, groups, vals)
    ensures Square(res, q.n) && Closed(res, pairs, q.n) && (out.Some? <==> Connected(q.adj)) && (out.Some? <==> p.Some?)
    ensures out.Some? ==> Compiled(p.value, q, res) && ProgramFits(out.value) && |out.value.code| > 0
    ensures out.Some? ==> MgPlanOk(p.value, isStatic, q.n - k, mgs, bounded)
    ensures out.Some? ==> MgIepRun(EmptySetting(p.value, q, res, q.n - k), mgs, k, groups, vals, out.value)
    ensures out.Some? ==> forall g: Graph, ans: Answers ::
      (g.Valid() && AnswersGood(Setting(g, q, res, p.value, ans, q.n - k), mgs, bounded)) ==>
        Run(g, ans, out.value) == |All(ProblemOf(g, q, res, q.n - k))|
  {
    hide Compiled, Closed, Run, ProgramFits, All, AnswersGood, GoodMgs, BoundedSafe, Shaped, GoodTables, Independent,
      Connected, InOrder,
      MgIepRun;
    mgs, bounded := [], {};
    p, res := CreatePlan(q, pairs);
    if p.None? {
      return None, p, mgs, bounded, res;
    }
    ghost var s := EmptySetting(p.value, q, res, q.n - k);
    CompiledIsShaped(s);
    PlanSize(p.value, q, res);
    mgs, bounded := CreatePlanMg(p.value, isStatic, q.n - k);
    var prog := GenMgIepPlan(p.value, mgs, s, k, groups, vals);
    MgIepFits(s, mgs, k, groups, vals, prog);
    forall g: Graph, ans: Answers | g.Valid() && AnswersGood(Setting(g, q, res, p.value, ans, q.n - k), mgs, bounded)
      ensures Run(g, ans, prog) == |All(ProblemOf(g, q, res, q.n - k))|
    {
      MgIepElsewhere(s, mgs, k, groups, vals, prog, g, ans);
      PrunedIepCounts(s.(g := g, ans := ans), mgs, bounded, k, groups, vals, prog);
    }
    out := Some(prog);
  }

  ghost function EmptySetting(p: PlanIr, q: Query, res: Matrix, loops: nat): (s: Setting)
    requires q.Valid() && Square(res, q.n) && Compiled(p, q, res) && 0 < loops < q.n
    ensures s.Valid() && s.q == q && s.res == res && s.p == p && s.loops == loops && p.n == q.n
  {
    Setting(Graph([]), q, res, p, (m, f) => {}, loops)
  }

  lemma {:induction false} MgIepFits(s: Setting, mgs: seq<seq<MgIr>>, k: nat, groups: seq<seq<seq<nat>>>,
                                     vals: seq<int>, prog: Program)
    requires MgIepRun(s, mgs, k, groups, vals, prog)
    ensures ProgramFits(prog) && |prog.code| > 0
  {
    hide Setting.Valid, GoodTables, GoodMgs, IsIepCode, ProgramFits, IsMgPieceOf;
    IepFacts(s, k);
    MgIepShape(s, mgs, k, groups, vals, prog);
  }

  /** The program does not depend on the graph it was generated beside. */
  lemma {:induction false} MgIepElsewhere(s: Setting, mgs: seq<seq<MgIr>>, k: nat, groups: seq<seq<seq<nat>>>, vals: seq<int>,
                                          prog: Program, g: Graph, ans: Answers)
    requires MgIepRun(s, mgs, k, groups, vals, prog) && g.Valid()
    ensures MgIepRun(s.(g := g, ans := ans), mgs, k, groups, vals, prog)
  {
    hide GoodTables, IsMgPieceOf, IsIepCode, Compiled, Independent, GoodMgs;
    var h := s.(g := g, ans := ans);
    assert IepReady(h, k);
    forall i | 0 <= i < k ensures IepSetAt(h, k, i) == IepSetAt(s, k, i) {
    }
    assert IepSets(h, k) == IepSets(s, k);
  }
}
