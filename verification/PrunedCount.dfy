/** From a pattern to the count of a pruned run, under any policy. */
module PrunedCount {
  import opened Counting
  import opened Patterns
  import opened Schedules
  import opened Completions
  import opened Closure
  import opened Ir
  import opened Plans
  import opened LoopCode
  import opened PlanCompiler
  import opened PlanCorrect
  import opened Matcher
  import opened ExclusionGroups
  import opened IepPlan
  import opened PlainPlan
  import opened MgPlan
  import opened MgOrder
  import opened MgCollect
  import opened MgCompile
  import opened MgIepPlan
  import opened ListRun
  import opened MgBuild
  import opened PrunedRun

  // ----- which rows the generated code reads -----

  lemma {:induction false} StartReads(induced: bool, op: SetIr, k: nat, n: nat, have: set<MgIr>)
    requires op.Valid() && k <= op.Depth()
    ensures ExprReads(StartExpr(induced, op, k), n, have)
  {
    if k > 0 {
      StartReads(induced, op, k - 1, n, have);
    }
  }

  lemma {:induction false} PlainReads(induced: bool, isLast: bool, op: SetIr, parent: Option<SetIr>, n: nat, have: set<MgIr>)
    requires op.Valid()
    ensures CodeReads(GenCodeOp(induced, isLast, op, parent), n, have)
  {
    hide StartExpr, StepExpr;
    StartReads(induced, op, op.Depth(), n, have);
    if parent.Some? {
      StepReads(induced, op, parent.value, n, have);
      assert ExprReads(Saved(parent.value), n, have);
    }
    var code := GenCodeOp(induced, isLast, op, parent);
    forall k | 0 <= k < |code| ensures InstrReads(code[k], n, have) {
    }
  }

  lemma {:induction false} StepReads(induced: bool, op: SetIr, cut: SetIr, n: nat, have: set<MgIr>)
    requires op.Valid()
    ensures ExprReads(StepExpr(induced, op, cut, Adj(op.Depth())), n, have)
  {
    assert ExprReads(Saved(cut), n, have);
  }

  /** A rewritten operation reads the row of one minigraph for its own loop. */
  lemma {:induction false} MgOpReads(induced: bool, isLast: bool, iter: SetIr, op: SetIr, parent: Option<SetIr>,
                                     mg: Option<MgIr>, have: set<MgIr>)
    requires op.Valid() && (mg.Some? ==> mg.value in have)
    ensures CodeReads(GenCodeMgOp(induced, isLast, iter, op, parent, mg), op.Depth() + 1, have)
  {
    hide Computed, GenCodeOp;
    PlainReads(induced, isLast, op, parent, op.Depth() + 1, have);
    if mg.Some? && parent.Some? {
      assert ExprReads(Saved(parent.value), op.Depth() + 1, have);
      assert ExprReads(Whole(Pruned(mg.value, op.Depth())), op.Depth() + 1, have);
    }
  }

  lemma {:induction false} PieceReads(p: PlanIr, mgs: seq<seq<MgIr>>, code: seq<Instr>, d: nat, t: nat, used: seq<MgIr>)
    requires d < |p.ops| == |p.iter| < |mgs| && t < |p.ops[d]| && IsMgPieceOf(p, mgs, code, d, t) && UsedIn(p, mgs, used, d)
    ensures CodeReads(code, d + 1, Elements(used))
  {
    hide ParentMg, GenCodeMgOp, ParentOf, CodeReads;
    var op := p.ops[d][t];
    var mg := ParentMg(p, mgs, op);
    if mg.Some? {
      assert Reads(p, mgs, mg.value, d, t);
    }
    MgOpReads(p.induced, d == p.n - 2, if d == 0 then p.iter[0] else p.iter[d - 1], op, ParentOf(p.ops, op), mg, Elements(used));
  }

  lemma {:induction false} ChainReads(sets: seq<SetIr>, block: seq<nat>, n: nat, have: set<MgIr>)
    requires BlockFits(sets, block)
    ensures ExprReads(Chain(sets, block), n, have)
    decreases |block|
  {
    var m := |block| - 1;
    if m > 0 {
      ChainReads(sets, block[..m], n, have);
    }
  }

  lemma {:induction false} ProductReads(sets: seq<SetIr>, group: seq<seq<nat>>, val: int, i: Instr, n: nat, have: set<MgIr>)
    requires IsProduct(sets, group, val, i)
    ensures InstrReads(i, n, have)
  {
    hide Chain;
    forall b | 0 <= b < |i.factors| ensures ExprReads(i.factors[b], n, have) {
      ChainReads(sets, group[b], n, have);
    }
  }

  lemma {:induction false} ProductsRead(sets: seq<SetIr>, groups: seq<seq<seq<nat>>>, vals: seq<int>,
                                        code: seq<Instr>, n: nat, have: set<MgIr>)
    requires IsIepCode(sets, groups, vals, code)
    ensures CodeReads(code, n, have)
  {
    hide IsProduct, InstrReads;
    forall r | 0 <= r < |code| ensures InstrReads(code[r], n, have) {
      ProductReads(sets, groups[r], vals[r], code[r], n, have);
    }
  }

  // ----- the minigraphs that each loop reads -----

  method UsedAt(p: PlanIr, mgs: seq<seq<MgIr>>, d: nat) returns (used: seq<MgIr>)
    requires Shaped(p) && |p.ops| == |p.iter| < |mgs| && d < |p.ops|
    ensures UsedIn(p, mgs, used, d)
  {
    hide GoodOps, ParentMg;
    used := [];
    for t := 0 to |p.ops[d]|
      invariant forall m :: m in used <==> exists u :: 0 <= u < t && Reads(p, mgs, m, d, u)
    {
      SetAt(p, d, t);
      var mg := GetParentMg(p, mgs, p.ops[d][t]);
      assert forall m :: Reads(p, mgs, m, d, t) <==> mg == Some(m);
      if mg.Some? && mg.value !in used {
        used := used + [mg.value];
      }
    }
  }

  method UsedLists(p: PlanIr, mgs: seq<seq<MgIr>>, loops: nat) returns (used: seq<seq<MgIr>>)
    requires Shaped(p) && |p.ops| == |p.iter| < |mgs| && loops <= |p.ops|
    ensures |used| == loops && forall d :: 0 <= d < loops ==> UsedIn(p, mgs, used[d], d)
  {
    hide Shaped, UsedIn;
    used := [];
    for d := 0 to loops
      invariant |used| == d && forall e :: 0 <= e < d ==> UsedIn(p, mgs, used[e], e)
    {
      var ms := UsedAt(p, mgs, d);
      used := used + [ms];
    }
  }

  // ----- jobs -----

  /** A wanted minigraph is built from sets its loop maintains, two loops before it is read. */
  lemma {:induction false} WantedMaintained(s: Setting, isStatic: bool, e: nat, m: MgIr)
    requires Shaped(s.p) && s.loops <= |s.p.ops| && e < |s.p.ops| && WantedFrom(s.p, isStatic, s.loops, e, m, 2)
    ensures Maintained(s, e, m)
  {
    hide GoodOps, ServesNext, CutTo;
    var comp :| 2 <= comp < s.loops && WantedAt(s.p, isStatic, e, m, comp, |s.p.ops[comp]|);
    var t: nat :| t < |s.p.ops[comp]| && WantedBy(s.p, isStatic, e, m, comp, t);
    CutListed(s.p, comp, e, s.p.ops[comp][t], m.intersect);
    CutListed(s.p, comp - 1, e, s.p.iter[comp - 1], m.vertices);
  }

  lemma {:induction false} CutListed(p: PlanIr, d: nat, e: nat, op: SetIr, cut: SetIr)
    requires Shaped(p) && e < d < |p.ops| && op in p.ops[d] && op.Valid() && op.Depth() == d && CutTo(op, e) == Some(cut)
    ensures cut in p.ops[e]
  {
    hide GoodOps;
    var t: nat :| t < |p.ops[d]| && p.ops[d][t] == op;
    SetAt(p, d, t);
  }

  lemma {:induction false} MgsAreValid(j: Job, isStatic: bool)
    requires j.s.Valid() && MgPlanOk(j.s.p, isStatic, j.s.loops, j.mgs, j.bounded)
    ensures j.MgsValid()
  {
    hide Setting.Valid, GoodMgs, Levelled, BuildOrder, WantedFrom, Shaped, BoundedSafe, Maintained;
    SettingSizes(j.s);
    SameSize(j.s.p, j.mgs);
    forall e: nat, t: nat | e < |j.s.p.ops| && t < |j.mgs[e]| ensures Maintained(j.s, e, j.mgs[e][t]) {
      WantedMaintained(j.s, isStatic, e, j.mgs[e][t]);
    }
  }

  lemma {:induction false} SameSize(p: PlanIr, mgs: seq<seq<MgIr>>)
    requires GoodMgs(p, mgs)
    ensures |mgs| == p.n
  {
  }

  /** A rewritten program with all its loops is ready to run under any policy. */
  lemma {:induction false} PrunedJob(j: Job, isStatic: bool)
    requires j.s.Valid() && j.s.loops + 1 == j.s.q.n && MgPlanOk(j.s.p, isStatic, j.s.loops, j.mgs, j.bounded)
    requires |j.s.p.ops| == |j.s.p.iter| < |j.mgs| && IsMgProgramOf(j.s.p, j.mgs, j.prog)
    requires |j.used| == j.s.loops && forall d :: 0 <= d < j.s.loops ==> UsedIn(j.s.p, j.mgs, j.used[d], d)
    ensures j.Valid()
  {
    hide Setting.Valid, GoodMgs, Levelled, BuildOrder, WantedFrom, Shaped, BoundedSafe, Maintained, IsMgPieceOf,
      UsedIn, CodeReads, ProgramShape;
    SettingSizes(j.s);
    SameSize(j.s.p, j.mgs);
    MgsAreValid(j, isStatic);
    MgShape(j.s, j.mgs, j.prog);
    forall d: nat | d < j.s.loops ensures BodyReads(j.prog.code[d], d + 1, Elements(j.used[d])) {
      assert IsMgCodeOf(j.s.p, j.mgs, j.prog.code[d], d);
      forall t: nat | t < |j.prog.code[d]| ensures CodeReads(j.prog.code[d][t], d + 1, Elements(j.used[d])) {
        PieceReads(j.s.p, j.mgs, j.prog.code[d][t], d, t, j.used[d]);
      }
    }
    forall ans ensures PiecesGood(j.s, j.mgs, j.bounded, j.prog, ans) {
      GoodPieces(j.s, j.mgs, j.bounded, j.prog, ans);
    }
  }

  lemma {:induction false} GoodPieces(s: Setting, mgs: seq<seq<MgIr>>, bounded: set<MgIr>, prog: Program, ans: Answers)
    requires s.Valid() && s.loops + 1 == s.q.n && |mgs| == s.p.n && GoodMgs(s.p, mgs) && |s.p.ops| == |s.p.iter| < |mgs|
    requires IsMgProgramOf(s.p, mgs, prog) && BoundedSafe(s.p, mgs, bounded, s.loops)
    ensures PiecesGood(s, mgs, bounded, prog, ans)
  {
    hide Setting.Valid, GoodMgs, BoundedSafe, IsMgProgramOf, AnswersGood, AllPiecesRun, LastLoopOk;
    var t := s.(ans := ans);
    OtherAns(s, ans);
    if AnswersGood(t, mgs, bounded) {
      MgPieces(t, mgs, bounded, prog);
      MgLast(t, mgs, prog);
    }
  }

  /** The same with products in place of the last k loops. */
  lemma {:induction false} PrunedIepJob(j: Job, isStatic: bool, k: nat, groups: seq<seq<seq<nat>>>, vals: seq<int>)
    requires MgPlanOk(j.s.p, isStatic, j.s.loops, j.mgs, j.bounded) && MgIepRun(j.s, j.mgs, k, groups, vals, j.prog)
    requires |j.s.p.ops| == |j.s.p.iter| < |j.mgs|
    requires |j.used| == j.s.loops && forall d :: 0 <= d < j.s.loops ==> UsedIn(j.s.p, j.mgs, j.used[d], d)
    ensures j.Valid()
  {
    hide Setting.Valid, GoodMgs, Levelled, BuildOrder, WantedFrom, Shaped, BoundedSafe, Maintained, IsMgPieceOf,
      UsedIn, CodeReads, ProgramShape,
      GoodTables, IsIepCode;
    IepFacts(j.s, k);
    SettingSizes(j.s);
    SameSize(j.s.p, j.mgs);
    MgsAreValid(j, isStatic);
    MgIepShape(j.s, j.mgs, k, groups, vals, j.prog);
    forall d: nat | d < j.s.loops ensures BodyReads(j.prog.code[d], d + 1, Elements(j.used[d])) {
      forall t: nat | t < |j.prog.code[d]| ensures CodeReads(j.prog.code[d][t], d + 1, Elements(j.used[d])) {
        if t < |j.s.p.ops[d]| {
          PieceReads(j.s.p, j.mgs, j.prog.code[d][t], d, t, j.used[d]);
        } else {
          ProductsRead(IepSets(j.s, k), groups, vals, j.prog.code[d][t], d + 1, Elements(j.used[d]));
        }
      }
    }
    forall ans ensures PiecesGood(j.s, j.mgs, j.bounded, j.prog, ans) {
      GoodIepPieces(j.s, j.mgs, j.bounded, j.prog, k, groups, vals, ans);
    }
  }

  lemma {:induction false} GoodIepPieces(s: Setting, mgs: seq<seq<MgIr>>, bounded: set<MgIr>, prog: Program, k: nat,
                                         groups: seq<seq<seq<nat>>>, vals: seq<int>, ans: Answers)
    requires s.Valid() && |s.p.ops| == |s.p.iter| < |mgs| == s.p.n && s.loops <= |s.p.ops|
    requires MgIepRun(s, mgs, k, groups, vals, prog) && BoundedSafe(s.p, mgs, bounded, s.loops)
    ensures PiecesGood(s, mgs, bounded, prog, ans)
  {
    hide Setting.Valid, GoodMgs, BoundedSafe, AnswersGood, PieceRuns, LastLoopOk, IsMgPieceOf, GoodTables, IsIepCode, Partial;
    var t := s.(ans := ans);
    OtherAns(s, ans);
    if AnswersGood(t, mgs, bounded) {
      MgIepElsewhere(s, mgs, k, groups, vals, prog, s.g, ans);
      MgIepShape(t, mgs, k, groups, vals, prog);
      forall d, u, f, env, total | 0 <= d < t.loops && 0 <= u < |t.p.ops[d]|
        ensures PieceRuns(t, prog, d, u, f, env, total)
      {
        MaybePiece(t, mgs, bounded, prog, d, u, f, env, total);
      }
      IepLastOk(t, k, groups, vals, prog);
    }
  }

  // ----- the results -----

  /** Compiling and running with pruning counts the matches: for every pattern that grows
      along edges, every graph, every kind of minigraph and every run-time decision. */
  method CountPruned(g: Graph, q: Query, pairs: seq<Pair>, isStatic: bool, policy: Policy) returns (count: Option<int>)
    requires g.Valid() && q.Valid() && q.n >= 3 && InOrder(pairs, q.n)
    ensures count.Some? <==> Connected(q.adj)
    ensures count.Some? ==> count.value == |Matches(g, q, pairs)|
  {
    hide *;
    var out, p, mgs, bounded, res := CompilePruned(q, pairs, isStatic);
    if out.None? {
      return None;
    }
    PlanFacts(p.value, q, res, isStatic, q.n - 1, mgs, bounded);
    var used := UsedLists(p.value, mgs, q.n - 1);
    var j := Job(Setting(g, q, res, p.value, (m, f) => {}, q.n - 1), mgs, bounded, used, out.value, policy);
    SettingIsValid(j.s);
    PrunedJob(j, isStatic);
    var total := RunPruned(j);
    ProblemIsMatches(g, q, res, pairs);
    count := Some(total);
  }

  /** The same with inclusion-exclusion for the last k vertices: before the division the
      count is that of the maps that obey every closed restriction starting from a looped
      vertex, which are the matches when no restriction starts in the tail. */
  method CountPrunedIep(g: Graph, q: Query, pairs: seq<Pair>, isStatic: bool, policy: Policy, k: nat,
                        groups: seq<seq<seq<nat>>>, vals: seq<int>)
    returns (count: Option<int>, res: Matrix)
    requires g.Valid() && q.Valid() && !q.induced && q.n >= 3 && InOrder(pairs, q.n)
    requires 2 <= k < q.n && Independent(q.adj, q.n - k) && GoodTables(k, groups, vals)
    ensures Square(res, q.n) && Closed(res, pairs, q.n) && (count.Some? <==> Connected(q.adj))
    ensures count.Some? ==> count.value == |All(ProblemOf(g, q, res, q.n - k))|
    ensures count.Some? && StartLooped(pairs, q.n - k) ==> count.value == |Matches(g, q, pairs)|
  {
    hide *;
    var out, p, mgs, bounded;
    out, p, mgs, bounded, res := CompilePrunedIep(q, pairs, isStatic, k, groups, vals);
    if out.None? {
      return None, res;
    }
    PlanFacts(p.value, q, res, isStatic, q.n - k, mgs, bounded);
    var used := UsedLists(p.value, mgs, q.n - k);
    var j := Job(Setting(g, q, res, p.value, (m, f) => {}, q.n - k), mgs, bounded, used, out.value, policy);
    SettingIsValid(j.s);
    MgIepElsewhere(EmptySetting(p.value, q, res, q.n - k), mgs, k, groups, vals, out.value, g, j.s.ans);
    PrunedIepJob(j, isStatic, k, groups, vals);
    var total := RunPruned(j);
    if StartLooped(pairs, q.n - k) {
      NothingDropped(g, q, res, pairs, q.n - k);
    }
    count := Some(total);
  }

  lemma {:induction false} PlanFacts(p: PlanIr, q: Query, res: Matrix, isStatic: bool, loops: nat,
                                     mgs: seq<seq<MgIr>>, bounded: set<MgIr>)
    requires q.Valid() && Square(res, q.n) && Compiled(p, q, res) && MgPlanOk(p, isStatic, loops, mgs, bounded)
    ensures Shaped(p) && |p.ops| == |p.iter| < |mgs| == p.n == q.n && 0 < loops <= |p.ops|
  {
    hide Shaped, GoodMgs, BoundedSafe, BuildOrder, Levelled, WantedFrom;
    SizesShaped(p);
    SameSize(p, mgs);
    PlanSize(p, q, res);
  }

  lemma {:induction false} SettingIsValid(s: Setting)
    requires s.g.Valid() && s.q.Valid() && Square(s.res, s.q.n) && Compiled(s.p, s.q, s.res) && 0 < s.loops < s.q.n
    ensures s.Valid() && s.C() == ProblemOf(s.g, s.q, s.res, if s.loops + 1 == s.q.n then s.q.n else s.loops)
  {
  }
}
