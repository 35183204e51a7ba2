/** The rest of create_plan_mg and the pruned code generator. */
module MgCompile {
  import opened Counting
  import opened Patterns
  import opened Schedules
  import opened Closure
  import opened Ir
  import opened Plans
  import opened LoopCode
  import opened PlanCorrect
  import opened PlainPlan
  import opened MgPlan
  import opened MgCollect
  import opened MgOrder
  import opened MgMark

  // ----- dropping the unused -----

  function Only(ms: seq<MgIr>, used: set<MgIr>): (r: seq<MgIr>) {
    if |ms| == 0 then [] else Only(ms[..|ms| - 1], used) + if ms[|ms| - 1] in used then [ms[|ms| - 1]] else []
  }

  ghost predicate Kept(mgs: seq<seq<MgIr>>, used: set<MgIr>, kept: seq<seq<MgIr>>) {
    |kept| == |mgs| && forall e :: 0 <= e < |mgs| ==> kept[e] == Only(mgs[e], used)
  }

  method DropUnused(mgs: seq<seq<MgIr>>, used: set<MgIr>) returns (kept: seq<seq<MgIr>>)
    ensures Kept(mgs, used, kept)
  {
    kept := [];
    for e := 0 to |mgs|
      invariant |kept| == e
      invariant forall a :: 0 <= a < e ==> kept[a] == Only(mgs[a], used)
    {
      var level: seq<MgIr> := [];
      for t := 0 to |mgs[e]|
        invariant level == Only(mgs[e][..t], used)
      {
        assert mgs[e][..t + 1][..t] == mgs[e][..t];
        if mgs[e][t] in used {
          level := level + [mgs[e][t]];
        }
      }
      assert mgs[e][..|mgs[e]|] == mgs[e];
      kept := kept + [level];
    }
  }

  lemma {:induction false} OnlyPrefix(ms: seq<MgIr>, used: set<MgIr>, t: nat)
    requires t <= |ms|
    ensures Only(ms[..t], used) <= Only(ms, used)
    decreases |ms| - t
  {
    if t < |ms| {
      OnlyPrefix(ms, used, t + 1);
      assert ms[..t + 1][..t] == ms[..t];
    } else {
      assert ms[..t] == ms;
    }
  }

  lemma {:induction false} OnlyMembers(ms: seq<MgIr>, used: set<MgIr>)
    ensures forall m :: m in Only(ms, used) <==> m in ms && m in used
  {
    if |ms| > 0 {
      OnlyMembers(ms[..|ms| - 1], used);
      assert ms == ms[..|ms| - 1] + [ms[|ms| - 1]];
    }
  }

  /** Dropping unmarked minigraphs does not change which one is found. */
  lemma {:induction false} CoverKept(mgs: seq<seq<MgIr>>, used: set<MgIr>, kept: seq<seq<MgIr>>,
                                     vertices: SetIr, op: SetIr, induced: bool, e: nat, t: nat, k: nat)
    requires Kept(mgs, used, kept) && e <= |mgs|
    requires if e < |mgs| then t <= |mgs[e]| && k == |Only(mgs[e][..t], used)| && k <= |kept[e]| else t == 0 && k == 0
    requires var r := LastCover(mgs, vertices, op, induced, e, t); r.Some? ==> r.value in used
    ensures LastCover(kept, vertices, op, induced, e, k) == LastCover(mgs, vertices, op, induced, e, t)
    decreases e, t
  {
    hide Covers;
    if t > 0 {
      var m := mgs[e][t - 1];
      assert mgs[e][..t][..t - 1] == mgs[e][..t - 1];
      OnlyPrefix(mgs[e], used, t);
      if m in used {
        assert kept[e][k - 1] == Only(mgs[e][..t], used)[k - 1] == m;
      }
      if !Covers(m, vertices, op, induced) {
        CoverKept(mgs, used, kept, vertices, op, induced, e, t - 1, if m in used then k - 1 else k);
      }
    } else if e > 0 {
      assert mgs[e - 1][..|mgs[e - 1]|] == mgs[e - 1];
      CoverKept(mgs, used, kept, vertices, op, induced, e - 1, |mgs[e - 1]|, |kept[e - 1]|);
    }
  }

  /** A set whose minigraph is marked reads the same one among those that are kept. */
  lemma {:induction false} ReaderKept(p: PlanIr, mgs: seq<seq<MgIr>>, used: set<MgIr>, kept: seq<seq<MgIr>>, op: SetIr)
    requires op.Valid() && op.Depth() < |p.iter| < |mgs| && Kept(mgs, used, kept)
    requires ParentMg(p, mgs, op).Some? ==> ParentMg(p, mgs, op).value in used
    ensures ParentMg(p, kept, op) == ParentMg(p, mgs, op)
  {
    if MayUse(op, p.induced) {
      CoverKept(mgs, used, kept, p.iter[op.Depth() - 1], op, p.induced, op.Depth(), 0, 0);
    }
  }

  /** Every set of the first `loops` loops reads among `kept` what it reads among mgs. */
  ghost predicate SameReads(p: PlanIr, mgs: seq<seq<MgIr>>, kept: seq<seq<MgIr>>, loops: nat)
    requires loops <= |p.ops| == |p.iter| < |mgs| == |kept|
  {
    forall d, t :: 0 <= d < loops && 0 <= t < |p.ops[d]| ==> SameRead(p, mgs, kept, d, p.ops[d][t])
  }

  ghost predicate SameRead(p: PlanIr, mgs: seq<seq<MgIr>>, kept: seq<seq<MgIr>>, d: nat, op: SetIr)
    requires d < |p.iter| < |mgs| == |kept|
  {
    op.Valid() && op.Depth() == d && ParentMg(p, kept, op) == ParentMg(p, mgs, op)
  }

  lemma {:induction false} KeptReads(p: PlanIr, mgs: seq<seq<MgIr>>, used: set<MgIr>, kept: seq<seq<MgIr>>, loops: nat)
    requires Shaped(p) && |mgs| == p.n && Kept(mgs, used, kept) && loops <= |p.ops|
    requires forall m :: ReadBy(p, mgs, m, loops) ==> m in used
    ensures SameReads(p, mgs, kept, loops)
  {
    hide ParentMg, GoodOps, Only;
    forall d, t | 0 <= d < loops && 0 <= t < |p.ops[d]| ensures SameRead(p, mgs, kept, d, p.ops[d][t]) {
      SetAt(p, d, t);
      var r := ParentMg(p, mgs, p.ops[d][t]);
      if r.Some? {
        assert Reads(p, mgs, r.value, d, t);
        assert ReadBy(p, mgs, r.value, loops);
      }
      ReaderKept(p, mgs, used, kept, p.ops[d][t]);
    }
  }

  lemma {:induction false} KeptIsGood(p: PlanIr, mgs: seq<seq<MgIr>>, used: set<MgIr>, kept: seq<seq<MgIr>>)
    requires GoodMgs(p, mgs) && Kept(mgs, used, kept)
    ensures GoodMgs(p, kept)
  {
    hide Ones;
    forall e, t | 0 <= e < |kept| && 0 <= t < |kept[e]|
      ensures kept[e][t].Valid() && kept[e][t].Depth() == e && e + 4 <= p.n && Ones(kept[e][t].intersect.edges) > 0
    {
      OnlyMembers(mgs[e], used);
      assert kept[e][t] in mgs[e];
      var u :| 0 <= u < |mgs[e]| && mgs[e][u] == kept[e][t];
    }
  }

  lemma {:induction false} KeptIsSafe(p: PlanIr, mgs: seq<seq<MgIr>>, kept: seq<seq<MgIr>>, bounded: set<MgIr>, loops: nat)
    requires Shaped(p) && |mgs| == |kept| == p.n && loops <= |p.ops|
    requires SameReads(p, mgs, kept, loops) && BoundedSafe(p, mgs, bounded, loops)
    ensures BoundedSafe(p, kept, bounded, loops)
  {
    hide ParentMg, GoodOps;
    forall d, t | 0 <= d < loops && 0 <= t < |p.ops[d]| ensures UserSafe(p, kept, bounded, d, p.ops[d][t]) {
      assert UserSafe(p, mgs, bounded, d, p.ops[d][t]) && SameRead(p, mgs, kept, d, p.ops[d][t]);
    }
  }

  /** Dropping keeps the order. */
  lemma {:induction false} OnlyOrder(ms: seq<MgIr>, used: set<MgIr>, i: nat, j: nat) returns (a: nat, b: nat)
    requires i < j < |Only(ms, used)|
    ensures a < b < |ms| && ms[a] == Only(ms, used)[i] && ms[b] == Only(ms, used)[j]
  {
    var n := |ms| - 1;
    if j < |Only(ms[..n], used)| {
      a, b := OnlyOrder(ms[..n], used, i, j);
    } else {
      b := n;
      OnlyMembers(ms[..n], used);
      assert Only(ms[..n], used)[i] in ms[..n];
      a :| 0 <= a < n && ms[..n][a] == Only(ms[..n], used)[i];
    }
  }

  lemma {:induction false} OnlyDistinct(ms: seq<MgIr>, used: set<MgIr>)
    requires Distinct(ms)
    ensures Distinct(Only(ms, used))
  {
    var r := Only(ms, used);
    forall i: nat, j: nat | i < j < |r| ensures r[i] != r[j] {
      var a, b := OnlyOrder(ms, used, i, j);
    }
  }

  lemma {:induction false} KeptLevelled(p: PlanIr, mgs: seq<seq<MgIr>>, used: set<MgIr>, kept: seq<seq<MgIr>>)
    requires GoodMgs(p, mgs) && Levelled(mgs) && Kept(mgs, used, kept)
    ensures Levelled(kept)
  {
    KeptIsGood(p, mgs, used, kept);
    forall e | 0 <= e < |kept| ensures Distinct(kept[e]) {
      OnlyDistinct(mgs[e], used);
    }
  }

  /** What is kept can be built loop by loop, each minigraph after its parent. */
  lemma {:induction false} KeptInOrder(p: PlanIr, mgs: seq<seq<MgIr>>, used: set<MgIr>, kept: seq<seq<MgIr>>, bounded: set<MgIr>)
    requires GoodMgs(p, mgs) && Levelled(mgs) && Kept(mgs, used, kept) && NoneShadowed(mgs, used, p.induced, bounded)
    ensures BuildOrder(kept, p.induced, bounded)
  {
    hide GoodMgs, MayFeed;
    KeptLevelled(p, mgs, used, kept);
    forall e: nat, t: nat | e < |kept| && t < |kept[e]| ensures !Shadowed(kept, e, t, p.induced, bounded) {
      forall u: nat | t < u < |kept[e]| ensures !MayFeed(kept[e][u], kept[e][t], p.induced, bounded) {
        var a, b := OnlyOrder(mgs[e], used, t, u);
        OnlyMembers(mgs[e], used);
        assert kept[e][t] in used;
        assert !Shadowed(mgs, e, a, p.induced, bounded);
      }
    }
    UnshadowedOrder(kept, p.induced, bounded);
  }

  lemma {:induction false} CollectedLevelled(p: PlanIr, isStatic: bool, loops: nat, mgs: seq<seq<MgIr>>)
    requires Shaped(p) && loops <= |p.ops| && Collected(p, isStatic, loops, mgs) && GoodMgs(p, mgs)
    ensures Levelled(mgs)
  {
    hide WantedFrom, GoodOps;
  }

  /** r takes its entries from ms in their order. */
  ghost predicate SameOrder(ms: seq<MgIr>, r: seq<MgIr>) {
    forall i, j :: 0 <= i < j < |r| ==> StandsBefore(ms, r[i], r[j])
  }

  ghost predicate StandsBefore(ms: seq<MgIr>, x: MgIr, y: MgIr) {
    exists a, b :: 0 <= a < b < |ms| && ms[a] == x && ms[b] == y
  }

  /** kept lists exactly the needed ones of mgs, in their order, and every set reads the
      same minigraph as before. */
  ghost predicate KeepsNeeded(p: PlanIr, mgs: seq<seq<MgIr>>, bounded: set<MgIr>, loops: nat, kept: seq<seq<MgIr>>)
    requires loops <= |p.ops| == |p.iter| < |mgs|
  {
    && |kept| == |mgs| && SameReads(p, mgs, kept, loops)
    && forall e: nat :: e < |mgs| ==> KeptLevel(p, mgs, bounded, loops, kept, e)
  }

  ghost predicate KeptLevel(p: PlanIr, mgs: seq<seq<MgIr>>, bounded: set<MgIr>, loops: nat, kept: seq<seq<MgIr>>, e: nat)
    requires loops <= |p.ops| == |p.iter| < |mgs| == |kept| && e < |mgs|
  {
    && (forall m :: m in kept[e] <==> m in mgs[e] && Needed(p, mgs, bounded, loops, m))
    && SameOrder(mgs[e], kept[e])
  }

  /** The minigraphs are the needed ones among all that are wanted. */
  ghost predicate ChosenFrom(p: PlanIr, isStatic: bool, loops: nat, kept: seq<seq<MgIr>>, bounded: set<MgIr>)
    requires Shaped(p) && loops <= |p.ops|
  {
    exists mgs :: Collected(p, isStatic, loops, mgs)
      && Flagged(p, mgs, bounded, Members(mgs), loops) && KeepsNeeded(p, mgs, bounded, loops, kept)
  }

  lemma {:induction false} OnlySameOrder(ms: seq<MgIr>, used: set<MgIr>)
    ensures SameOrder(ms, Only(ms, used))
  {
    hide Only;
    var r := Only(ms, used);
    forall i: nat, j: nat | i < j < |r| ensures StandsBefore(ms, r[i], r[j]) {
      var a, b := OnlyOrder(ms, used, i, j);
    }
  }

  lemma {:induction false} ReadIsNeeded(p: PlanIr, mgs: seq<seq<MgIr>>, bounded: set<MgIr>, loops: nat)
    requires loops <= |p.ops| == |p.iter| < |mgs|
    ensures forall m :: ReadBy(p, mgs, m, loops) ==> Needed(p, mgs, bounded, loops, m)
  {
    hide ReadBy;
  }

  lemma {:induction false} KeptNeeded(p: PlanIr, mgs: seq<seq<MgIr>>, used: set<MgIr>, bounded: set<MgIr>, loops: nat,
                                      kept: seq<seq<MgIr>>)
    requires Shaped(p) && |mgs| == p.n && Kept(mgs, used, kept) && loops <= |p.ops|
    requires forall m :: m in used <==> Needed(p, mgs, bounded, loops, m)
    ensures KeepsNeeded(p, mgs, bounded, loops, kept)
  {
    hide ReadBy, GoodOps, SameReads, Needed, SameOrder, Only;
    ReadIsNeeded(p, mgs, bounded, loops);
    KeptReads(p, mgs, used, kept, loops);
    forall e: nat | e < |mgs| ensures KeptLevel(p, mgs, bounded, loops, kept, e) {
      OnlySameOrder(mgs[e], used);
      OnlyMembers(mgs[e], used);
    }
  }

  /** The minigraphs of a plan: the needed ones, built early enough and each after its parent,
      and bounded ones are read only by bounded sets. */
  ghost predicate MgPlanOk(p: PlanIr, isStatic: bool, loops: nat, mgs: seq<seq<MgIr>>, bounded: set<MgIr>) {
    && Shaped(p) && 0 < loops <= |p.ops|
    && GoodMgs(p, mgs) && BoundedSafe(p, mgs, bounded, loops)
    && BuildOrder(mgs, p.induced, bounded) && Levelled(mgs)
    && ChosenFrom(p, isStatic, loops, mgs, bounded)
    && forall e, m :: 0 <= e < p.n && m in mgs[e] ==> WantedFrom(p, isStatic, loops, e, m, 2)
  }

  /** create_plan_mg, for a plan that runs the first `loops` loops. */
  method CreatePlanMg(p: PlanIr, isStatic: bool, loops: nat) returns (kept: seq<seq<MgIr>>, bounded: set<MgIr>)
    requires Shaped(p) && 0 < loops <= |p.ops|
    ensures |kept| == p.n && GoodMgs(p, kept) && MgPlanOk(p, isStatic, loops, kept, bounded)
  {
    hide Shaped, GoodMgs, BoundedSafe, Flagged, Needed, WantedFrom, BuildOrder, Levelled, NoneShadowed, SameReads;
    var mgs := CollectUnique(p, isStatic, loops);
    CollectedIsGood(p, isStatic, loops, mgs);
    CollectedLevelled(p, isStatic, loops, mgs);
    SizesShaped(p);
    bounded := FlagBounded(p, mgs, loops);
    FlaggedIsSafe(p, mgs, bounded, loops);
    var used := MarkUsed(p, mgs, bounded, loops);
    kept := DropUnused(mgs, used);
    KeptIsGood(p, mgs, used, kept);
    KeptNeeded(p, mgs, used, bounded, loops, kept);
    KeptIsSafe(p, mgs, kept, bounded, loops);
    KeptLevelled(p, mgs, used, kept);
    KeptInOrder(p, mgs, used, kept, bounded);
    forall e, m | 0 <= e < p.n && m in kept[e] ensures WantedFrom(p, isStatic, loops, e, m, 2) {
      OnlyMembers(mgs[e], used);
    }
  }

  lemma {:induction false} SizesShaped(p: PlanIr)
    requires Shaped(p)
    ensures |p.ops| == |p.iter| == p.n - 1 && p.n >= 3
  {
  }

  // ----- code -----

  method GenMgBody(p: PlanIr, mgs: seq<seq<MgIr>>, d: nat) returns (body: seq<seq<Instr>>)
    requires Shaped(p) && |mgs| == p.n && d < |p.ops| == |p.iter| < |mgs|
    ensures IsMgCodeOf(p, mgs, body, d)
  {
    hide ParentMg, GenCodeMgOp, ParentOf;
    body := [];
    for t := 0 to |p.ops[d]|
      invariant |body| == t
      invariant forall u :: 0 <= u < t ==> IsMgPieceOf(p, mgs, body[u], d, u)
    {
      var op := p.ops[d][t];
      SetAt(p, d, t);
      var parent := GetParentVset(p.ops, op, p.induced);
      var mg := GetParentMg(p, mgs, op);
      body := body + [GenCodeMgOp(p.induced, d == p.n - 2, if d == 0 then p.iter[0] else p.iter[d - 1], op, parent, mg)];
    }
  }

  method GenMgLoops(p: PlanIr, mgs: seq<seq<MgIr>>, loops: nat) returns (code: seq<seq<seq<Instr>>>)
    requires Shaped(p) && |mgs| == p.n && loops <= |p.ops| == |p.iter| < |mgs|
    ensures |code| == loops && forall d :: 0 <= d < loops ==> IsMgCodeOf(p, mgs, code[d], d)
  {
    hide Shaped, IsMgCodeOf;
    code := [];
    for d := 0 to loops
      invariant |code| == d
      invariant forall e :: 0 <= e < d ==> IsMgCodeOf(p, mgs, code[e], e)
    {
      var body := GenMgBody(p, mgs, d);
      code := code + [body];
    }
  }

  method GenMgCode(p: PlanIr, mgs: seq<seq<MgIr>>) returns (prog: Program)
    requires Shaped(p) && |mgs| == p.n && |p.ops| == |p.iter| < |mgs|
    ensures IsMgProgramOf(p, mgs, prog)
  {
    hide Shaped, IsMgCodeOf;
    var code := GenMgLoops(p, mgs, |p.ops|);
    prog := Program(code, p.iter);
  }

  /** From a pattern to pruned loops that count on every graph, whatever the pruning policy. */
  method CompilePruned(q: Query, pairs: seq<Pair>, isStatic: bool)
    returns (out: Option<Program>, p: Option<PlanIr>, mgs: seq<seq<MgIr>>, bounded: set<MgIr>, res: Matrix)
    requires q.Valid() && q.n >= 3 && InOrder(pairs, q.n)
    ensures Square(res, q.n) && (out.Some? <==> Connected(q.adj)) && (out.Some? <==> p.Some?)
    ensures Closed(res, pairs, q.n)
    ensures out.Some? ==> Compiled(p.value, q, res) && ProgramFits(out.value) && |out.value.code| > 0
    ensures out.Some? ==> MgPlanOk(p.value, isStatic, q.n - 1, mgs, bounded) && IsMgProgramOf(p.value, mgs, out.value)
    ensures out.Some? ==> forall g: Graph, ans: Answers ::
      (g.Valid() && AnswersGood(Setting(g, q, res, p.value, ans, q.n - 1), mgs, bounded)) ==>
        Run(g, ans, out.value) == |Matches(g, q, pairs)|
  {
    hide Compiled, Closed, Run, ProgramFits, Matches, AnswersGood, GoodMgs, BoundedSafe, IsMgProgramOf, Shaped;
    mgs, bounded := [], {};
    p, res := CreatePlan(q, pairs);
    if p.None? {
      return None, p, mgs, bounded, res;
    }
    ghost var s := Setting(Graph([]), q, res, p.value, (m, f) => {}, q.n - 1);
    CompiledIsShaped(s);
    SizesShaped(p.value);
    PlanSize(p.value, q, res);
    mgs, bounded := CreatePlanMg(p.value, isStatic, q.n - 1);
    var prog := GenMgCode(p.value, mgs);
    MgProgramFits(s, mgs, prog);
    forall g: Graph, ans: Answers | g.Valid() && AnswersGood(Setting(g, q, res, p.value, ans, q.n - 1), mgs, bounded)
      ensures Run(g, ans, prog) == |Matches(g, q, pairs)|
    {
      PrunedPlanCorrect(Setting(g, q, res, p.value, ans, q.n - 1), pairs, mgs, bounded, prog);
    }
    out := Some(prog);
  }

  lemma {:induction false} MgProgramFits(s: Setting, mgs: seq<seq<MgIr>>, prog: Program)
    requires s.Valid() && s.loops + 1 == s.q.n && |mgs| == s.p.n
    requires |s.p.ops| == |s.p.iter| < |mgs| && IsMgProgramOf(s.p, mgs, prog)
    ensures ProgramFits(prog) && |prog.code| > 0
  {
    MgShape(s, mgs, prog);
    SettingSizes(s);
  }
}
