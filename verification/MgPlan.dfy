/** Rewriting the plan to read minigraphs: pruned adjacency rows instead of graph rows. */
module MgPlan {
  import opened Patterns
  import opened Completions
  import opened Closure
  import opened Ir
  import opened Plans
  import opened LoopCode
  import opened PlanCompiler
  import opened PlanCorrect
  import opened PlainPlan

  // ----- which minigraph serves a set -----

  /** m covers the vertices of one set and everything another set can still contain. */
  predicate Covers(m: MgIr, vertices: SetIr, op: SetIr, induced: bool) {
    SupersetOf(m.vertices, vertices, induced) && SupersetOf(m.intersect, op, induced)
  }

  /** The pruned row already is the set: m intersects with all of op's earlier conditions. */
  predicate Computed(m: MgIr, vertices: SetIr, op: SetIr, induced: bool) {
    && Covers(m, vertices, op, induced)
    && |op.edges| - |m.intersect.edges| == 1
    && Ones(op.edges) - Ones(m.intersect.edges) == 1
    && (forall i :: 0 <= i < |m.intersect.edges| ==>
          m.intersect.edges[i] == op.edges[i] && m.intersect.restricts[i] == op.restricts[i])
  }

  /** m's rows have been intersected with all of op's conditions but the edge to its own loop. */
  lemma {:induction false} ComputedMeans(m: MgIr, vertices: SetIr, op: SetIr, induced: bool)
    requires op.Valid()
    ensures Computed(m, vertices, op, induced) <==>
      && SupersetOf(m.vertices, vertices, induced)
      && op.Depth() > 0 && op.edges[op.Depth()] && m.intersect == op.UpTo(op.Depth() - 1)
  {
    var d := op.Depth();
    if Computed(m, vertices, op, induced) {
      assert op.edges[..d] == m.intersect.edges && op.restricts[..d] == m.intersect.restricts;
    }
    if d > 0 && op.edges[d] && m.intersect == op.UpTo(d - 1) {
      assert op.edges[..|op.edges| - 1] == m.intersect.edges;
      forall i | 0 <= i < d ensures m.intersect.edges[i] == op.edges[i] && m.intersect.restricts[i] == op.restricts[i] {
      }
    }
  }

  predicate MayUse(op: SetIr, induced: bool)
    requires op.Valid()
  {
    op.Depth() > 0 && (induced || op.edges[op.Depth()])
  }

  /** The last covering minigraph among the first t of loop e and all of the loops before. */
  function LastCover(mgs: seq<seq<MgIr>>, vertices: SetIr, op: SetIr, induced: bool, e: nat, t: nat): (r: Option<MgIr>)
    requires e <= |mgs| && (if e < |mgs| then t <= |mgs[e]| else t == 0)
    ensures r.Some? ==> Covers(r.value, vertices, op, induced)
    decreases e, t
  {
    if t > 0 then
      if Covers(mgs[e][t - 1], vertices, op, induced) then Some(mgs[e][t - 1])
      else LastCover(mgs, vertices, op, induced, e, t - 1)
    else if e > 0 then
      LastCover(mgs, vertices, op, induced, e - 1, |mgs[e - 1]|)
    else
      None
  }

  function ParentMg(p: PlanIr, mgs: seq<seq<MgIr>>, op: SetIr): Option<MgIr>
    requires op.Valid() && op.Depth() <= |mgs| && op.Depth() <= |p.iter|
  {
    if MayUse(op, p.induced) then
      LastCover(mgs, p.iter[op.Depth() - 1], op, p.induced, op.Depth(), 0)
    else
      None
  }

  ghost predicate CoversAt(mgs: seq<seq<MgIr>>, vertices: SetIr, op: SetIr, induced: bool, e: nat, t: nat) {
    e < |mgs| && t < |mgs[e]| && Covers(mgs[e][t], vertices, op, induced)
  }

  ghost predicate NoneCovers(mgs: seq<seq<MgIr>>, vertices: SetIr, op: SetIr, induced: bool, depth: nat) {
    forall e: nat, t: nat :: e < depth ==> !CoversAt(mgs, vertices, op, induced, e, t)
  }

  /** Entry t of loop e covers, and no entry behind it in the loops below `depth` does. */
  ghost predicate LastAt(mgs: seq<seq<MgIr>>, vertices: SetIr, op: SetIr, induced: bool, depth: nat, e: nat, t: nat) {
    && e < depth && CoversAt(mgs, vertices, op, induced, e, t)
    && forall a: nat, b: nat :: a < depth && (e < a || (e == a && t < b)) ==> !CoversAt(mgs, vertices, op, induced, a, b)
  }

  /** What the scan up to entry t of loop e has found. */
  lemma {:induction false} LastCoverIs(mgs: seq<seq<MgIr>>, vertices: SetIr, op: SetIr, induced: bool, e: nat, t: nat)
    returns (a: nat, b: nat)
    requires e <= |mgs| && (if e < |mgs| then t <= |mgs[e]| else t == 0)
    ensures var r := LastCover(mgs, vertices, op, induced, e, t);
      if r.None? then
        forall c: nat, d: nat :: c < e || (c == e && d < t) ==> !CoversAt(mgs, vertices, op, induced, c, d)
      else
        && (a < e || (a == e && b < t)) && CoversAt(mgs, vertices, op, induced, a, b) && r.value == mgs[a][b]
        && forall c: nat, d: nat :: (c < e || (c == e && d < t)) && (a < c || (a == c && b < d)) ==>
             !CoversAt(mgs, vertices, op, induced, c, d)
    decreases e, t
  {
    hide Covers;
    if t > 0 {
      if Covers(mgs[e][t - 1], vertices, op, induced) {
        a, b := e, t - 1;
      } else {
        a, b := LastCoverIs(mgs, vertices, op, induced, e, t - 1);
      }
    } else if e > 0 {
      a, b := LastCoverIs(mgs, vertices, op, induced, e - 1, |mgs[e - 1]|);
    } else {
      a, b := 0, 0;
    }
  }

  /** Which minigraph a set reads: none at loop 0, for a set without an edge to its own
      loop in an edge-induced plan, or when nothing listed below its loop covers; otherwise
      the last covering one. */
  lemma {:induction false} ParentMgIs(p: PlanIr, mgs: seq<seq<MgIr>>, op: SetIr)
    requires op.Valid() && op.Depth() <= |mgs| && op.Depth() <= |p.iter|
    ensures ParentMg(p, mgs, op).None? <==>
      || op.Depth() == 0 || (!p.induced && !op.edges[op.Depth()])
      || NoneCovers(mgs, p.iter[op.Depth() - 1], op, p.induced, op.Depth())
    ensures ParentMg(p, mgs, op).Some? ==> op.Depth() > 0 && exists e: nat, t: nat ::
      && LastAt(mgs, p.iter[op.Depth() - 1], op, p.induced, op.Depth(), e, t)
      && ParentMg(p, mgs, op) == Some(mgs[e][t])
  {
    hide Covers;
    if MayUse(op, p.induced) {
      var a, b := LastCoverIs(mgs, p.iter[op.Depth() - 1], op, p.induced, op.Depth(), 0);
      if ParentMg(p, mgs, op).Some? {
        assert LastAt(mgs, p.iter[op.Depth() - 1], op, p.induced, op.Depth(), a, b);
      }
    }
  }

  method GetParentMg(p: PlanIr, mgs: seq<seq<MgIr>>, op: SetIr) returns (out: Option<MgIr>)
    requires op.Valid() && op.Depth() <= |mgs| && op.Depth() <= |p.iter|
    ensures out == ParentMg(p, mgs, op)
    ensures out.None? <==>
      || op.Depth() == 0 || (!p.induced && !op.edges[op.Depth()])
      || NoneCovers(mgs, p.iter[op.Depth() - 1], op, p.induced, op.Depth())
    ensures out.Some? ==> op.Depth() > 0 && exists e: nat, t: nat ::
      LastAt(mgs, p.iter[op.Depth() - 1], op, p.induced, op.Depth(), e, t) && out == Some(mgs[e][t])
  {
    hide Covers, LastAt, NoneCovers;
    ParentMgIs(p, mgs, op);
    out := None;
    if !MayUse(op, p.induced) {
      return;
    }
    var vertices := p.iter[op.Depth() - 1];
    for e := 0 to op.Depth()
      invariant out == LastCover(mgs, vertices, op, p.induced, e, 0)
    {
      for t := 0 to |mgs[e]|
        invariant out == LastCover(mgs, vertices, op, p.induced, e, t)
      {
        if Covers(mgs[e][t], vertices, op, p.induced) {
          out := Some(mgs[e][t]);
        }
      }
    }
  }

  // ----- the rewritten operation -----

  function GenCodeMgOp(induced: bool, isLast: bool, iter: SetIr, op: SetIr, parent: Option<SetIr>, mg: Option<MgIr>): seq<Instr>
    requires op.Valid()
  {
    if mg.None? || parent.None? then
      GenCodeOp(induced, isLast, op, parent)
    else
      var row := Pruned(mg.value, op.Depth());
      var guard := if isLast then [] else [SkipIfEmpty(op)];
      if Computed(mg.value, iter, op, induced) then
        [Assign(op, if op.Restricted() then Bounded(Whole(row), op.Depth()) else Whole(row))] + guard
      else
        var e := if op.edges[op.Depth()] then Intersect(Saved(parent.value), row, op.Restricted())
                 else Subtract(Saved(parent.value), row, op.Restricted());
        [if isLast then Count(e) else Assign(op, e)] + guard
  }

  // ----- what minigraphs may answer -----

  /** The answer for the newest vertex v: between the pruned and the whole row of v,
      where only ids below v need to be there if m is bounded. Right after the loop that
      built m, every row asked for has been pruned. */
  ghost predicate AnswerGood(s: Setting, bounded: bool, m: MgIr, f: seq<nat>)
    requires m.Valid() && m.Depth() + 1 < |f|
  {
    var v, row, inner := f[|f| - 1], s.ans(m, f), Denotes(s.g, s.q.induced, m.intersect, f);
    && (forall x :: x in row ==> s.g.Edge(v, x))
    && (forall x :: x in inner && s.g.Edge(v, x) && (bounded ==> x < v) ==> x in row)
    && (m.Depth() + 2 == |f| ==> forall x :: x in row ==> x in inner)
  }

  /** Every row that loop d may ask m for is answered well. */
  ghost predicate AnswersGood(s: Setting, mgs: seq<seq<MgIr>>, bounded: set<MgIr>)
    requires s.Valid()
  {
    forall m: MgIr, f: seq<nat> {:trigger s.ans(m, f)} ::
      Listed(mgs, m) && Asked(s, m, f) ==> AnswerGood(s, m in bounded, m, f)
  }

  /** The newest vertex of f is one of m's vertices, in a loop after m was built. */
  ghost predicate Asked(s: Setting, m: MgIr, f: seq<nat>)
    requires s.Valid() && m.Valid()
    ensures Asked(s, m, f) ==> m.Depth() + 1 < |f|
  {
    && m.Depth() + 1 < |f| <= s.loops && Partial(s.C(), f)
    && f[|f| - 1] in Denotes(s.g, s.q.induced, m.vertices, f)
  }

  ghost predicate Listed(mgs: seq<seq<MgIr>>, m: MgIr)
    ensures Listed(mgs, m) ==> m.Valid()
  {
    m.Valid() && m.Depth() < |mgs| && m in mgs[m.Depth()]
  }

  /** Loop e lists minigraphs built in loop e, early enough to be used later. */
  ghost predicate GoodMgs(p: PlanIr, mgs: seq<seq<MgIr>>) {
    && |mgs| == p.n
    && forall e, t :: 0 <= e < |mgs| && 0 <= t < |mgs[e]| ==>
         mgs[e][t].Valid() && mgs[e][t].Depth() == e && e + 4 <= p.n && Ones(mgs[e][t].intersect.edges) > 0
  }

  /** In the first `loops` loops a bounded minigraph is read only by sets that are bounded
      themselves. */
  ghost predicate BoundedSafe(p: PlanIr, mgs: seq<seq<MgIr>>, bounded: set<MgIr>, loops: nat)
    requires |mgs| == p.n && |p.ops| == |p.iter| <= p.n && loops <= |p.ops|
  {
    forall d, t :: 0 <= d < loops && 0 <= t < |p.ops[d]| ==> UserSafe(p, mgs, bounded, d, p.ops[d][t])
  }

  ghost predicate UserSafe(p: PlanIr, mgs: seq<seq<MgIr>>, bounded: set<MgIr>, d: nat, op: SetIr)
    requires |mgs| == p.n && |p.iter| <= p.n && d < |p.iter|
  {
    && op.Valid() && op.Depth() == d
    && match ParentMg(p, mgs, op)
       case Some(m) => m in bounded ==> op.Restricted()
       case None => true
  }

  // ----- a superset denotes a superset -----

  lemma {:induction false} SupersetDenotes(g: Graph, induced: bool, a: SetIr, b: SetIr, f: seq<nat>)
    requires g.Valid() && SupersetOf(a, b, induced) && b.Depth() < |f|
    ensures Denotes(g, induced, b, f) <= Denotes(g, induced, a, f)
  {
    forall x | x in Denotes(g, induced, b, f) ensures MeetsAll(g, induced, a, f, x) {
      forall i | 0 <= i < |a.edges| ensures Meets(g, induced, a, f, i, x) {
        assert Meets(g, induced, b, f, i, x);
        NoLoop(g, f[i], x);
      }
    }
  }

  // ----- each rewritten piece computes its set -----

  lemma {:induction false} UsedMg(s: Setting, mgs: seq<seq<MgIr>>, d: nat, t: nat)
    requires s.Valid() && GoodMgs(s.p, mgs) && d < |s.p.ops| && t < |s.p.ops[d]|
    requires s.p.ops[d][t].Valid() && s.p.ops[d][t].Depth() == d
    requires ParentMg(s.p, mgs, s.p.ops[d][t]).Some?
    ensures var op, m := s.p.ops[d][t], ParentMg(s.p, mgs, s.p.ops[d][t]).value;
      && d > 0 && (s.q.induced || op.edges[d])
      && Listed(mgs, m) && m.Depth() < d && m.Depth() + 4 <= s.q.n && Ones(m.intersect.edges) > 0
      && Covers(m, s.p.iter[d - 1], op, s.q.induced)
  {
    hide Compiled, Ones;
    SettingSizes(s);
    var a, u := LastCoverIs(mgs, s.p.iter[d - 1], s.p.ops[d][t], s.p.induced, d, 0);
    assert mgs[a][u].Depth() == a;
  }

  /** The vertex a loop chose lies in the set it iterates over. */
  lemma {:induction false} ChosenInIter(s: Setting, f: seq<nat>)
    requires s.Valid() && 1 < |f| <= s.loops && Partial(s.C(), f)
    ensures s.p.iter[|f| - 2].Valid() && s.p.iter[|f| - 2].Depth() == |f| - 2
    ensures f[|f| - 1] in Denotes(s.g, s.q.induced, s.p.iter[|f| - 2], f)
  {
    hide Next, Denotes, Ones;
    var d := |f| - 1;
    assert Next(s.C(), f[..d], f[d]);
    IterIsNext(s.g, s.q, s.res, s.Limit(), f[..d], f[d]);
    DenotesKept(s.g, s.q.induced, s.p.iter[d - 1], f[..d], f);
  }

  /** The answer a set relies on is a good one. */
  lemma {:induction false} AnswerAt(s: Setting, mgs: seq<seq<MgIr>>, bounded: set<MgIr>, d: nat, op: SetIr, m: MgIr, f: seq<nat>)
    requires s.Valid() && AnswersGood(s, mgs, bounded) && Listed(mgs, m)
    requires 0 < d && |f| == d + 1 <= s.loops && Partial(s.C(), f) && m.Depth() < d
    requires Covers(m, s.p.iter[d - 1], op, s.q.induced)
    ensures AnswerGood(s, m in bounded, m, f)
  {
    hide Partial, Denotes, Compiled, SupersetOf, AnswerGood;
    SettingSizes(s);
    ChosenInIter(s, f);
    SupersetDenotes(s.g, s.q.induced, m.vertices, s.p.iter[d - 1], f);
    var row := s.ans(m, f);
  }

  /** The pruned row serves as well as the graph's row. */
  lemma {:induction false} PrunedRowServes(s: Setting, bounded: bool, m: MgIr, op: SetIr, f: seq<nat>)
    requires s.Valid() && m.Valid() && op.Valid() && m.Depth() < op.Depth() && |f| == op.Depth() + 1
    requires AnswerGood(s, bounded, m, f) && SupersetOf(m.intersect, op, s.q.induced)
    requires bounded ==> op.Restricted()
    ensures RowServes(s.g, s.q.induced, op, f, s.ans(m, f))
  {
    hide Denotes, Compiled;
    var cut := op.UpTo(op.Depth() - 1);
    SupersetOfCut(m.intersect, op, op.Depth() - 1, s.q.induced);
    SupersetDenotes(s.g, s.q.induced, m.intersect, cut, f);
  }

  /** A computed set is exactly the pruned row, cut below the vertex if it is bounded. */
  lemma {:induction false} DirectRead(s: Setting, bounded: bool, m: MgIr, iter: SetIr, op: SetIr, f: seq<nat>)
    requires s.Valid() && m.Valid() && op.Valid() && m.Depth() < op.Depth() && |f| == op.Depth() + 1
    requires Computed(m, iter, op, s.q.induced)
    requires AnswerGood(s, bounded, m, f) && (bounded ==> op.Restricted())
    ensures Denotes(s.g, s.q.induced, op, f)
      == if op.Restricted() then Under(s.ans(m, f), f[op.Depth()]) else s.ans(m, f)
  {
    hide Denotes, Compiled, MeetsAll;
    ComputedMeans(m, iter, op, s.q.induced);
    var d, row := op.Depth(), s.ans(m, f);
    forall x: nat ensures x in Denotes(s.g, s.q.induced, op, f)
      <==> x in (if op.Restricted() then Under(row, f[d]) else row)
    {
      DenotesStep(s.g, s.q.induced, op, f, x);
      NoLoop(s.g, f[d], x);
    }
  }

  /** From the unbounded twin, the pruned row changes nothing but the bound. */
  lemma {:induction false} TwinStep(s: Setting, bounded: bool, m: MgIr, op: SetIr, env: Env, f: seq<nat>, e: Expr)
    requires s.Valid() && m.Valid() && op.Valid() && m.Depth() < op.Depth() && |f| == op.Depth() + 1
    requires op.Restricted() && (op.edges[op.Depth()] || s.q.induced)
    requires AnswerGood(s, bounded, m, f) && SupersetOf(m.intersect, op, s.q.induced)
    requires Get(env, op.Unbounded()) == Denotes(s.g, s.q.induced, op.Unbounded(), f)
    requires e == if op.edges[op.Depth()] then Intersect(Saved(op.Unbounded()), Pruned(m, op.Depth()), true)
                  else Subtract(Saved(op.Unbounded()), Pruned(m, op.Depth()), true)
    ensures Fits(e, |f|) && Eval(s.g, s.ans, env, f, e) == Denotes(s.g, s.q.induced, op, f)
  {
    hide Denotes, Compiled, MeetsAll, SupersetOf;
    var d, twin := op.Depth(), op.Unbounded();
    PrunedRowServes(s, bounded, m, op, f);
    DenotesTwin(s.g, s.q.induced, op, f);
    assert f[..d + 1] == f && twin.UpTo(d - 1) == op.UpTo(d - 1);
    assert Eval(s.g, s.ans, env, f, Saved(twin)) == Denotes(s.g, s.q.induced, twin, f);
    var r := Eval(s.g, s.ans, env, f, e);
    forall x: nat ensures x in r <==> x in Denotes(s.g, s.q.induced, op, f) {
      DenotesStep(s.g, s.q.induced, op, f, x);
      DenotesStep(s.g, s.q.induced, twin, f, x);
      NoLoop(s.g, f[d], x);
    }
  }

  /** A rewritten piece that reads minigraph m computes its set. */
  lemma {:induction false} ReadRuns(s: Setting, bounded: bool, m: MgIr, op: SetIr, from: SetIr, isLast: bool,
                                    iter: SetIr, f: seq<nat>, env: Env, total: int)
    requires s.Valid() && m.Valid() && op.Valid() && m.Depth() < op.Depth() && |f| == op.Depth() + 1
    requires op.edges[op.Depth()] || s.q.induced
    requires AnswerGood(s, bounded, m, f) && (bounded ==> op.Restricted())
    requires Covers(m, iter, op, s.q.induced)
    requires from == op.UpTo(op.Depth() - 1) || (op.Restricted() && from == op.Unbounded())
    requires Get(env, from) == Denotes(s.g, s.q.induced, from, f)
    requires Computed(m, iter, op, s.q.induced) ==> !isLast
    ensures var code := GenCodeMgOp(s.q.induced, isLast, iter, op, Some(from), Some(m));
      CodeFits(code, |f|) && OpRuns(s, f, code, op, isLast, env, total)
  {
    hide Denotes, Compiled, AnswerGood, Computed, SupersetOf, Eval, Fits;
    var d, row := op.Depth(), Pruned(m, op.Depth());
    assert f[..d + 1] == f;
    if Computed(m, iter, op, s.q.induced) {
      DirectRead(s, bounded, m, iter, op, f);
      var e := if op.Restricted() then Bounded(Whole(row), d) else Whole(row);
      DirectEval(s, op, row, env, f);
      GuardedRuns(s, f, op, e, false, env, total);
      assert [Assign(op, e)] + [SkipIfEmpty(op)] == [Assign(op, e), SkipIfEmpty(op)] + [];
    } else if from == op.UpTo(d - 1) {
      PrunedRowServes(s, bounded, m, op, f);
      StepComputes(s.g, s.ans, s.q.induced, op, from, row, env, f);
      CountOrGuard(s, f, op, StepExpr(s.q.induced, op, from, row), isLast, env, total);
    } else {
      var e := if op.edges[d] then Intersect(Saved(from), row, true) else Subtract(Saved(from), row, true);
      TwinStep(s, bounded, m, op, env, f, e);
      CountOrGuard(s, f, op, e, isLast, env, total);
    }
  }

  lemma {:induction false} DirectEval(s: Setting, op: SetIr, row: Row, env: Env, f: seq<nat>)
    requires op.Valid() && |f| == op.Depth() + 1 && row.Pruned? && row.at == op.Depth()
    ensures var e := if op.Restricted() then Bounded(Whole(row), op.Depth()) else Whole(row);
      && Fits(e, |f|)
      && Eval(s.g, s.ans, env, f, e)
        == if op.Restricted() then Under(s.ans(row.mg, f), f[op.Depth()]) else s.ans(row.mg, f)
  {
    assert f[..row.at + 1] == f;
    assert Fits(Whole(row), |f|) && Eval(s.g, s.ans, env, f, Whole(row)) == s.ans(row.mg, f);
  }

  /** Count the last set, or assign it and give up when it is empty. */
  lemma {:induction false} CountOrGuard(s: Setting, f: seq<nat>, op: SetIr, e: Expr, isLast: bool, env: Env, total: int)
    requires op.Valid() && op.Depth() < |f| && Fits(e, |f|)
    requires Eval(s.g, s.ans, env, f, e) == Denotes(s.g, s.q.induced, op, f)
    ensures var code := [if isLast then Count(e) else Assign(op, e)] + if isLast then [] else [SkipIfEmpty(op)];
      CodeFits(code, |f|) && OpRuns(s, f, code, op, isLast, env, total)
  {
    hide Denotes, Eval, Fits;
    var code := [if isLast then Count(e) else Assign(op, e)] + if isLast then [] else [SkipIfEmpty(op)];
    if isLast {
      assert code == [Count(e)];
      OneRuns(s, f, op, e, true, env, total);
    } else {
      assert code == [Assign(op, e), SkipIfEmpty(op)];
      GuardedRuns(s, f, op, e, false, env, total);
      assert [Assign(op, e), SkipIfEmpty(op)] + [] == code;
    }
  }

  // ----- the rewritten plan -----

  ghost predicate IsMgPieceOf(p: PlanIr, mgs: seq<seq<MgIr>>, code: seq<Instr>, d: nat, t: nat)
    requires d < |p.ops| == |p.iter| < |mgs| && t < |p.ops[d]|
  {
    var op := p.ops[d][t];
    && op.Valid() && op.Depth() == d
    && code == GenCodeMgOp(p.induced, d == p.n - 2, if d == 0 then p.iter[0] else p.iter[d - 1], op,
                           ParentOf(p.ops, op), ParentMg(p, mgs, op))
  }

  ghost predicate IsMgCodeOf(p: PlanIr, mgs: seq<seq<MgIr>>, body: seq<seq<Instr>>, d: nat)
    requires d < |p.ops| == |p.iter| < |mgs|
  {
    |body| == |p.ops[d]| && forall t :: 0 <= t < |body| ==> IsMgPieceOf(p, mgs, body[t], d, t)
  }

  ghost predicate IsMgProgramOf(p: PlanIr, mgs: seq<seq<MgIr>>, prog: Program)
    requires |p.ops| == |p.iter| < |mgs|
  {
    && prog.iter == p.iter && |prog.code| == |p.ops|
    && forall d :: 0 <= d < |p.ops| ==> IsMgCodeOf(p, mgs, prog.code[d], d)
  }

  lemma {:induction false} MgCodeFits(induced: bool, isLast: bool, iter: SetIr, op: SetIr, parent: Option<SetIr>,
                                      mg: Option<MgIr>)
    requires op.Valid()
    ensures CodeFits(GenCodeMgOp(induced, isLast, iter, op, parent, mg), op.Depth() + 1)
  {
    hide Computed;
    GeneratedFits(induced, isLast, op, parent);
    if mg.Some? && parent.Some? {
      var row := Pruned(mg.value, op.Depth());
      assert Fits(Saved(parent.value), op.Depth() + 1) && Fits(Whole(row), op.Depth() + 1);
    }
  }

  lemma {:induction false} MgShape(s: Setting, mgs: seq<seq<MgIr>>, prog: Program)
    requires s.Valid() && s.loops + 1 == s.q.n && |mgs| == s.p.n
    requires |s.p.ops| == |s.p.iter| < |mgs| && IsMgProgramOf(s.p, mgs, prog)
    ensures ProgramShape(s, prog)
  {
    hide Compiled, ParentMg, GenCodeMgOp;
    SettingSizes(s);
    forall d | 0 <= d < |prog.code| ensures BodyFits(prog.code[d], d + 1) && |prog.code[d]| == |s.p.ops[d]| {
      assert IsMgCodeOf(s.p, mgs, prog.code[d], d);
      forall t | 0 <= t < |prog.code[d]| ensures CodeFits(prog.code[d][t], d + 1) {
        MgPieceFits(s.p, mgs, prog.code[d][t], d, t);
      }
    }
  }

  lemma {:induction false} MgPieceFits(p: PlanIr, mgs: seq<seq<MgIr>>, code: seq<Instr>, d: nat, t: nat)
    requires d < |p.ops| == |p.iter| < |mgs| && t < |p.ops[d]| && IsMgPieceOf(p, mgs, code, d, t)
    ensures CodeFits(code, d + 1)
  {
    hide ParentMg, GenCodeMgOp, ParentOf;
    var op := p.ops[d][t];
    MgCodeFits(p.induced, d == p.n - 2, if d == 0 then p.iter[0] else p.iter[d - 1], op, ParentOf(p.ops, op), ParentMg(p, mgs, op));
  }

  // ----- which rows the rewritten code reads -----

  ghost function ExprRows(e: Expr): set<Row> {
    match e
    case Saved(_) => {}
    case Whole(row) => {row}
    case Intersect(s, row, _) => {row} + ExprRows(s)
    case Subtract(s, row, _) => {row} + ExprRows(s)
    case Bounded(s, _) => ExprRows(s)
    case Remove(s, _) => ExprRows(s)
    case Meet(s, _) => ExprRows(s)
  }

  ghost function InstrRows(i: Instr): set<Row> {
    match i
    case Assign(_, e) => ExprRows(e)
    case SkipIfEmpty(_) => {}
    case Count(e) => ExprRows(e)
    case CountProduct(_, es) => set k, row | 0 <= k < |es| && row in ExprRows(es[k]) :: row
  }

  ghost function CodeRows(code: seq<Instr>): set<Row> {
    set k, row | 0 <= k < |code| && row in InstrRows(code[k]) :: row
  }

  /** A set served by a minigraph is computed from the pruned row and no other. */
  lemma {:induction false} ReadsPrunedRow(s: Setting, mgs: seq<seq<MgIr>>, code: seq<Instr>, d: nat, t: nat)
    requires s.Valid() && GoodMgs(s.p, mgs) && |s.p.ops| == |s.p.iter| < |mgs|
    requires d < |s.p.ops| && t < |s.p.ops[d]| && IsMgPieceOf(s.p, mgs, code, d, t)
    requires ParentMg(s.p, mgs, s.p.ops[d][t]).Some?
    ensures CodeRows(code) == {Pruned(ParentMg(s.p, mgs, s.p.ops[d][t]).value, d)}
  {
    hide Setting.Valid, GoodMgs, ParentMg, ParentOf;
    UserHasParent(s, mgs, d, t);
    RewrittenRows(s.p.induced, d == s.p.n - 2, if d == 0 then s.p.iter[0] else s.p.iter[d - 1], s.p.ops[d][t],
      ParentOf(s.p.ops, s.p.ops[d][t]), ParentMg(s.p, mgs, s.p.ops[d][t]));
  }

  lemma {:induction false} RewrittenRows(induced: bool, isLast: bool, iter: SetIr, op: SetIr, parent: Option<SetIr>, mg: Option<MgIr>)
    requires op.Valid() && mg.Some? && parent.Some?
    ensures CodeRows(GenCodeMgOp(induced, isLast, iter, op, parent, mg)) == {Pruned(mg.value, op.Depth())}
  {
    hide Computed;
    var row := Pruned(mg.value, op.Depth());
    var code := GenCodeMgOp(induced, isLast, iter, op, parent, mg);
    forall k | 0 <= k < |code| ensures InstrRows(code[k]) == if k == 0 then {row} else {} {
      assert ExprRows(Whole(row)) == {row} && ExprRows(Saved(parent.value)) == {};
    }
    assert row in InstrRows(code[0]);
  }

  /** A set served by a minigraph always has a parent set. */
  lemma {:induction false} UserHasParent(s: Setting, mgs: seq<seq<MgIr>>, d: nat, t: nat)
    requires s.Valid() && GoodMgs(s.p, mgs) && d < |s.p.ops| && t < |s.p.ops[d]|
    requires s.p.ops[d][t].Valid() && s.p.ops[d][t].Depth() == d
    requires ParentMg(s.p, mgs, s.p.ops[d][t]).Some?
    ensures ParentOf(s.p.ops, s.p.ops[d][t]).Some?
  {
    hide Compiled, ParentMg;
    SettingSizes(s);
    UsedMg(s, mgs, d, t);
    var op, m := s.p.ops[d][t], ParentMg(s.p, mgs, s.p.ops[d][t]).value;
    SupersetKeepsEdge(m.intersect, op, m.Depth(), s.q.induced);
    SomeOne(op.edges[..m.Depth() + 1]);
    SomeOne(op.edges[..d]);
    var i :| 0 <= i < m.Depth() + 1 && op.edges[..m.Depth() + 1][i];
    assert op.edges[..d][i] && op.edges[..d - 1 + 1] == op.edges[..d];
  }

  lemma {:induction false} NoMgIsPlain(induced: bool, isLast: bool, iter: SetIr, op: SetIr, parent: Option<SetIr>)
    requires op.Valid()
    ensures GenCodeMgOp(induced, isLast, iter, op, parent, None) == GenCodeOp(induced, isLast, op, parent)
  {
  }

  lemma {:induction false} MgPieceAt(s: Setting, mgs: seq<seq<MgIr>>, bounded: set<MgIr>, prog: Program,
                                     d: nat, t: nat, f: seq<nat>, env: Env, total: int)
    requires s.Valid() && ProgramShape(s, prog) && d < s.loops && t < |s.p.ops[d]|
    requires GoodMgs(s.p, mgs) && |s.p.ops| == |s.p.iter| < |mgs| && IsMgPieceOf(s.p, mgs, prog.code[d][t], d, t)
    requires BoundedSafe(s.p, mgs, bounded, s.loops) && AnswersGood(s, mgs, bounded)
    requires |f| == d + 1 && Partial(s.C(), f) && EnvGood(s, f, env, d, t)
    ensures PieceRuns(s, prog, d, t, f, env, total)
  {
    hide Denotes, EnvGood, Ones, Compiled, Partial, AnswersGood, AnswerGood, ParentMg, OpRuns, CodeFits, GenCodeMgOp, Covers;
    SettingSizes(s);
    var op := s.p.ops[d][t];
    var mg, parent, isLast := ParentMg(s.p, mgs, op), ParentOf(s.p.ops, op), d == s.q.n - 2;
    ParentCases(s, d, t);
    assert UserSafe(s.p, mgs, bounded, d, op);
    if mg.None? {
      NoMgIsPlain(s.p.induced, isLast, if d == 0 then s.p.iter[0] else s.p.iter[d - 1], op, parent);
      assert IsPieceOf(s.p, prog.code[d][t], d, t);
      GeneratedRuns(s, prog, d, t, f, env, total);
    } else {
      UsedMg(s, mgs, d, t);
      UserHasParent(s, mgs, d, t);
      var m, from := mg.value, parent.value;
      AnswerAt(s, mgs, bounded, d, op, m, f);
      InPlace(s, f, env, d, t, if |from.edges| == |op.edges| then d else d - 1, from);
      ReadRuns(s, m in bounded, m, op, from, isLast, s.p.iter[d - 1], f, env, total);
    }
  }

  lemma {:induction false} MgPieces(s: Setting, mgs: seq<seq<MgIr>>, bounded: set<MgIr>, prog: Program)
    requires s.Valid() && s.loops + 1 == s.q.n && |mgs| == s.p.n && GoodMgs(s.p, mgs)
    requires |s.p.ops| == |s.p.iter| < |mgs| && IsMgProgramOf(s.p, mgs, prog)
    requires BoundedSafe(s.p, mgs, bounded, s.loops) && AnswersGood(s, mgs, bounded)
    ensures AllPiecesRun(s, prog)
  {
    hide Setting.Valid, Partial, IsMgPieceOf, PieceRuns, ProgramShape, BoundedSafe, AnswersGood, GoodMgs;
    SettingSizes(s);
    MgShape(s, mgs, prog);
    forall d, t, f, env, total | 0 <= d < s.loops && 0 <= t < |s.p.ops[d]|
      ensures PieceRuns(s, prog, d, t, f, env, total)
    {
      MgCodeHasPiece(s.p, mgs, prog.code[d], d, t);
      MaybePiece(s, mgs, bounded, prog, d, t, f, env, total);
    }
  }

  lemma {:induction false} MgCodeHasPiece(p: PlanIr, mgs: seq<seq<MgIr>>, body: seq<seq<Instr>>, d: nat, t: nat)
    requires d < |p.ops| == |p.iter| < |mgs| && t < |p.ops[d]| && IsMgCodeOf(p, mgs, body, d)
    ensures |body| == |p.ops[d]| && IsMgPieceOf(p, mgs, body[t], d, t)
  {
  }

  lemma {:induction false} MaybePiece(s: Setting, mgs: seq<seq<MgIr>>, bounded: set<MgIr>, prog: Program,
                                      d: nat, t: nat, f: seq<nat>, env: Env, total: int)
    requires s.Valid() && ProgramShape(s, prog) && d < s.loops && t < |s.p.ops[d]|
    requires GoodMgs(s.p, mgs) && |s.p.ops| == |s.p.iter| < |mgs| && IsMgPieceOf(s.p, mgs, prog.code[d][t], d, t)
    requires BoundedSafe(s.p, mgs, bounded, s.loops) && AnswersGood(s, mgs, bounded)
    ensures PieceRuns(s, prog, d, t, f, env, total)
  {
    hide Setting.Valid, Partial, IsMgPieceOf, OpRuns, BoundedSafe, AnswersGood, GoodMgs;
    if |f| == d + 1 && Partial(s.C(), f) && EnvGood(s, f, env, d, t) {
      MgPieceAt(s, mgs, bounded, prog, d, t, f, env, total);
    }
  }

  lemma {:induction false} MgLast(s: Setting, mgs: seq<seq<MgIr>>, prog: Program)
    requires s.Valid() && s.loops + 1 == s.q.n && AllPiecesRun(s, prog)
    requires |s.p.ops| == |s.p.iter| < |mgs| && IsMgProgramOf(s.p, mgs, prog)
    ensures LastLoopOk(s, prog)
  {
    hide Setting.Valid, AllPiecesRun, ParentMg, IsMgPieceOf, LastLoopOk, Partial;
    SettingSizes(s);
    assert IsMgCodeOf(s.p, mgs, prog.code[s.loops - 1], s.loops - 1);
    LastIsCount(s, prog);
  }

  /** Rewriting preserves meaning: under any pruning policy whose answers are good, the
      rewritten loops count exactly what the plain ones count. */
  lemma {:induction false} PrunedPlanCorrect(s: Setting, pairs: seq<Pair>, mgs: seq<seq<MgIr>>, bounded: set<MgIr>, prog: Program)
    requires s.Valid() && s.loops + 1 == s.q.n && InOrder(pairs, s.q.n) && Closed(s.res, pairs, s.q.n)
    requires |mgs| == s.p.n && GoodMgs(s.p, mgs) && |s.p.ops| == |s.p.iter| < |mgs| && IsMgProgramOf(s.p, mgs, prog)
    requires BoundedSafe(s.p, mgs, bounded, s.loops) && AnswersGood(s, mgs, bounded)
    ensures ProgramFits(prog) && |prog.code| > 0
    ensures Run(s.g, s.ans, prog) == |Matches(s.g, s.q, pairs)|
  {
    hide Compiled, Closed, IsMgProgramOf, BoundedSafe, AnswersGood, GoodMgs;
    MgPieces(s, mgs, bounded, prog);
    MgLast(s, mgs, prog);
    RunCountsAll(s, prog);
    ProblemIsMatches(s.g, s.q, s.res, pairs);
  }
}
