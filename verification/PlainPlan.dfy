/** The plan without pruning: code generation and its correctness. */
module PlainPlan {
  import opened Patterns
  import opened Schedules
  import opened Completions
  import opened Closure
  import opened Ir
  import opened Plans
  import opened LoopCode
  import opened PlanCompiler
  import opened PlanCorrect

  /** The parent of each set, as the scans find it, decides the operation. */
  ghost predicate IsCodeOf(p: PlanIr, body: seq<seq<Instr>>, d: nat)
    requires d < |p.ops|
  {
    |body| == |p.ops[d]| && forall t :: 0 <= t < |body| ==> IsPieceOf(p, body[t], d, t)
  }

  ghost predicate IsPieceOf(p: PlanIr, code: seq<Instr>, d: nat, t: nat)
    requires d < |p.ops| && t < |p.ops[d]|
  {
    && p.ops[d][t].Valid() && p.ops[d][t].Depth() < |p.ops|
    && code == GenCodeOp(p.induced, d == p.n - 2, p.ops[d][t], ParentOf(p.ops, p.ops[d][t]))
  }

  /** When a set has a parent, it is the twin just before it or its own cut. */
  lemma {:induction false} ParentCases(s: Setting, d: nat, t: nat)
    requires s.Valid() && d < |s.p.ops| && t < |s.p.ops[d]|
    ensures s.p.ops[d][t].Valid() && s.p.ops[d][t].Depth() == d
    ensures var op := s.p.ops[d][t]; match ParentOf(s.p.ops, op)
      case Some(from) => from.Valid() &&
        if |from.edges| == |op.edges| then op.Restricted() && from == op.Unbounded() && from in s.p.ops[d][..t]
        else d > 0 && from == op.UpTo(d - 1) && from in s.p.ops[d - 1]
      case None => OnlyLastEdge(op)
  {
    hide Ones;
    OpFacts(s, d, t);
    CompiledIsGood(s.p, s.q, s.res);
    assert GoodLevel(s.p.ops, d) && LevelOf(s.p.ops[d], s.q.adj, s.res, d);
    var op := s.p.ops[d][t];
    if op.Restricted() && op.Unbounded() in s.p.ops[d] {
      TwinEarlier(s.p.ops[d], t);
    } else if d > 0 {
      assert op.edges[..d - 1 + 1] == op.edges[..d];
      if Ones(op.edges[..d]) > 0 {
        assert op.UpTo(d - 1) in s.p.ops[d - 1];
      } else {
        NoParentOneEdge(op);
      }
    } else {
      NoParentOneEdge(op);
    }
  }

  lemma {:induction false} TwinEarlier(ops: seq<SetIr>, t: nat)
    requires TwinsFirst(ops) && t < |ops| && ops[t].Valid() && ops[t].Restricted() && ops[t].Unbounded() in ops
    ensures ops[t].Unbounded() in ops[..t]
  {
    var u :| 0 <= u < |ops| && ops[u] == ops[t].Unbounded();
    assert !ops[u].Restricted();
    assert u < t;
    assert ops[..t][u] == ops[u];
  }

  /** A set in the list of an earlier position holds its value. */
  lemma {:induction false} InPlace(s: Setting, f: seq<nat>, env: Env, d: nat, t: nat, e: nat, op: SetIr)
    requires s.Valid() && d < |f| && EnvGood(s, f, env, d, t)
    requires e < |s.p.ops| && (if e == d then t <= |s.p.ops[e]| && op in s.p.ops[e][..t] else e < d && op in s.p.ops[e])
    ensures op.Valid() && op.Depth() < |f|
    ensures Get(env, op) == Denotes(s.g, s.q.induced, op, f)
  {
    hide Denotes;
    var u :| 0 <= u < |s.p.ops[e]| && s.p.ops[e][u] == op && (e == d ==> u < t);
    assert Done(e, u, d, t) && InEnv(s, f, env, e, u);
  }

  /** A single instruction that assigns or counts the right set. */
  lemma {:induction false} OneRuns(s: Setting, f: seq<nat>, op: SetIr, e: Expr, isLast: bool, env: Env, total: int)
    requires op.Valid() && op.Depth() < |f| && Fits(e, |f|)
    requires Eval(s.g, s.ans, env, f, e) == Denotes(s.g, s.q.induced, op, f)
    ensures var code := [if isLast then Count(e) else Assign(op, e)];
      CodeFits(code, |f|) && OpRuns(s, f, code, op, isLast, env, total)
  {
    hide Denotes, Eval;
    var code := [if isLast then Count(e) else Assign(op, e)];
    assert Exec(s.g, s.ans, f, code, 0, env, total) == Go(env, total);
  }

  /** The three instructions that handle one set. */
  lemma {:induction false} GuardSteps(g: Graph, ans: Answers, f: seq<nat>, op: SetIr, e: Expr, env: Env, total: int)
    requires Fits(e, |f|)
    ensures Fits(Saved(op), |f|)
    ensures var want := Eval(g, ans, env, f, e);
      && Step(g, ans, f, Assign(op, e), env, total) == Go(env[op := want], total)
      && Step(g, ans, f, SkipIfEmpty(op), env[op := want], total)
        == (if want == {} then Skip(total) else Go(env[op := want], total))
      && Step(g, ans, f, Count(Saved(op)), env[op := want], total) == Go(env[op := want], total + |want|)
  {
    hide RowSet, ProductOf;
  }

  /** Assign, give up if empty, and count if it is the last. */
  lemma {:induction false} GuardedRuns(s: Setting, f: seq<nat>, op: SetIr, e: Expr, isLast: bool, env: Env, total: int)
    requires op.Valid() && op.Depth() < |f| && Fits(e, |f|)
    requires Eval(s.g, s.ans, env, f, e) == Denotes(s.g, s.q.induced, op, f)
    ensures var code := [Assign(op, e), SkipIfEmpty(op)] + if isLast then [Count(Saved(op))] else [];
      CodeFits(code, |f|) && OpRuns(s, f, code, op, isLast, env, total)
  {
    hide Denotes, Eval, Step, Fits;
    var want := Denotes(s.g, s.q.induced, op, f);
    var code := [Assign(op, e), SkipIfEmpty(op)] + if isLast then [Count(Saved(op))] else [];
    var env' := env[op := want];
    GuardSteps(s.g, s.ans, f, op, e, env, total);
    assert Exec(s.g, s.ans, f, code, 0, env, total) == Go(env, total);
    assert Exec(s.g, s.ans, f, code, 1, env, total) == Go(env', total);
    assert Exec(s.g, s.ans, f, code, 2, env, total) == if want == {} then Skip(total) else Go(env', total);
  }

  /** The code generated for one set does its job. */
  lemma {:induction false} GeneratedRuns(s: Setting, prog: Program, d: nat, t: nat, f: seq<nat>, env: Env, total: int)
    requires s.Valid() && ProgramShape(s, prog) && d < s.loops && t < |s.p.ops[d]|
    requires IsPieceOf(s.p, prog.code[d][t], d, t)
    requires |f| == d + 1 && EnvGood(s, f, env, d, t)
    ensures PieceRuns(s, prog, d, t, f, env, total)
  {
    hide Denotes, EnvGood, Ones, Compiled, Partial;
    SettingSizes(s);
    ParentCases(s, d, t);
    var op := s.p.ops[d][t];
    match ParentOf(s.p.ops, op)
    case Some(from) =>
      if |from.edges| == |op.edges| {
        InPlace(s, f, env, d, t, d, from);
        DenotesTwin(s.g, s.q.induced, op, f);
        LastLevel(s);
        assert d != s.q.n - 2;
        assert Fits(Bounded(Saved(from), d), |f|);
        assert Eval(s.g, s.ans, env, f, Saved(from)) == Get(env, from);
        OneRuns(s, f, op, Bounded(Saved(from), d), false, env, total);
      } else {
        InPlace(s, f, env, d, t, d - 1, from);
        GraphRowServes(s.g, s.q.induced, op, f);
        StepComputes(s.g, s.ans, s.q.induced, op, from, Adj(d), env, f);
        OneRuns(s, f, op, StepExpr(s.q.induced, op, from, Adj(d)), d == s.q.n - 2, env, total);
      }
    case None =>
      StartIsDenotes(s.g, s.ans, s.q.induced, op, env, f);
      GuardedRuns(s, f, op, StartExpr(s.q.induced, op, d), d == s.q.n - 2, env, total);
  }

  // ----- the generator -----

  /** The body of one loop: every set is computed from the parent that the scans return. */
  method GenBody(p: PlanIr, ghost s: Setting, d: nat) returns (body: seq<seq<Instr>>)
    requires s.Valid() && s.p == p && GoodOps(p.ops) && d < |p.ops|
    ensures IsCodeOf(p, body, d)
  {
    hide Setting.Valid, GoodOps;
    body := [];
    for t := 0 to |p.ops[d]|
      invariant |body| == t
      invariant forall u :: 0 <= u < t ==> IsPieceOf(p, body[u], d, u)
    {
      OpFacts(s, d, t);
      var parent := GetParentVset(p.ops, p.ops[d][t], p.induced);
      body := body + [GenCodeOp(p.induced, d == p.n - 2, p.ops[d][t], parent)];
    }
  }

  method GenLoops(p: PlanIr, ghost s: Setting, loops: nat) returns (code: seq<seq<seq<Instr>>>)
    requires s.Valid() && s.p == p && loops <= |p.ops|
    ensures |code| == loops
    ensures forall d :: 0 <= d < loops ==> IsCodeOf(p, code[d], d)
  {
    hide Setting.Valid, GoodOps;
    CompiledOps(s);
    code := [];
    for d := 0 to loops
      invariant |code| == d
      invariant forall e :: 0 <= e < d ==> IsCodeOf(p, code[e], e)
    {
      var body := GenBody(p, s, d);
      code := code + [body];
    }
  }

  /** Generates the plan with all its loops. */
  method GenCode(p: PlanIr, ghost s: Setting) returns (prog: Program)
    requires s.Valid() && s.p == p
    ensures prog.iter == p.iter && |prog.code| == |p.ops|
    ensures forall d :: 0 <= d < |p.ops| ==> IsCodeOf(p, prog.code[d], d)
  {
    hide Setting.Valid;
    var code := GenLoops(p, s, |p.ops|);
    prog := Program(code, p.iter);
  }

  lemma {:induction false} CompiledOps(s: Setting)
    requires s.Valid()
    ensures GoodOps(s.p.ops)
  {
    CompiledIsGood(s.p, s.q, s.res);
  }

  lemma {:induction false} GeneratedFits(induced: bool, isLast: bool, op: SetIr, parent: Option<SetIr>)
    requires op.Valid()
    ensures CodeFits(GenCodeOp(induced, isLast, op, parent), op.Depth() + 1)
  {
    StartFits(induced, op, op.Depth(), op.Depth() + 1);
    var code := GenCodeOp(induced, isLast, op, parent);
    forall k | 0 <= k < |code| ensures InstrFits(code[k], op.Depth() + 1) {
      if parent.Some? {
        assert Fits(Saved(parent.value), op.Depth() + 1);
      }
    }
  }

  lemma {:induction false} CodeFitsAll(s: Setting, prog: Program)
    requires s.Valid() && s.loops + 1 == s.q.n && prog.iter == s.p.iter && |prog.code| == |s.p.ops|
    requires forall d :: 0 <= d < |s.p.ops| ==> IsCodeOf(s.p, prog.code[d], d)
    ensures ProgramShape(s, prog)
  {
    hide Compiled;
    SettingSizes(s);
    forall d | 0 <= d < |prog.code| ensures BodyFits(prog.code[d], d + 1) && |prog.code[d]| == |s.p.ops[d]| {
      BodyOfFits(s, prog.code[d], d);
    }
  }

  lemma {:induction false} BodyOfFits(s: Setting, body: seq<seq<Instr>>, d: nat)
    requires s.Valid() && d < |s.p.ops| && IsCodeOf(s.p, body, d)
    ensures BodyFits(body, d + 1)
  {
    hide Setting.Valid, CodeFits;
    forall t | 0 <= t < |body| ensures CodeFits(body[t], d + 1) {
      OpFacts(s, d, t);
      assert IsPieceOf(s.p, body[t], d, t);
      GeneratedFits(s.p.induced, d == s.p.n - 2, s.p.ops[d][t], ParentOf(s.p.ops, s.p.ops[d][t]));
    }
  }

  lemma {:induction false} PlainPieces(s: Setting, prog: Program)
    requires s.Valid() && s.loops + 1 == s.q.n && prog.iter == s.p.iter && |prog.code| == |s.p.ops|
    requires forall d :: 0 <= d < |s.p.ops| ==> IsCodeOf(s.p, prog.code[d], d)
    ensures AllPiecesRun(s, prog)
  {
    hide Setting.Valid, Partial, IsCodeOf, PieceRuns, ProgramShape;
    SettingSizes(s);
    CodeFitsAll(s, prog);
    forall d, t, f, env, total | 0 <= d < s.loops && 0 <= t < |s.p.ops[d]|
      ensures PieceRuns(s, prog, d, t, f, env, total)
    {
      CodeHasPiece(s.p, prog.code[d], d, t);
      PieceAt(s, prog, d, t, f, env, total);
    }
  }

  lemma {:induction false} CodeHasPiece(p: PlanIr, body: seq<seq<Instr>>, d: nat, t: nat)
    requires d < |p.ops| && t < |p.ops[d]| && IsCodeOf(p, body, d)
    ensures |body| == |p.ops[d]| && IsPieceOf(p, body[t], d, t)
  {
  }

  lemma {:induction false} PieceAt(s: Setting, prog: Program, d: nat, t: nat, f: seq<nat>, env: Env, total: int)
    requires s.Valid() && ProgramShape(s, prog) && d < s.loops && t < |s.p.ops[d]|
    requires IsPieceOf(s.p, prog.code[d][t], d, t)
    ensures PieceRuns(s, prog, d, t, f, env, total)
  {
    hide Setting.Valid, Partial, IsPieceOf, OpRuns;
    if |f| == d + 1 && EnvGood(s, f, env, d, t) {
      GeneratedRuns(s, prog, d, t, f, env, total);
    }
  }

  /** The last loop's single piece counts. */
  lemma {:induction false} LastIsCount(s: Setting, prog: Program)
    requires s.Valid() && s.loops + 1 == s.q.n && AllPiecesRun(s, prog)
    requires |prog.code[s.loops - 1]| == |s.p.ops[s.loops - 1]|
    ensures LastLoopOk(s, prog)
  {
    hide Setting.Valid, Partial, PieceRuns, EnvGood, Extending, RunLoop;
    LastLevel(s);
    forall f, env ensures LastOkAt(s, prog, f, env) {
      if |f| == s.loops && Partial(s.C(), f) && EnvGood(s, f, env, s.loops - 1, 0) {
        LastLoopCounts(s, prog, f, env);
      }
    }
  }

  lemma {:induction false} PlanSize(p: PlanIr, q: Query, res: Matrix)
    requires q.Valid() && Square(res, q.n) && Compiled(p, q, res)
    ensures q.n >= 3 && |p.ops| == |p.iter| == q.n - 1
  {
  }

  /** Compiler correctness: on every graph the generated loops count exactly the
      matches that obey the restrictions, edge- or vertex-induced. */
  lemma {:induction false} PlainPlanCorrect(g: Graph, q: Query, pairs: seq<Pair>, res: Matrix, p: PlanIr,
                                            prog: Program, ans: Answers)
    requires g.Valid() && q.Valid() && InOrder(pairs, q.n) && Square(res, q.n) && Closed(res, pairs, q.n)
    requires Compiled(p, q, res) && prog.iter == p.iter && |prog.code| == |p.ops|
    requires forall d :: 0 <= d < |p.ops| ==> IsCodeOf(p, prog.code[d], d)
    ensures ProgramFits(prog) && |prog.code| > 0
    ensures Run(g, ans, prog) == |Matches(g, q, pairs)|
  {
    hide Compiled, Closed, IsPieceOf;
    PlanSize(p, q, res);
    assert IsCodeOf(p, prog.code[q.n - 2], q.n - 2);
    var s := Setting(g, q, res, p, ans, q.n - 1);
    PlainPieces(s, prog);
    LastIsCount(s, prog);
    RunCountsAll(s, prog);
    ProblemIsMatches(g, q, res, pairs);
  }

  /** From a pattern and its restrictions to loops that count on every graph. */
  method CompilePlain(q: Query, pairs: seq<Pair>) returns (out: Option<Program>)
    requires q.Valid() && q.n >= 3 && InOrder(pairs, q.n)
    ensures out.Some? <==> Connected(q.adj)
    ensures out.Some? ==> ProgramFits(out.value) && |out.value.code| > 0
    ensures out.Some? ==> forall g: Graph, ans: Answers :: g.Valid() ==> Run(g, ans, out.value) == |Matches(g, q, pairs)|
  {
    hide Compiled, Closed, Run, ProgramFits, IsCodeOf, Matches;
    var p, res := CreatePlan(q, pairs);
    if p.None? {
      return None;
    }
    ghost var s := Setting(Graph([]), q, res, p.value, (m, f) => {}, q.n - 1);
    var prog := GenCode(p.value, s);
    PlainPlanCorrect(Graph([]), q, pairs, res, p.value, prog, (m, f) => {});
    forall g: Graph, ans: Answers | g.Valid() ensures Run(g, ans, prog) == |Matches(g, q, pairs)| {
      PlainPlanCorrect(g, q, pairs, res, p.value, prog, ans);
    }
    out := Some(prog);
  }
}
