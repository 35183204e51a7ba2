/** The loop language executed on sorted lists with the set kernels. */
module ListRun {
  import opened Arithmetic
  import opened Counting
  import opened Patterns
  import opened SortedLists
  import opened VertexKernels
  import opened Ir
  import opened LoopCode

  type ListEnv = map<SetIr, seq<nat>>

  /** The pruned rows read for the newest vertex. */
  type RowLists = map<MgIr, seq<nat>>

  ghost predicate EnvLists(env: ListEnv, sets: Env) {
    forall op :: HoldsSet(env, sets, op)
  }

  ghost predicate HoldsSet(env: ListEnv, sets: Env, op: SetIr) {
    Lists(Stored(env, op), Get(sets, op))
  }

  function Stored(env: ListEnv, op: SetIr): seq<nat> {
    if op in env then env[op] else []
  }

  ghost predicate RowsListed(rows: RowLists, ans: Answers, f: seq<nat>) {
    forall m :: m in rows ==> Lists(rows[m], ans(m, f))
  }

  ghost predicate InGraph(g: Graph, f: seq<nat>) {
    forall i :: 0 <= i < |f| ==> f[i] < |g.adj|
  }

  /** Everything code may rely on while it runs for f. */
  ghost predicate Ready(g: Graph, rows: RowLists, env: ListEnv, f: seq<nat>, ans: Answers, sets: Env) {
    g.Valid() && InGraph(g, f) && RowsListed(rows, ans, f) && EnvLists(env, sets)
  }

  // ----- which pruned rows code reads -----

  predicate RowRead(row: Row, n: nat, have: set<MgIr>) {
    row.Pruned? ==> row.at + 1 == n && row.mg in have
  }

  /** Pruned rows are read for the newest vertex only, and only those in `have`. */
  predicate ExprReads(e: Expr, n: nat, have: set<MgIr>) {
    match e
    case Saved(_) => true
    case Whole(row) => RowRead(row, n, have)
    case Intersect(s, row, _) => RowRead(row, n, have) && ExprReads(s, n, have)
    case Subtract(s, row, _) => RowRead(row, n, have) && ExprReads(s, n, have)
    case Bounded(s, _) => ExprReads(s, n, have)
    case Remove(s, _) => ExprReads(s, n, have)
    case Meet(s, _) => ExprReads(s, n, have)
  }

  predicate InstrReads(i: Instr, n: nat, have: set<MgIr>) {
    match i
    case Assign(_, e) => ExprReads(e, n, have)
    case SkipIfEmpty(_) => true
    case Count(e) => ExprReads(e, n, have)
    case CountProduct(_, es) => forall k :: 0 <= k < |es| ==> ExprReads(es[k], n, have)
  }

  predicate CodeReads(code: seq<Instr>, n: nat, have: set<MgIr>) {
    forall k :: 0 <= k < |code| ==> InstrReads(code[k], n, have)
  }

  predicate BodyReads(body: seq<seq<Instr>>, n: nat, have: set<MgIr>) {
    forall t :: 0 <= t < |body| ==> CodeReads(body[t], n, have)
  }

  // ----- expressions -----

  lemma {:induction false} CutIsUnder(s: set<nat>, v: nat)
    ensures Upper(v).Cut(s) == Under(s, v) && Free.Cut(s) == s
  {
  }

  function LimitOf(bounded: bool, v: nat): Limit {
    if bounded then Upper(v) else Free
  }

  method ReadRow(g: Graph, rows: RowLists, f: seq<nat>, row: Row, ghost ans: Answers) returns (out: seq<nat>)
    requires g.Valid() && InGraph(g, f) && RowsListed(rows, ans, f) && row.at < |f| && RowRead(row, |f|, rows.Keys)
    ensures Lists(out, RowSet(g, ans, f, row))
  {
    match row {
      case Adj(at) => out := g.adj[f[at]];
      case Pruned(mg, at) =>
        assert f[..at + 1] == f;
        out := rows[mg];
    }
  }

  method EvalList(g: Graph, rows: RowLists, env: ListEnv, f: seq<nat>, e: Expr, ghost ans: Answers, ghost sets: Env)
    returns (out: seq<nat>)
    requires Ready(g, rows, env, f, ans, sets) && Fits(e, |f|) && ExprReads(e, |f|, rows.Keys)
    ensures Lists(out, Eval(g, ans, sets, f, e))
    decreases e
  {
    hide Lists, RowsListed, Graph.Valid;
    match e {
      case Saved(op) =>
        assert HoldsSet(env, sets, op);
        out := Stored(env, op);
      case Whole(row) => out := ReadRow(g, rows, f, row, ans);
      case Intersect(s, row, bounded) =>
        var a := EvalList(g, rows, env, f, s, ans, sets);
        var b := ReadRow(g, rows, f, row, ans);
        out := IntersectLists(a, b, LimitOf(bounded, f[row.at]), Eval(g, ans, sets, f, s), RowSet(g, ans, f, row));
        CutIsUnder(Eval(g, ans, sets, f, s) * RowSet(g, ans, f, row), f[row.at]);
      case Subtract(s, row, bounded) =>
        var a := EvalList(g, rows, env, f, s, ans, sets);
        var b := ReadRow(g, rows, f, row, ans);
        out := SubtractLists(a, b, f[row.at], LimitOf(bounded, f[row.at]), Eval(g, ans, sets, f, s), RowSet(g, ans, f, row));
        CutIsUnder(Eval(g, ans, sets, f, s) - RowSet(g, ans, f, row) - {f[row.at]}, f[row.at]);
      case Bounded(s, at) =>
        var a := EvalList(g, rows, env, f, s, ans, sets);
        ListedElements(a, Eval(g, ans, sets, f, s));
        out := BoundedBy(a, f[at]);
        CutIsUnder(Eval(g, ans, sets, f, s), f[at]);
      case Remove(s, at) =>
        var a := EvalList(g, rows, env, f, s, ans, sets);
        ListedElements(a, Eval(g, ans, sets, f, s));
        out := RemoveId(a, f[at]);
      case Meet(s, op) =>
        var a := EvalList(g, rows, env, f, s, ans, sets);
        assert HoldsSet(env, sets, op);
        out := IntersectLists(a, Stored(env, op), Free, Eval(g, ans, sets, f, s), Get(sets, op));
        CutIsUnder(Eval(g, ans, sets, f, s) * Get(sets, op), 0);
    }
  }

  lemma {:induction false} ListedElements(a: seq<nat>, s: set<nat>)
    requires Lists(a, s)
    ensures Sorted(a) && Elements(a) == s
  {
  }

  method IntersectLists(a: seq<nat>, b: seq<nat>, limit: Limit, ghost s: set<nat>, ghost t: set<nat>) returns (out: seq<nat>)
    requires Lists(a, s) && Lists(b, t)
    ensures Lists(out, limit.Cut(s * t))
  {
    out := VertexKernels.Intersect(a, b, limit);
  }

  method SubtractLists(a: seq<nat>, b: seq<nat>, vid: nat, limit: Limit, ghost s: set<nat>, ghost t: set<nat>)
    returns (out: seq<nat>)
    requires Lists(a, s) && Lists(b, t)
    ensures Lists(out, limit.Cut(s - t - {vid}))
  {
    out := VertexKernels.Subtract(a, b, vid, limit);
  }

  /** Only the size: the counting twins of the kernels. */
  method EvalCount(g: Graph, rows: RowLists, env: ListEnv, f: seq<nat>, e: Expr, ghost ans: Answers, ghost sets: Env)
    returns (n: nat)
    requires Ready(g, rows, env, f, ans, sets) && Fits(e, |f|) && ExprReads(e, |f|, rows.Keys)
    ensures n == |Eval(g, ans, sets, f, e)|
  {
    hide Lists, RowsListed, Graph.Valid;
    match e {
      case Saved(_) => n := CountList(g, rows, env, f, e, ans, sets);
      case Whole(_) => n := CountList(g, rows, env, f, e, ans, sets);
      case Intersect(s, row, bounded) =>
        var a := EvalList(g, rows, env, f, s, ans, sets);
        var b := ReadRow(g, rows, f, row, ans);
        ListedElements(a, Eval(g, ans, sets, f, s));
        ListedElements(b, RowSet(g, ans, f, row));
        n := IntersectCnt(a, b, LimitOf(bounded, f[row.at]));
        CutIsUnder(Eval(g, ans, sets, f, s) * RowSet(g, ans, f, row), f[row.at]);
      case Subtract(s, row, bounded) =>
        var a := EvalList(g, rows, env, f, s, ans, sets);
        var b := ReadRow(g, rows, f, row, ans);
        ListedElements(a, Eval(g, ans, sets, f, s));
        ListedElements(b, RowSet(g, ans, f, row));
        n := SubtractCnt(a, b, f[row.at], LimitOf(bounded, f[row.at]));
        CutIsUnder(Eval(g, ans, sets, f, s) - RowSet(g, ans, f, row) - {f[row.at]}, f[row.at]);
      case Bounded(s, at) =>
        var a := EvalList(g, rows, env, f, s, ans, sets);
        ListedElements(a, Eval(g, ans, sets, f, s));
        n := BoundedCnt(a, f[at]);
        CutIsUnder(Eval(g, ans, sets, f, s), f[at]);
      case Remove(s, at) =>
        var a := EvalList(g, rows, env, f, s, ans, sets);
        ListedElements(a, Eval(g, ans, sets, f, s));
        n := RemoveCnt(a, f[at]);
      case Meet(s, op) =>
        var a := EvalList(g, rows, env, f, s, ans, sets);
        ListedElements(a, Eval(g, ans, sets, f, s));
        assert HoldsSet(env, sets, op);
        ListedElements(Stored(env, op), Get(sets, op));
        n := IntersectCnt(a, Stored(env, op), Free);
        CutIsUnder(Eval(g, ans, sets, f, s) * Get(sets, op), 0);
    }
  }

  method CountList(g: Graph, rows: RowLists, env: ListEnv, f: seq<nat>, e: Expr, ghost ans: Answers, ghost sets: Env)
    returns (n: nat)
    requires Ready(g, rows, env, f, ans, sets) && Fits(e, |f|) && ExprReads(e, |f|, rows.Keys)
    ensures n == |Eval(g, ans, sets, f, e)|
  {
    var a := EvalList(g, rows, env, f, e, ans, sets);
    ListsSize(a, Eval(g, ans, sets, f, e));
    n := |a|;
  }

  // ----- instructions -----

  datatype ListOutcome = Stopped(total: int) | Continued(env: ListEnv, total: int)

  ghost predicate SameOutcome(a: ListOutcome, b: Outcome) {
    match b
    case Skip(n) => a == Stopped(n)
    case Go(sets, n) => a.Continued? && a.total == n && EnvLists(a.env, sets)
  }

  lemma {:induction false} Assigned(env: ListEnv, sets: Env, op: SetIr, a: seq<nat>, s: set<nat>)
    requires EnvLists(env, sets) && Lists(a, s)
    ensures EnvLists(env[op := a], sets[op := s])
  {
    hide Lists;
    var env2, sets2 := env[op := a], sets[op := s];
    forall o ensures HoldsSet(env2, sets2, o) {
      assert HoldsSet(env, sets, o);
    }
  }

  method RunProduct(g: Graph, rows: RowLists, env: ListEnv, f: seq<nat>, scale: int, es: seq<Expr>,
                    ghost ans: Answers, ghost sets: Env)
    returns (val: int)
    requires Ready(g, rows, env, f, ans, sets)
    requires forall k :: 0 <= k < |es| ==> Fits(es[k], |f|) && ExprReads(es[k], |f|, rows.Keys)
    ensures val == ProductOf(g, ans, sets, f, scale, es, |es|)
  {
    hide Ready, Eval, Times;
    val := scale;
    for k := 0 to |es|
      invariant val == ProductOf(g, ans, sets, f, scale, es, k)
    {
      var n := EvalCount(g, rows, env, f, es[k], ans, sets);
      val := Times(val, n);
    }
  }

  method RunInstr(g: Graph, rows: RowLists, env: ListEnv, f: seq<nat>, i: Instr, total: int, ghost ans: Answers, ghost sets: Env)
    returns (out: ListOutcome)
    requires Ready(g, rows, env, f, ans, sets) && InstrFits(i, |f|) && InstrReads(i, |f|, rows.Keys)
    ensures SameOutcome(out, Step(g, ans, f, i, sets, total))
  {
    hide Lists, RowsListed, Eval, ProductOf, Graph.Valid, InGraph;
    match i {
      case Assign(op, e) =>
        var a := EvalList(g, rows, env, f, e, ans, sets);
        Assigned(env, sets, op, a, Eval(g, ans, sets, f, e));
        out := Continued(env[op := a], total);
      case SkipIfEmpty(op) =>
        assert HoldsSet(env, sets, op);
        ListEmpty(Stored(env, op), Get(sets, op));
        out := if |Stored(env, op)| == 0 then Stopped(total) else Continued(env, total);
      case Count(e) =>
        var n := EvalCount(g, rows, env, f, e, ans, sets);
        out := Continued(env, total + n);
      case CountProduct(scale, es) =>
        var n := RunProduct(g, rows, env, f, scale, es, ans, sets);
        out := Continued(env, total + n);
    }
  }

  lemma {:induction false} ListEmpty(a: seq<nat>, s: set<nat>)
    requires Lists(a, s)
    ensures |a| == 0 <==> s == {}
  {
    if |a| > 0 {
      assert a[0] in Elements(a);
    }
  }

  method RunPiece(g: Graph, rows: RowLists, env0: ListEnv, f: seq<nat>, code: seq<Instr>, total0: int,
                  ghost ans: Answers, ghost sets0: Env)
    returns (out: ListOutcome)
    requires Ready(g, rows, env0, f, ans, sets0) && CodeFits(code, |f|) && CodeReads(code, |f|, rows.Keys)
    ensures SameOutcome(out, Exec(g, ans, f, code, |code|, sets0, total0))
  {
    hide Step, EnvLists, RowsListed, InGraph, Graph.Valid, InstrFits, InstrReads;
    out := Continued(env0, total0);
    for k := 0 to |code|
      invariant SameOutcome(out, Exec(g, ans, f, code, k, sets0, total0))
    {
      if out.Continued? {
        ghost var now := Exec(g, ans, f, code, k, sets0, total0);
        out := RunInstr(g, rows, out.env, f, code[k], out.total, ans, now.env);
      }
    }
  }

  method RunBody(g: Graph, rows: RowLists, env0: ListEnv, f: seq<nat>, body: seq<seq<Instr>>, ghost ans: Answers,
                 ghost sets0: Env)
    returns (out: ListOutcome)
    requires Ready(g, rows, env0, f, ans, sets0) && BodyFits(body, |f|) && BodyReads(body, |f|, rows.Keys)
    ensures SameOutcome(out, ExecBody(g, ans, f, body, |body|, sets0))
  {
    hide Exec, EnvLists, RowsListed, InGraph, Graph.Valid, CodeFits, CodeReads;
    out := Continued(env0, 0);
    for t := 0 to |body|
      invariant SameOutcome(out, ExecBody(g, ans, f, body, t, sets0))
    {
      if out.Continued? {
        ghost var now := ExecBody(g, ans, f, body, t, sets0);
        out := RunPiece(g, rows, out.env, f, body[t], out.total, ans, now.env);
      }
    }
  }
}
