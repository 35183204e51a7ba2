/** The generated nested loops as a small language, with its meaning. */
module LoopCode {
  import opened Arithmetic
  import opened Counting
  import opened Patterns
  import opened Ir

  /** An adjacency row of the vertex of some loop: from the graph, or from a minigraph. */
  datatype Row = Adj(at: nat) | Pruned(mg: MgIr, at: nat)

  datatype Expr =
    | Saved(op: SetIr)
    | Whole(row: Row)
    | Intersect(base: Expr, row: Row, bounded: bool)
    | Subtract(base: Expr, row: Row, bounded: bool)
    | Bounded(base: Expr, at: nat)
    | Remove(base: Expr, at: nat)
    | Meet(base: Expr, op: SetIr)

  /** CountProduct adds a constant times the sizes of several sets. */
  datatype Instr =
    | Assign(op: SetIr, value: Expr)
    | SkipIfEmpty(op: SetIr)
    | Count(value: Expr)
    | CountProduct(scale: int, factors: seq<Expr>)

  /** code[d][t] computes the t-th set of loop d; loop d + 1 runs over iter[d]. */
  datatype Program = Program(code: seq<seq<seq<Instr>>>, iter: seq<SetIr>) {
    ghost predicate Valid() {
      |code| == |iter|
    }
  }

  type Env = map<SetIr, set<nat>>

  /** What minigraph m answers for the vertex of the newest loop, given the vertices so far. */
  type Answers = (MgIr, seq<nat>) -> set<nat>

  ghost function Get(env: Env, op: SetIr): set<nat> {
    if op in env then env[op] else {}
  }

  ghost function Neighbours(g: Graph, v: nat): set<nat> {
    if v < |g.adj| then Elements(g.adj[v]) else {}
  }

  ghost function RowSet(g: Graph, ans: Answers, f: seq<nat>, row: Row): set<nat>
    requires row.at < |f|
  {
    match row
    case Adj(at) => Neighbours(g, f[at])
    case Pruned(mg, at) => ans(mg, f[..at + 1])
  }

  ghost function Under(s: set<nat>, v: nat): (r: set<nat>)
    ensures forall x :: x in r <==> x in s && x < v
  {
    set x | x in s && x < v
  }

  ghost predicate Fits(e: Expr, n: nat) {
    match e
    case Saved(_) => true
    case Whole(row) => row.at < n
    case Intersect(s, row, _) => row.at < n && Fits(s, n)
    case Subtract(s, row, _) => row.at < n && Fits(s, n)
    case Bounded(s, at) => at < n && Fits(s, n)
    case Remove(s, at) => at < n && Fits(s, n)
    case Meet(s, _) => Fits(s, n)
  }

  /** subtract also removes the vertex whose row is subtracted. */
  ghost function Eval(g: Graph, ans: Answers, env: Env, f: seq<nat>, e: Expr): set<nat>
    requires Fits(e, |f|)
  {
    match e
    case Saved(op) => Get(env, op)
    case Whole(row) => RowSet(g, ans, f, row)
    case Intersect(s, row, bounded) =>
      var r := Eval(g, ans, env, f, s) * RowSet(g, ans, f, row);
      if bounded then Under(r, f[row.at]) else r
    case Subtract(s, row, bounded) =>
      var r := Eval(g, ans, env, f, s) - RowSet(g, ans, f, row) - {f[row.at]};
      if bounded then Under(r, f[row.at]) else r
    case Bounded(s, at) => Under(Eval(g, ans, env, f, s), f[at])
    case Remove(s, at) => Eval(g, ans, env, f, s) - {f[at]}
    case Meet(s, op) => Eval(g, ans, env, f, s) * Get(env, op)
  }

  ghost predicate InstrFits(i: Instr, n: nat) {
    match i
    case Assign(_, e) => Fits(e, n)
    case SkipIfEmpty(_) => true
    case Count(e) => Fits(e, n)
    case CountProduct(_, es) => forall k :: 0 <= k < |es| ==> Fits(es[k], n)
  }

  /** scale times the sizes of the first k sets. */
  ghost function ProductOf(g: Graph, ans: Answers, env: Env, f: seq<nat>, scale: int, es: seq<Expr>, k: nat): int
    requires k <= |es| && forall j :: 0 <= j < |es| ==> Fits(es[j], |f|)
  {
    if k == 0 then scale else Times(ProductOf(g, ans, env, f, scale, es, k - 1), |Eval(g, ans, env, f, es[k - 1])|)
  }

  /** Either the iteration is abandoned, or it goes on; both keep what was counted. */
  datatype Outcome = Skip(total: int) | Go(env: Env, total: int)

  ghost function Step(g: Graph, ans: Answers, f: seq<nat>, i: Instr, env: Env, total: int): Outcome
    requires InstrFits(i, |f|)
  {
    match i
    case Assign(op, e) => Go(env[op := Eval(g, ans, env, f, e)], total)
    case SkipIfEmpty(op) => if Get(env, op) == {} then Skip(total) else Go(env, total)
    case Count(e) => Go(env, total + |Eval(g, ans, env, f, e)|)
    case CountProduct(scale, es) => Go(env, total + ProductOf(g, ans, env, f, scale, es, |es|))
  }

  ghost predicate CodeFits(code: seq<Instr>, n: nat) {
    forall k :: 0 <= k < |code| ==> InstrFits(code[k], n)
  }

  /** The first k instructions. */
  ghost function Exec(g: Graph, ans: Answers, f: seq<nat>, code: seq<Instr>, k: nat, env: Env, total: int): Outcome
    requires k <= |code| && CodeFits(code, |f|)
  {
    if k == 0 then
      Go(env, total)
    else
      match Exec(g, ans, f, code, k - 1, env, total)
      case Skip(t) => Skip(t)
      case Go(e, t) => Step(g, ans, f, code[k - 1], e, t)
  }

  ghost predicate BodyFits(body: seq<seq<Instr>>, n: nat) {
    forall t :: 0 <= t < |body| ==> CodeFits(body[t], n)
  }

  /** The code of the first t sets of a loop body. */
  ghost function ExecBody(g: Graph, ans: Answers, f: seq<nat>, body: seq<seq<Instr>>, t: nat, env: Env): Outcome
    requires t <= |body| && BodyFits(body, |f|)
  {
    if t == 0 then
      Go(env, 0)
    else
      match ExecBody(g, ans, f, body, t - 1, env)
      case Skip(n) => Skip(n)
      case Go(e, n) => Exec(g, ans, f, body[t - 1], |body[t - 1]|, e, n)
  }

  ghost predicate ProgramFits(p: Program) {
    p.Valid() && forall d :: 0 <= d < |p.code| ==> BodyFits(p.code[d], d + 1)
  }

  ghost function Greatest(s: set<nat>): (m: nat)
    requires s != {}
    ensures m in s && forall x :: x in s ==> x <= m
  {
    var x :| x in s;
    var rest := s - {x};
    assert s == rest + {x};
    if rest == {} then x else var m := Greatest(rest); if m < x then x else m
  }

  /** One iteration of loop |f| - 1: its body, then the next loop if there is one. */
  ghost function RunLoop(g: Graph, ans: Answers, p: Program, f: seq<nat>, env: Env): int
    requires ProgramFits(p) && 0 < |f| <= |p.code|
    decreases |p.code| - |f|, 0, 0
  {
    var d := |f| - 1;
    match ExecBody(g, ans, f, p.code[d], |p.code[d]|, env)
    case Skip(n) => n
    case Go(e, n) => n + if |f| == |p.code| then 0 else RunOver(g, ans, p, f, e, Get(e, p.iter[d]))
  }

  /** The loop over xs in ascending order, written from its last iteration. */
  ghost function RunOver(g: Graph, ans: Answers, p: Program, f: seq<nat>, env: Env, xs: set<nat>): int
    requires ProgramFits(p) && |f| < |p.code|
    decreases |p.code| - |f| - 1, 1, |xs|
  {
    if xs == {} then
      0
    else
      var m := Greatest(xs);
      RunOver(g, ans, p, f, env, xs - {m}) + RunLoop(g, ans, p, f + [m], env)
  }

  /** The whole program: loop 0 runs over all vertices. */
  ghost function Run(g: Graph, ans: Answers, p: Program): int
    requires ProgramFits(p) && |p.code| > 0
  {
    RunOver(g, ans, p, [], map[], Below(|g.adj|))
  }
}
