/** Any code whose pieces compute their vertex sets makes the loops count the matches. */
module PlanCorrect {
  import opened Counting
  import opened Patterns
  import opened Completions
  import opened Closure
  import opened Ir
  import opened Plans
  import opened LoopCode
  import opened PlanCompiler

  // ----- restrictions as a list again -----

  ghost function RowPairs(row: seq<bool>, b: nat, k: nat): (r: seq<Pair>)
    requires k <= |row|
    ensures forall p :: p in r <==> p.1 == b && p.0 < k && row[p.0]
  {
    if k == 0 then [] else RowPairs(row, b, k - 1) + if row[k - 1] then [(k - 1, b)] else []
  }

  /** The marked pairs with the smaller vertex first, for second vertices below m and
      first vertices below `limit`. */
  ghost function PairsOf(res: Matrix, m: nat, limit: nat): (r: seq<Pair>)
    requires Square(res, |res|) && m <= |res|
    ensures forall p :: p in r <==> p.1 < m && p.0 < p.1 && p.0 < limit && res[p.1][p.0]
  {
    if m == 0 then []
    else PairsOf(res, m - 1, limit) + RowPairs(res[m - 1], m - 1, if limit < m - 1 then limit else m - 1)
  }

  /** The counting problem a plan is compiled for; restrictions between two vertices
      from `limit` on are left aside. */
  ghost function ProblemOf(g: Graph, q: Query, res: Matrix, limit: nat): (c: Problem)
    requires g.Valid() && q.Valid() && Square(res, q.n)
    ensures c.Valid() && c.g == g && c.q == q
  {
    var r := PairsOf(res, q.n, limit);
    assert InOrder(r, q.n) by {
      forall k | 0 <= k < |r| ensures r[k].0 < r[k].1 < q.n {
        assert r[k] in r;
      }
    }
    Problem(g, q, r)
  }

  lemma {:induction false} PairsOfMeaning(res: Matrix, pairs: seq<Pair>, f: seq<nat>)
    requires Square(res, |f|) && InOrder(pairs, |f|) && Closed(res, pairs, |f|)
    ensures Ordered(PairsOf(res, |f|, |f|), f) <==> Ordered(pairs, f)
  {
    ClosureKeepsMeaning(res, pairs, f);
    var r := PairsOf(res, |f|, |f|);
    if ObeysMatrix(res, f) {
      forall k | 0 <= k < |r| ensures r[k].0 < |f| && r[k].1 < |f| && f[r[k].0] > f[r[k].1] {
        assert r[k] in r;
      }
    }
    if Ordered(r, f) {
      forall b: nat, a: nat | b < |f| && a < |f| && res[b][a] ensures f[b] < f[a] {
        ReachInRange(pairs, |f|, a, b);
        assert (a, b) in r;
        var k :| 0 <= k < |r| && r[k] == (a, b);
      }
    }
  }

  /** Compiling the closure does not change what is counted. */
  lemma {:induction false} ProblemIsMatches(g: Graph, q: Query, res: Matrix, pairs: seq<Pair>)
    requires g.Valid() && q.Valid() && Square(res, q.n) && InOrder(pairs, q.n) && Closed(res, pairs, q.n)
    ensures All(ProblemOf(g, q, res, q.n)) == Matches(g, q, pairs)
  {
    hide Closed, Embeds;
    var r := PairsOf(res, q.n, q.n);
    forall f ensures f in Matches(g, q, r) <==> f in Matches(g, q, pairs) {
      if Embeds(g, q, f) {
        EmbedsSize(g, q, f);
        PairsOfMeaning(res, pairs, f);
      }
    }
  }

  lemma {:induction false} EmbedsSize(g: Graph, q: Query, f: seq<nat>)
    requires q.Valid() && Embeds(g, q, f)
    ensures |f| == q.n
  {
  }

  // ----- sets and matches -----

  /** The iterated set holds exactly the vertices that may come next. */
  lemma {:induction false} IterIsNext(g: Graph, q: Query, res: Matrix, limit: nat, f: seq<nat>, x: nat)
    requires g.Valid() && q.Valid() && Square(res, q.n) && 0 < |f| < q.n && |f| <= limit
    ensures Next(ProblemOf(g, q, res, limit), f, x)
      <==> x in Denotes(g, q.induced, SetOf(q.adj, res, |f|, |f| - 1), f)
  {
    var c, i := ProblemOf(g, q, res, limit), |f|;
    var op := SetOf(q.adj, res, i, i - 1);
    if MeetsAll(g, q.induced, op, f, x) && x < |g.adj| {
      forall j | 0 <= j < i
        ensures q.adj[i][j] ==> g.Edge(f[j], x)
        ensures q.induced && !q.adj[i][j] ==> !g.Edge(f[j], x)
        ensures x != f[j] && (res[i][j] ==> x < f[j])
      {
        assert Meets(g, q.induced, op, f, j, x);
        NoLoop(g, f[j], x);
      }
      forall k | 0 <= k < |c.r| && c.r[k].1 == i ensures x < f[c.r[k].0] {
        assert c.r[k] in c.r;
      }
    }
    if Next(c, f, x) {
      NextMeets(g, q, res, limit, f, f, i, x);
    }
  }

  /** A vertex that may come next meets the conditions towards each earlier loop. */
  lemma {:induction false} NextMeets(g: Graph, q: Query, res: Matrix, limit: nat, h: seq<nat>, f: seq<nat>, vid: nat, x: nat)
    requires g.Valid() && q.Valid() && Square(res, q.n) && 0 < |f| <= vid == |h| < q.n && f <= h && |f| <= limit
    requires Next(ProblemOf(g, q, res, limit), h, x)
    ensures x in Denotes(g, q.induced, SetOf(q.adj, res, vid, |f| - 1), f)
  {
    var c := ProblemOf(g, q, res, limit);
    var op := SetOf(q.adj, res, vid, |f| - 1);
    forall i | 0 <= i < |f| ensures Meets(g, q.induced, op, f, i, x) {
      assert h[i] == f[i];
      if res[vid][i] {
        assert (i, vid) in c.r;
        var k :| 0 <= k < |c.r| && c.r[k] == (i, vid);
      }
    }
  }

  /** If some set of this loop is empty, nothing extends f. */
  lemma {:induction false} EmptySetKills(g: Graph, q: Query, res: Matrix, limit: nat, op: SetIr, f: seq<nat>)
    requires g.Valid() && q.Valid() && Square(res, q.n) && 0 < |f| < q.n && |f| <= limit
    requires Serves(op, q.adj, res, |f| - 1) && Denotes(g, q.induced, op, f) == {}
    ensures Extending(ProblemOf(g, q, res, limit), f) == {}
  {
    hide Next, Denotes, Serves;
    var c := ProblemOf(g, q, res, limit);
    var vid := ServedVertex(op, q.adj, res, |f| - 1);
    forall h ensures h !in Extending(c, f) {
      ExtensionInSet(g, q, res, limit, op, f, vid, h);
    }
  }

  lemma {:induction false} ServedVertex(op: SetIr, adj: Matrix, res: Matrix, d: nat) returns (vid: nat)
    requires Square(adj, |adj|) && Square(res, |adj|) && d < |adj| && Serves(op, adj, res, d)
    ensures d < vid < |adj| && op == SetOf(adj, res, vid, d)
  {
    vid :| vid < |adj| && ServesVertex(op, adj, res, d, vid);
  }

  lemma {:induction false} ExtensionInSet(g: Graph, q: Query, res: Matrix, limit: nat, op: SetIr, f: seq<nat>,
                                          vid: nat, h: seq<nat>)
    requires g.Valid() && q.Valid() && Square(res, q.n) && 0 < |f| <= vid < q.n && |f| <= limit
    requires op == SetOf(q.adj, res, vid, |f| - 1)
    ensures h in Extending(ProblemOf(g, q, res, limit), f) ==> h[vid] in Denotes(g, q.induced, op, f)
  {
    hide Next, Denotes;
    var c := ProblemOf(g, q, res, limit);
    if h in Extending(c, f) {
      MatchIsNext(c, h, vid);
      NextMeets(g, q, res, limit, h[..vid], f, vid, h[vid]);
    }
  }

  // ----- running the code -----

  /** A compiled plan about to run on a graph with `loops` loops. */
  datatype Setting = Setting(g: Graph, q: Query, res: Matrix, p: PlanIr, ans: Answers, loops: nat) {
    ghost predicate Valid() {
      && g.Valid() && q.Valid() && Square(res, q.n) && Compiled(p, q, res)
      && 0 < loops < q.n
    }

    ghost function C(): (c: Problem)
      requires Valid()
      ensures c.Valid()
    {
      ProblemOf(g, q, res, Limit())
    }

    /** With all loops every restriction counts; otherwise only those from a looped vertex. */
    ghost function Limit(): nat {
      if loops + 1 == q.n then q.n else loops
    }
  }

  /** The sets of earlier loops, and the first t of loop d, are in place. */
  ghost predicate EnvGood(s: Setting, f: seq<nat>, env: Env, d: nat, t: nat)
    requires s.Valid() && d < |f|
  {
    forall e, u :: 0 <= e < |s.p.ops| && 0 <= u < |s.p.ops[e]| && Done(e, u, d, t) ==> InEnv(s, f, env, e, u)
  }

  predicate Done(e: nat, u: nat, d: nat, t: nat) {
    e < d || (e == d && u < t)
  }

  ghost predicate InEnv(s: Setting, f: seq<nat>, env: Env, e: nat, u: nat)
    requires e < |s.p.ops| && u < |s.p.ops[e]|
  {
    && s.p.ops[e][u].Valid() && s.p.ops[e][u].Depth() < |f|
    && Get(env, s.p.ops[e][u]) == Denotes(s.g, s.q.induced, s.p.ops[e][u], f)
  }

  /** Running `code` puts op in place, or counts it when it is the last; it may
      give up only when op is empty. */
  ghost predicate OpRuns(s: Setting, f: seq<nat>, code: seq<Instr>, op: SetIr, isLast: bool, env: Env, total: int)
    requires CodeFits(code, |f|) && op.Valid() && op.Depth() < |f|
  {
    var want := Denotes(s.g, s.q.induced, op, f);
    match Exec(s.g, s.ans, f, code, |code|, env, total)
    case Skip(n) => n == total && want == {}
    case Go(e, n) => if isLast then n == total + |want| else n == total && e == env[op := want]
  }

  /** The code of set t in loop d does so whenever the sets before it are in place. */
  ghost predicate PieceRuns(s: Setting, prog: Program, d: nat, t: nat, f: seq<nat>, env: Env, total: int)
    requires s.Valid() && ProgramShape(s, prog) && d < s.loops && t < |s.p.ops[d]|
  {
    (|f| == d + 1 && Partial(s.C(), f) && EnvGood(s, f, env, d, t)) ==>
      (s.p.ops[d][t].Valid() && s.p.ops[d][t].Depth() < |f|
       && OpRuns(s, f, prog.code[d][t], s.p.ops[d][t], d == s.q.n - 2, env, total))
  }

  /** One piece of code per set; the last loop may do more. */
  ghost predicate ProgramShape(s: Setting, prog: Program) {
    && ProgramFits(prog) && |prog.code| == s.loops <= |s.p.ops| == |s.p.iter| && prog.iter == s.p.iter[..s.loops]
    && (forall d :: 0 <= d < s.loops ==> |s.p.ops[d]| <= |prog.code[d]|)
    && (forall d :: 0 <= d < s.loops - 1 ==> |s.p.ops[d]| == |prog.code[d]|)
  }

  ghost predicate AllPiecesRun(s: Setting, prog: Program)
    requires s.Valid()
  {
    && ProgramShape(s, prog)
    && forall d, t, f, env, total {:trigger PieceRuns(s, prog, d, t, f, env, total)} ::
      0 <= d < s.loops && 0 <= t < |s.p.ops[d]| ==> PieceRuns(s, prog, d, t, f, env, total)
  }

  lemma {:induction false} SettingSizes(s: Setting)
    requires s.Valid()
    ensures |s.p.ops| == |s.p.iter| == s.q.n - 1 && s.q.n >= 3 && 0 < s.loops < s.q.n
    ensures s.p.n == s.q.n && s.p.induced == s.q.induced
  {
  }

  lemma {:induction false} OpFacts(s: Setting, d: nat, t: nat)
    requires s.Valid() && d < |s.p.ops| && t < |s.p.ops[d]|
    ensures s.p.ops[d][t].Valid() && s.p.ops[d][t].Depth() == d && Ones(s.p.ops[d][t].edges) > 0
    ensures Serves(s.p.ops[d][t], s.q.adj, s.res, d)
  {
    CompiledIsGood(s.p, s.q, s.res);
    assert GoodLevel(s.p.ops, d);
    assert LevelOf(s.p.ops[d], s.q.adj, s.res, d);
  }

  /** Adding the t-th set leaves the others alone. */
  lemma {:induction false} EnvStep(s: Setting, f: seq<nat>, env: Env, d: nat, t: nat)
    requires s.Valid() && d + 1 == |f| && d < |s.p.ops| && t < |s.p.ops[d]| && EnvGood(s, f, env, d, t)
    requires s.p.ops[d][t].Valid() && s.p.ops[d][t].Depth() == d
    ensures EnvGood(s, f, env[s.p.ops[d][t] := Denotes(s.g, s.q.induced, s.p.ops[d][t], f)], d, t + 1)
  {
    hide Denotes;
    var op := s.p.ops[d][t];
    var env' := env[op := Denotes(s.g, s.q.induced, op, f)];
    forall e, u | 0 <= e < |s.p.ops| && 0 <= u < |s.p.ops[e]| && Done(e, u, d, t + 1)
      ensures InEnv(s, f, env', e, u)
    {
      OpFacts(s, e, u);
      if e != d || u != t {
        assert Done(e, u, d, t) && InEnv(s, f, env, e, u);
      }
      if e == d && u < t {
        assert LevelOf(s.p.ops[d], s.q.adj, s.res, d);
      }
    }
  }

  /** A finished loop body hands its sets to the next loop. */
  lemma {:induction false} EnvEnters(s: Setting, f: seq<nat>, env: Env, d: nat, x: nat)
    requires s.Valid() && |f| == d + 1 && d < |s.p.ops| && EnvGood(s, f, env, d, |s.p.ops[d]|)
    ensures EnvGood(s, f + [x], env, d + 1, 0)
  {
    hide Denotes;
    forall e, u | 0 <= e < |s.p.ops| && 0 <= u < |s.p.ops[e]| && Done(e, u, d + 1, 0)
      ensures InEnv(s, f + [x], env, e, u)
    {
      assert Done(e, u, d, |s.p.ops[d]|) && InEnv(s, f, env, e, u);
      DenotesKept(s.g, s.q.induced, s.p.ops[e][u], f, f + [x]);
    }
  }

  ghost predicate BodyOutcome(s: Setting, f: seq<nat>, out: Outcome, d: nat, t: nat)
    requires s.Valid() && d < |f| == d + 1
  {
    match out
    case Skip(n) => n == 0 && |f| < s.q.n && Extending(s.C(), f) == {}
    case Go(e, n) => n == 0 && EnvGood(s, f, e, d, t)
  }

  /** A body before the last: nothing is counted, and giving up loses no match. */
  lemma {:induction false} BodyRuns(s: Setting, prog: Program, f: seq<nat>, env: Env, d: nat, t: nat)
    requires s.Valid() && AllPiecesRun(s, prog)
    requires |f| == d + 1 < s.q.n - 1 && d < s.loops && t <= |s.p.ops[d]|
    requires Partial(s.C(), f) && EnvGood(s, f, env, d, 0)
    ensures BodyOutcome(s, f, ExecBody(s.g, s.ans, f, prog.code[d], t, env), d, t)
    decreases t
  {
    hide Setting.Valid, EnvGood, Partial, Extending, Denotes, Exec, BodyFits;
    SettingSizes(s);
    if t > 0 {
      BodyRuns(s, prog, f, env, d, t - 1);
      var before := ExecBody(s.g, s.ans, f, prog.code[d], t - 1, env);
      match before
      case Skip(n) =>
      case Go(e, n) =>
        BodyStep(s, prog, f, e, d, t - 1);
    }
  }

  lemma {:induction false} BodyStep(s: Setting, prog: Program, f: seq<nat>, env: Env, d: nat, t: nat)
    requires s.Valid() && AllPiecesRun(s, prog)
    requires |f| == d + 1 < s.q.n - 1 && d < s.loops && t < |s.p.ops[d]|
    requires Partial(s.C(), f) && EnvGood(s, f, env, d, t)
    ensures CodeFits(prog.code[d][t], |f|)
    ensures BodyOutcome(s, f, Exec(s.g, s.ans, f, prog.code[d][t], |prog.code[d][t]|, env, 0), d, t + 1)
  {
    hide EnvGood, Partial, Extending, Denotes, Exec, CodeFits, Compiled;
    SettingSizes(s);
    var op := s.p.ops[d][t];
    OpFacts(s, d, t);
    assert BodyFits(prog.code[d], d + 1);
    assert PieceRuns(s, prog, d, t, f, env, 0);
    if Denotes(s.g, s.q.induced, op, f) == {} {
      EmptySetKills(s.g, s.q, s.res, s.Limit(), op, f);
    }
    EnvStep(s, f, env, d, t);
  }

  /** The last loop maintains a single set, the one that is counted. */
  lemma {:induction false} LastLevel(s: Setting)
    requires s.Valid()
    ensures s.p.ops[s.q.n - 2] == [s.p.iter[s.q.n - 2]]
    ensures s.p.iter[s.q.n - 2].Valid() && s.p.iter[s.q.n - 2].Depth() == s.q.n - 2
  {
    hide Ones;
    var d := s.q.n - 2;
    var ops, iter := s.p.ops[d], s.p.iter[d];
    assert LevelOf(ops, s.q.adj, s.res, d);
    IterIsListed(s.p, s.q, s.res, d);
    forall t | 0 <= t < |ops| ensures ops[t] == iter {
      assert Serves(ops[t], s.q.adj, s.res, d);
      var vid := ServedVertex(ops[t], s.q.adj, s.res, d);
    }
    DistinctSize(ops);
    assert Elements(ops) == {iter};
    assert ops == [iter];
  }

  /** The set of the last loop has one element per match. */
  lemma {:induction false} LastSetCounts(s: Setting, f: seq<nat>)
    requires s.Valid() && |f| + 1 == s.q.n == s.loops + 1 && Partial(s.C(), f)
    ensures s.p.iter[|f| - 1].Valid() && s.p.iter[|f| - 1].Depth() == |f| - 1
    ensures |Denotes(s.g, s.q.induced, s.p.iter[|f| - 1], f)| == |Extending(s.C(), f)|
  {
    hide Next, Denotes, Partial, Extending;
    LastLevel(s);
    var want := Denotes(s.g, s.q.induced, s.p.iter[|f| - 1], f);
    forall x: nat ensures x in want <==> Next(s.C(), f, x) {
      IterIsNext(s.g, s.q, s.res, s.Limit(), f, x);
    }
    LastVertex(s.C(), f, want);
  }

  lemma {:induction false} LastLoopCounts(s: Setting, prog: Program, f: seq<nat>, env: Env)
    requires s.Valid() && AllPiecesRun(s, prog) && |f| + 1 == s.q.n == s.loops + 1 && |prog.code[s.loops - 1]| == 1
    requires Partial(s.C(), f) && EnvGood(s, f, env, |f| - 1, 0)
    ensures RunLoop(s.g, s.ans, prog, f, env) == |Extending(s.C(), f)|
  {
    hide EnvGood, Partial, Extending, Denotes, Exec, CodeFits, Compiled, Next;
    var d := |f| - 1;
    SettingSizes(s);
    LastLevel(s);
    LastSetCounts(s, f);
    assert BodyFits(prog.code[d], d + 1);
    assert PieceRuns(s, prog, d, 0, f, env, 0);
    assert ExecBody(s.g, s.ans, f, prog.code[d], 0, env) == Go(env, 0);
  }

  /** Everything is in place for any choice of the next vertex. */
  ghost predicate EnvReady(s: Setting, f: seq<nat>, env: Env)
    requires s.Valid()
  {
    forall x :: EnvGood(s, f + [x], env, |f|, 0)
  }

  lemma {:induction false} EnvStarts(s: Setting, env: Env)
    requires s.Valid()
    ensures EnvReady(s, [], env)
  {
  }

  lemma {:induction false} EnvPasses(s: Setting, f: seq<nat>, env: Env)
    requires s.Valid() && 0 < |f| <= |s.p.ops| && EnvGood(s, f, env, |f| - 1, |s.p.ops[|f| - 1]|)
    ensures EnvReady(s, f, env)
  {
    hide Setting.Valid, EnvGood;
    forall x ensures EnvGood(s, f + [x], env, |f|, 0) {
      EnvEnters(s, f, env, |f| - 1, x);
    }
  }

  /** The last loop of the program counts what it should. */
  ghost predicate LastLoopOk(s: Setting, prog: Program)
    requires s.Valid() && ProgramShape(s, prog)
  {
    forall f, env :: LastOkAt(s, prog, f, env)
  }

  ghost predicate LastOkAt(s: Setting, prog: Program, f: seq<nat>, env: Env)
    requires s.Valid() && ProgramShape(s, prog)
  {
    (|f| == s.loops && Partial(s.C(), f) && EnvGood(s, f, env, s.loops - 1, 0)) ==>
      RunLoop(s.g, s.ans, prog, f, env) == |Extending(s.C(), f)|
  }

  /** One iteration counts the matches that continue the chosen vertices. */
  lemma {:induction false} RunLoopCounts(s: Setting, prog: Program, f: seq<nat>, env: Env)
    requires s.Valid() && AllPiecesRun(s, prog) && LastLoopOk(s, prog) && 0 < |f| <= s.loops
    requires Partial(s.C(), f) && EnvGood(s, f, env, |f| - 1, 0)
    ensures RunLoop(s.g, s.ans, prog, f, env) == |Extending(s.C(), f)|
    decreases s.q.n - |f|, 0, 0
  {
    hide EnvGood, Partial, Extending, Denotes, Exec, ExecBody, CodeFits, Compiled, Next;
    SettingSizes(s);
    if |f| == s.loops {
      assert LastOkAt(s, prog, f, env);
    } else {
      var d := |f| - 1;
      BodyRuns(s, prog, f, env, d, |s.p.ops[d]|);
      var out := ExecBody(s.g, s.ans, f, prog.code[d], |prog.code[d]|, env);
      match out
      case Skip(n) =>
      case Go(e, n) =>
        EnvPasses(s, f, e);
        IterInEnv(s, f, e);
        var xs := Get(e, s.p.iter[d]);
        RunOverCounts(s, prog, f, e, xs);
        ThroughAll(s.C(), f, xs);
    }
  }

  lemma {:induction false} IterInEnv(s: Setting, f: seq<nat>, env: Env)
    requires s.Valid() && 0 < |f| <= s.loops && EnvGood(s, f, env, |f| - 1, |s.p.ops[|f| - 1]|)
    ensures forall x: nat :: Next(s.C(), f, x) <==> x in Get(env, s.p.iter[|f| - 1])
  {
    hide Next, Denotes, EnvGood, Ones;
    var d := |f| - 1;
    IterIsListed(s.p, s.q, s.res, d);
    var u :| 0 <= u < |s.p.ops[d]| && s.p.ops[d][u] == s.p.iter[d];
    EnvAt(s, f, env, d, u);
    forall x: nat ensures Next(s.C(), f, x) <==> x in Get(env, s.p.iter[d]) {
      IterIsNext(s.g, s.q, s.res, s.Limit(), f, x);
    }
  }

  lemma {:induction false} EnvAt(s: Setting, f: seq<nat>, env: Env, d: nat, u: nat)
    requires s.Valid() && |f| == d + 1 && d < |s.p.ops| && u < |s.p.ops[d]|
    requires EnvGood(s, f, env, d, |s.p.ops[d]|)
    ensures InEnv(s, f, env, d, u)
  {
    assert Done(d, u, d, |s.p.ops[d]|);
  }

  lemma {:induction false} RunOverCounts(s: Setting, prog: Program, f: seq<nat>, env: Env, xs: set<nat>)
    requires s.Valid() && AllPiecesRun(s, prog) && LastLoopOk(s, prog) && |f| < s.loops
    requires Partial(s.C(), f) && EnvReady(s, f, env)
    requires forall x :: x in xs ==> Next(s.C(), f, x)
    ensures RunOver(s.g, s.ans, prog, f, env, xs) == |Through(s.C(), f, xs)|
    decreases s.q.n - |f| - 1, 1, |xs|
  {
    hide EnvGood, Partial, Extending, Through, CodeFits, Compiled, Next;
    SettingSizes(s);
    if xs == {} {
      ThroughNone(s.C(), f);
    } else {
      var m := Greatest(xs);
      RunOverCounts(s, prog, f, env, xs - {m});
      PartialGrows(s.C(), f, m);
      assert EnvGood(s, f + [m], env, |f|, 0);
      RunLoopCounts(s, prog, f + [m], env);
      ThroughMore(s.C(), f, xs - {m}, m);
      assert xs - {m} + {m} == xs;
    }
  }

  lemma {:induction false} ThroughNone(c: Problem, f: seq<nat>)
    requires c.Valid()
    ensures |Through(c, f, {})| == 0
  {
    assert Through(c, f, {}) == {};
  }

  lemma {:induction false} FirstVertex(c: Problem, x: nat)
    requires c.Valid() && c.q.n > 0
    ensures Partial(c, []) && (Next(c, [], x) <==> x in Below(c.V()))
  {
  }

  /** The whole run counts every match once. */
  lemma {:induction false} RunCountsAll(s: Setting, prog: Program)
    requires s.Valid() && AllPiecesRun(s, prog) && LastLoopOk(s, prog)
    ensures |prog.code| > 0 && Run(s.g, s.ans, prog) == |All(s.C())|
  {
    hide EnvGood, Partial, CodeFits, Compiled, Next, All;
    SettingSizes(s);
    EnvStarts(s, map[]);
    var c, vs := s.C(), Below(|s.g.adj|);
    FirstVertex(c, 0);
    forall x: nat ensures Next(c, [], x) <==> x in vs {
      FirstVertex(c, x);
    }
    RunOverCounts(s, prog, [], map[], vs);
    ThroughAll(c, [], vs);
    assert Extending(c, []) == All(c);
  }
}
