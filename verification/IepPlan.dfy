/** The plan with inclusion-exclusion: the last k vertices are not looped over but
    counted by signed products of set sizes. */
module IepPlan {
  import opened Patterns
  import opened Schedules
  import opened Completions
  import opened Closure
  import opened Ir
  import opened Plans
  import opened LoopCode
  import opened PlanCompiler
  import opened PlanCorrect
  import opened PlainPlan
  import opened Matcher
  import opened InclusionExclusion
  import opened ExclusionGroups

  // ----- the sets to multiply -----

  /** same_iep_computation: equal as far as both know the loops. */
  predicate SameIepComputation(a: SetIr, b: SetIr) {
    forall i :: 0 <= i < |a.edges| && i < |b.edges| && i < |a.restricts| && i < |b.restricts| ==>
      a.edges[i] == b.edges[i] && a.restricts[i] == b.restricts[i]
  }

  lemma {:induction false} SameIsCut(op: SetIr, child: SetIr)
    requires op.Valid() && child.Valid() && op.Depth() <= child.Depth()
    ensures SameIepComputation(op, child) <==> op == child.UpTo(op.Depth())
  {
    var cut := child.UpTo(op.Depth());
    if SameIepComputation(op, child) {
      assert op.edges == cut.edges && op.restricts == cut.restricts;
    }
  }

  /** The set of loop d0 that stands in for a later iterated set. */
  method FindIepSet(ops: seq<SetIr>, child: SetIr, d0: nat) returns (vset: Option<SetIr>)
    requires child.Valid() && d0 <= child.Depth() && child.UpTo(d0) in ops
    requires forall t :: 0 <= t < |ops| ==> ops[t].Valid() && ops[t].Depth() == d0
    ensures vset == Some(child.UpTo(d0))
  {
    vset := None;
    for t := 0 to |ops|
      invariant vset.Some? ==> vset.value == child.UpTo(d0)
      invariant child.UpTo(d0) in ops[..t] ==> vset.Some?
    {
      SameIsCut(ops[t], child);
      assert ops[..t + 1] == ops[..t] + [ops[t]];
      if SameIepComputation(ops[t], child) {
        vset := Some(ops[t]);
      }
    }
    assert ops[..|ops|] == ops;
  }

  /** A setting whose last loop hands over to inclusion-exclusion for k vertices. */
  ghost predicate IepReady(s: Setting, k: nat) {
    s.Valid() && !s.q.induced && k >= 2 && s.loops + k == s.q.n && Independent(s.q.adj, s.loops)
  }

  lemma {:induction false} IepFacts(s: Setting, k: nat)
    requires IepReady(s, k)
    ensures s.g.Valid() && s.q.Valid() && Square(s.res, s.q.n) && 0 < s.loops < s.q.n
    ensures s.Limit() == s.loops < |s.p.ops| == |s.p.iter|
  {
  }

  /** The set for tail vertex i. */
  function IepSet(p: PlanIr, d0: nat, i: nat): (op: SetIr)
    requires d0 + i < |p.iter| && p.iter[d0 + i].Valid() && d0 < |p.iter[d0 + i].edges|
    ensures op.Valid() && op.Depth() == d0
  {
    p.iter[d0 + i].UpTo(d0)
  }

  lemma {:induction false} IepSetIs(s: Setting, k: nat, i: nat)
    requires IepReady(s, k) && i < k
    ensures var d0 := s.loops - 1;
      && d0 + i < |s.p.iter| && s.p.iter[d0 + i].Valid() && s.p.iter[d0 + i].Depth() == d0 + i
      && IepSet(s.p, d0, i) == SetOf(s.q.adj, s.res, s.loops + i, d0)
      && IepSet(s.p, d0, i) in s.p.ops[d0]
  {
    SettingSizes(s);
    var d0, vid := s.loops - 1, s.loops + i;
    var child := s.p.iter[d0 + i];
    assert child == SetOf(s.q.adj, s.res, vid, d0 + i) && Ones(child.edges) > 0;
    var row := s.q.adj[vid];
    assert row[..d0 + i + 1][..d0 + 1] == row[..d0 + 1];
    assert s.res[vid][..d0 + i + 1][..d0 + 1] == s.res[vid][..d0 + 1];
    SomeOne(child.edges);
    var j :| 0 <= j < |child.edges| && child.edges[j];
    assert row[j] && j <= d0;
    SomeOne(row[..d0 + 1]);
    assert row[..d0 + 1][j];
    assert ServesVertex(IepSet(s.p, d0, i), s.q.adj, s.res, d0, vid);
    assert LevelOf(s.p.ops[d0], s.q.adj, s.res, d0);
  }

  /** What the sets hold once the loops have chosen f. */
  ghost function Tail(s: Setting, k: nat, f: seq<nat>): (r: Family)
    requires IepReady(s, k) && |f| == s.loops
    ensures |r| == k
  {
    seq(k, i requires 0 <= i < k => TailSet(s, k, f, i))
  }

  ghost function TailSet(s: Setting, k: nat, f: seq<nat>, i: nat): set<nat>
    requires IepReady(s, k) && |f| == s.loops && i < k
  {
    IepSetIs(s, k, i);
    Denotes(s.g, false, IepSet(s.p, s.loops - 1, i), f)
  }

  lemma {:induction false} NextIsNew(c: Problem, f: seq<nat>, t: seq<nat>, x: nat)
    requires c.Valid() && |f + t| < c.q.n && Next(c, f + t, x)
    ensures x !in t
  {
  }

  /** The tail vertices are constrained by their sets and by being distinct, only: they
      are not adjacent, and restrictions between two of them are not enforced. */
  lemma {:induction false} TailNext(s: Setting, k: nat, f: seq<nat>, t: seq<nat>, x: nat)
    requires IepReady(s, k) && |f| == s.loops && |t| < k
    ensures Next(s.C(), f + t, x) <==> x in TailSet(s, k, f, |t|) && x !in t
  {
    hide Next, Denotes, Setting.Valid, SetOf;
    IepFacts(s, k);
    IepSetIs(s, k, |t|);
    var c, h, vid := s.C(), f + t, s.loops + |t|;
    var op := SetOf(s.q.adj, s.res, vid, s.loops - 1);
    if Next(c, h, x) {
      NextMeets(s.g, s.q, s.res, s.Limit(), h, f, vid, x);
      NextIsNew(c, f, t, x);
    }
    if x in Denotes(s.g, false, op, f) && x !in t {
      TailFits(s, k, f, t, x);
    }
  }

  lemma {:induction false} TailFits(s: Setting, k: nat, f: seq<nat>, t: seq<nat>, x: nat)
    requires IepReady(s, k) && |f| == s.loops && |t| < k && x !in t
    requires x in Denotes(s.g, false, SetOf(s.q.adj, s.res, s.loops + |t|, s.loops - 1), f)
    ensures Next(s.C(), f + t, x)
  {
    hide Compiled;
    var c, h, vid := s.C(), f + t, s.loops + |t|;
    var op := SetOf(s.q.adj, s.res, vid, s.loops - 1);
    forall j | 0 <= j < |f|
      ensures (s.q.adj[vid][j] ==> s.g.Edge(f[j], x)) && x != f[j] && (s.res[vid][j] ==> x < f[j])
    {
      assert Meets(s.g, false, op, f, j, x);
      NoLoop(s.g, f[j], x);
    }
    forall j | 0 <= j < |h| && s.q.adj[vid][j] ensures s.g.Edge(h[j], x) {
      assert j < |f| && h[j] == f[j];
    }
    forall m | 0 <= m < |c.r| && c.r[m].1 == vid ensures x < h[c.r[m].0] {
      assert c.r[m] in c.r;
      assert h[c.r[m].0] == f[c.r[m].0];
    }
  }

  lemma {:induction false} TailSeparates(s: Setting, k: nat, f: seq<nat>)
    requires IepReady(s, k) && |f| == s.loops
    ensures Separates(s.C(), f, Tail(s, k, f))
  {
    hide Next, Setting.Valid, Denotes;
    var c, fam := s.C(), Tail(s, k, f);
    forall t, x ensures ChoosesFrom(c, f, fam, t, x) {
      if |t| < k {
        TailNext(s, k, f, t, x);
      }
    }
  }

  // ----- the generated products -----

  /** s0.intersect(s1)...: the common members of a block's sets. */
  function Chain(sets: seq<SetIr>, block: seq<nat>): Expr
    requires |block| > 0 && forall j :: 0 <= j < |block| ==> block[j] < |sets|
  {
    var n := |block| - 1;
    if n == 0 then Saved(sets[block[0]]) else Meet(Chain(sets, block[..n]), sets[block[n]])
  }

  /** Two equal sets need no intersection. */
  function BlockExpr(sets: seq<SetIr>, block: seq<nat>): Expr
    requires |block| > 0 && forall j :: 0 <= j < |block| ==> block[j] < |sets|
  {
    if |block| == 2 && sets[block[0]] == sets[block[1]] then Saved(sets[block[0]]) else Chain(sets, block)
  }

  ghost predicate BlocksFitSets(sets: seq<SetIr>, group: seq<seq<nat>>) {
    forall b :: 0 <= b < |group| ==> BlockFits(sets, group[b])
  }

  predicate BlockFits(sets: seq<SetIr>, block: seq<nat>) {
    |block| > 0 && forall j :: 0 <= j < |block| ==> block[j] < |sets|
  }

  method GenCodeIep(sets: seq<SetIr>, group: seq<seq<nat>>, val: int) returns (code: Instr)
    requires BlocksFitSets(sets, group)
    ensures code.CountProduct? && code.scale == val && |code.factors| == |group|
    ensures forall b :: 0 <= b < |group| ==> BlockFits(sets, group[b]) && code.factors[b] == BlockExpr(sets, group[b])
  {
    var factors: seq<Expr> := [];
    for b := 0 to |group|
      invariant |factors| == b
      invariant forall a :: 0 <= a < b ==> BlockFits(sets, group[a]) && factors[a] == BlockExpr(sets, group[a])
    {
      assert BlockFits(sets, group[b]);
      factors := factors + [BlockExpr(sets, group[b])];
    }
    code := CountProduct(val, factors);
  }

  /** The environment holds the family. */
  ghost predicate Holds(env: Env, sets: seq<SetIr>, fam: Family) {
    |sets| == |fam| && forall i :: 0 <= i < |sets| ==> Get(env, sets[i]) == fam[i]
  }

  lemma {:induction false} ChainIsMeeting(g: Graph, ans: Answers, env: Env, f: seq<nat>, sets: seq<SetIr>,
                                          fam: Family, block: seq<nat>)
    requires Holds(env, sets, fam) && BlockFits(sets, block)
    ensures Fits(Chain(sets, block), |f|) && Eval(g, ans, env, f, Chain(sets, block)) == Meeting(fam, block)
    decreases |block|
  {
    var n := |block| - 1;
    if n > 0 {
      ChainIsMeeting(g, ans, env, f, sets, fam, block[..n]);
      assert Meeting(fam, block) == Meeting(fam, block[..n]) * fam[block[n]];
    }
  }

  lemma {:induction false} WithoutNothing(fam: Family)
    ensures Outside(fam, {}) == fam
  {
    forall i | 0 <= i < |fam| ensures Outside(fam, {})[i] == fam[i] {}
  }

  lemma {:induction false} FactorIsCommon(g: Graph, ans: Answers, env: Env, f: seq<nat>, sets: seq<SetIr>,
                                          fam: Family, block: seq<nat>)
    requires Holds(env, sets, fam) && BlockFits(sets, block)
    ensures Fits(BlockExpr(sets, block), |f|) && Eval(g, ans, env, f, BlockExpr(sets, block)) == Common(fam, block)
  {
    hide Common;
    ChainIsMeeting(g, ans, env, f, sets, fam, block);
    CommonIsMeeting(fam, {}, block);
    WithoutNothing(fam);
    assert Meeting(fam, block) - {} == Meeting(fam, block);
    if |block| == 2 && sets[block[0]] == sets[block[1]] {
      assert block[..1] == [block[0]];
      assert Meeting(fam, block[..1]) == fam[block[0]];
      assert Meeting(fam, block) == fam[block[0]] * fam[block[1]];
    }
  }

  /** The generated product is the signed product of the sizes of the common sets. */
  lemma {:induction false} ProductIsGroup(g: Graph, ans: Answers, env: Env, f: seq<nat>, sets: seq<SetIr>, fam: Family,
                                          group: seq<seq<nat>>, val: int, es: seq<Expr>, k: nat)
    requires Holds(env, sets, fam) && BlocksFitSets(sets, group) && GroupFits(group, |fam|) && k <= |group| == |es|
    requires forall b :: 0 <= b < |group| ==> BlockFits(sets, group[b]) && es[b] == BlockExpr(sets, group[b])
    requires forall b :: 0 <= b < |es| ==> Fits(es[b], |f|)
    ensures ProductOf(g, ans, env, f, val, es, k) == GroupProduct(fam, val, group, k)
    decreases k
  {
    hide BlockExpr, Common, Eval, Holds;
    if k > 0 {
      ProductIsGroup(g, ans, env, f, sets, fam, group, val, es, k - 1);
      FactorIsCommon(g, ans, env, f, sets, fam, group[k - 1]);
    }
  }

  // ----- the plan -----

  /** The table's products, one per stored group. */
  ghost predicate IsIepCode(sets: seq<SetIr>, groups: seq<seq<seq<nat>>>, vals: seq<int>, code: seq<Instr>) {
    |code| == |vals| == |groups| && forall r :: 0 <= r < |code| ==> IsProduct(sets, groups[r], vals[r], code[r])
  }

  ghost predicate IsProduct(sets: seq<SetIr>, group: seq<seq<nat>>, val: int, i: Instr) {
    && BlocksFitSets(sets, group)
    && i.CountProduct? && i.scale == val && |i.factors| == |group|
    && forall b :: 0 <= b < |group| ==> BlockFits(sets, group[b]) && i.factors[b] == BlockExpr(sets, group[b])
  }

  lemma {:induction false} ChainFits(sets: seq<SetIr>, block: seq<nat>, n: nat)
    requires BlockFits(sets, block)
    ensures Fits(Chain(sets, block), n)
    decreases |block|
  {
    var m := |block| - 1;
    if m > 0 {
      ChainFits(sets, block[..m], n);
    }
  }

  lemma {:induction false} ProductFits(sets: seq<SetIr>, group: seq<seq<nat>>, val: int, i: Instr, n: nat)
    requires IsProduct(sets, group, val, i)
    ensures InstrFits(i, n)
  {
    forall b | 0 <= b < |i.factors| ensures Fits(i.factors[b], n) {
      ChainFits(sets, group[b], n);
    }
  }

  lemma {:induction false} IepCodeFits(sets: seq<SetIr>, groups: seq<seq<seq<nat>>>, vals: seq<int>, code: seq<Instr>, n: nat)
    requires IsIepCode(sets, groups, vals, code)
    ensures CodeFits(code, n)
  {
    hide IsProduct, InstrFits;
    forall r | 0 <= r < |code| ensures InstrFits(code[r], n) {
      ProductFits(sets, groups[r], vals[r], code[r], n);
    }
  }

  /** Running the products adds the signed sum over the stored groups. */
  lemma {:induction false} IepCodeRuns(s: Setting, env: Env, f: seq<nat>, sets: seq<SetIr>, fam: Family,
                                       groups: seq<seq<seq<nat>>>, vals: seq<int>, code: seq<Instr>, k: nat)
    requires IsIepCode(sets, groups, vals, code) && CodeFits(code, |f|) && k <= |vals|
    requires Holds(env, sets, fam) && forall r :: 0 <= r < |groups| ==> GroupFits(groups[r], |fam|)
    ensures Exec(s.g, s.ans, f, code, k, env, 0) == Go(env, GroupSum(fam, groups, vals, k))
    decreases k
  {
    hide GroupProduct, Holds, ProductOf, BlocksFitSets, GroupFits;
    if k > 0 {
      IepCodeRuns(s, env, f, sets, fam, groups, vals, code, k - 1);
      var i := code[k - 1];
      assert IsProduct(sets, groups[k - 1], vals[k - 1], i) && InstrFits(i, |f|);
      ProductIsGroup(s.g, s.ans, env, f, sets, fam, groups[k - 1], vals[k - 1], i.factors, |i.factors|);
    }
  }

  ghost function IepSets(s: Setting, k: nat): (r: seq<SetIr>)
    requires IepReady(s, k)
    ensures |r| == k
  {
    seq(k, i requires 0 <= i < k => IepSetAt(s, k, i))
  }

  ghost function IepSetAt(s: Setting, k: nat, i: nat): (op: SetIr)
    requires IepReady(s, k) && i < k
    ensures op.Valid() && op.Depth() == s.loops - 1
  {
    IepSetIs(s, k, i);
    IepSet(s.p, s.loops - 1, i)
  }

  /** Loops up to the last looped vertex, one piece of code per set, then the products. */
  ghost predicate IepLayout(s: Setting, k: nat, groups: seq<seq<seq<nat>>>, vals: seq<int>, prog: Program) {
    && IepReady(s, k) && GoodTables(k, groups, vals)
    && |prog.code| == s.loops <= |s.p.ops| == |s.p.iter| && prog.iter == s.p.iter[..s.loops]
    && (forall d :: 0 <= d < s.loops - 1 ==> |prog.code[d]| == |s.p.ops[d]|)
    && |prog.code[s.loops - 1]| == |s.p.ops[s.loops - 1]| + 1
    && IsIepCode(IepSets(s, k), groups, vals, prog.code[s.loops - 1][|s.p.ops[s.loops - 1]|])
  }

  ghost predicate PiecesFit(s: Setting, prog: Program)
    requires s.loops <= |prog.code| && s.loops <= |s.p.ops|
  {
    forall d, t :: 0 <= d < s.loops && 0 <= t < |s.p.ops[d]| && t < |prog.code[d]| ==> CodeFits(prog.code[d][t], d + 1)
  }

  lemma {:induction false} LayoutShape(s: Setting, k: nat, groups: seq<seq<seq<nat>>>, vals: seq<int>, prog: Program)
    requires IepLayout(s, k, groups, vals, prog) && PiecesFit(s, prog)
    ensures ProgramShape(s, prog)
  {
    hide Setting.Valid, GoodTables, IsIepCode, CodeFits;
    IepFacts(s, k);
    var last, m := s.loops - 1, |s.p.ops[s.loops - 1]|;
    IepCodeFits(IepSets(s, k), groups, vals, prog.code[last][m], s.loops);
    forall d | 0 <= d < |prog.code| ensures BodyFits(prog.code[d], d + 1) && |s.p.ops[d]| <= |prog.code[d]| {
      forall t | 0 <= t < |prog.code[d]| ensures CodeFits(prog.code[d][t], d + 1) {
        assert d != last || t != m ==> t < |s.p.ops[d]|;
      }
    }
  }

  /** Once the last looped body is done, the sets to multiply are in place. */
  lemma {:induction false} TailInPlace(s: Setting, k: nat, f: seq<nat>, env: Env)
    requires IepReady(s, k) && |f| == s.loops <= |s.p.ops|
    requires EnvGood(s, f, env, s.loops - 1, |s.p.ops[s.loops - 1]|)
    ensures Holds(env, IepSets(s, k), Tail(s, k, f))
  {
    hide Setting.Valid, EnvGood, Denotes;
    var d, sets := s.loops - 1, IepSets(s, k);
    forall i | 0 <= i < k ensures Get(env, sets[i]) == Tail(s, k, f)[i] {
      IepSetIs(s, k, i);
      var u :| 0 <= u < |s.p.ops[d]| && s.p.ops[d][u] == sets[i];
      EnvAt(s, f, env, d, u);
    }
  }

  /** The products count the matches that continue f. */
  lemma {:induction false} ProductsCount(s: Setting, k: nat, groups: seq<seq<seq<nat>>>, vals: seq<int>,
                                         prog: Program, f: seq<nat>, env: Env)
    requires IepLayout(s, k, groups, vals, prog) && ProgramShape(s, prog) && |f| == s.loops && Partial(s.C(), f)
    requires EnvGood(s, f, env, s.loops - 1, |s.p.ops[s.loops - 1]|)
    ensures var code := prog.code[s.loops - 1][|s.p.ops[s.loops - 1]|];
      CodeFits(code, |f|) && Exec(s.g, s.ans, f, code, |code|, env, 0) == Go(env, |Extending(s.C(), f)|)
  {
    hide Setting.Valid, EnvGood, Partial, Extending, GoodTables, IsIepCode, Exec, CodeFits, Holds, Separates,
      InjectiveChoices, Tail;
    var fam, sets := Tail(s, k, f), IepSets(s, k);
    IepFacts(s, k);
    var code := prog.code[s.loops - 1][|s.p.ops[s.loops - 1]|];
    TailInPlace(s, k, f, env);
    IepCodeFits(sets, groups, vals, code, |f|);
    TablesCountInjective(fam, groups, vals);
    CodeLength(sets, groups, vals, code);
    IepCodeRuns(s, env, f, sets, fam, groups, vals, code, |vals|);
    TailSeparates(s, k, f);
    FinishingIsChoosing(s.C(), f, fam);
  }

  lemma {:induction false} CodeLength(sets: seq<SetIr>, groups: seq<seq<seq<nat>>>, vals: seq<int>, code: seq<Instr>)
    requires IsIepCode(sets, groups, vals, code)
    ensures |code| == |vals|
  {
  }

  lemma {:induction false} IepLastLoop(s: Setting, k: nat, groups: seq<seq<seq<nat>>>, vals: seq<int>, prog: Program,
                                       f: seq<nat>, env: Env)
    requires IepLayout(s, k, groups, vals, prog) && AllPiecesRun(s, prog)
    requires |f| == s.loops && Partial(s.C(), f) && EnvGood(s, f, env, s.loops - 1, 0)
    ensures RunLoop(s.g, s.ans, prog, f, env) == |Extending(s.C(), f)|
  {
    hide Setting.Valid, EnvGood, Partial, Extending, GoodTables, IsIepCode, Exec, CodeFits, PieceRuns;
    SettingSizes(s);
    var d, m := s.loops - 1, |s.p.ops[s.loops - 1]|;
    var body := prog.code[d];
    BodyRuns(s, prog, f, env, d, m);
    var before := ExecBody(s.g, s.ans, f, body, m, env);
    match before
    case Skip(n) =>
    case Go(e, n) => ProductsCount(s, k, groups, vals, prog, f, e);
  }

  lemma {:induction false} IepLastOk(s: Setting, k: nat, groups: seq<seq<seq<nat>>>, vals: seq<int>, prog: Program)
    requires IepLayout(s, k, groups, vals, prog) && AllPiecesRun(s, prog)
    ensures LastLoopOk(s, prog)
  {
    hide Setting.Valid, EnvGood, Partial, Extending, GoodTables, PieceRuns, RunLoop;
    SettingSizes(s);
    forall f, env ensures LastOkAt(s, prog, f, env) {
      if |f| == s.loops && Partial(s.C(), f) && EnvGood(s, f, env, s.loops - 1, 0) {
        IepLastLoop(s, k, groups, vals, prog, f, env);
      }
    }
  }

  /** With inclusion-exclusion for the last k vertices, any code that computes the sets
      counts exactly the maps that obey every (closed) restriction starting from a
      looped vertex. */
  lemma {:induction false} IepCounts(s: Setting, k: nat, groups: seq<seq<seq<nat>>>, vals: seq<int>, prog: Program)
    requires IepLayout(s, k, groups, vals, prog) && AllPiecesRun(s, prog)
    ensures ProgramFits(prog) && |prog.code| > 0
    ensures Run(s.g, s.ans, prog) == |All(ProblemOf(s.g, s.q, s.res, s.q.n - k))|
  {
    hide Setting.Valid, EnvGood, Partial, Extending, GoodTables, PieceRuns, RunLoop, Run, All;
    SettingSizes(s);
    IepLastOk(s, k, groups, vals, prog);
    RunCountsAll(s, prog);
  }

  // ----- the plan without pruning -----

  ghost predicate IepRun(s: Setting, k: nat, groups: seq<seq<seq<nat>>>, vals: seq<int>, prog: Program) {
    && IepLayout(s, k, groups, vals, prog)
    && forall d, t :: 0 <= d < s.loops && 0 <= t < |s.p.ops[d]| && t < |prog.code[d]| ==> IsPieceOf(s.p, prog.code[d][t], d, t)
  }

  lemma {:induction false} IepShape(s: Setting, k: nat, groups: seq<seq<seq<nat>>>, vals: seq<int>, prog: Program)
    requires IepRun(s, k, groups, vals, prog)
    ensures ProgramShape(s, prog)
  {
    hide Setting.Valid, GoodTables, IsIepCode, CodeFits;
    forall d, t | 0 <= d < s.loops && 0 <= t < |s.p.ops[d]| && t < |prog.code[d]| ensures CodeFits(prog.code[d][t], d + 1) {
      OpFacts(s, d, t);
      GeneratedFits(s.p.induced, d == s.p.n - 2, s.p.ops[d][t], ParentOf(s.p.ops, s.p.ops[d][t]));
    }
    LayoutShape(s, k, groups, vals, prog);
  }

  lemma {:induction false} IepPlanCounts(s: Setting, k: nat, groups: seq<seq<seq<nat>>>, vals: seq<int>, prog: Program)
    requires IepRun(s, k, groups, vals, prog)
    ensures ProgramFits(prog) && |prog.code| > 0
    ensures Run(s.g, s.ans, prog) == |All(ProblemOf(s.g, s.q, s.res, s.q.n - k))|
  {
    hide Setting.Valid, Partial, IsPieceOf, PieceRuns, GoodTables, IsIepCode, Run, All;
    IepShape(s, k, groups, vals, prog);
    forall d, t, f, env, total | 0 <= d < s.loops && 0 <= t < |s.p.ops[d]|
      ensures PieceRuns(s, prog, d, t, f, env, total)
    {
      PieceAt(s, prog, d, t, f, env, total);
    }
    IepCounts(s, k, groups, vals, prog);
  }

  // ----- when nothing is lost -----

  /** No restriction starts at a vertex that is not looped over. */
  ghost predicate StartLooped(pairs: seq<Pair>, loops: nat) {
    forall m :: 0 <= m < |pairs| ==> pairs[m].0 < loops
  }

  lemma {:induction false} ReachStartsLooped(pairs: seq<Pair>, n: nat, a: nat, b: nat, loops: nat)
    requires InOrder(pairs, n) && StartLooped(pairs, loops) && Reach(pairs, n, a, b)
    ensures a < loops
    decreases b
  {
    var m := LastLink(pairs, n, a, b);
    if pairs[m].0 != a {
      ReachStartsLooped(pairs, n, a, pairs[m].0, loops);
    }
  }

  lemma {:induction false} SamePairs(a: seq<Pair>, b: seq<Pair>, f: seq<nat>)
    requires forall p :: p in a <==> p in b
    ensures Ordered(a, f) <==> Ordered(b, f)
  {
    if Ordered(a, f) {
      OrderedWithin(b, a, f);
    }
    if Ordered(b, f) {
      OrderedWithin(a, b, f);
    }
  }

  lemma {:induction false} OrderedWithin(a: seq<Pair>, b: seq<Pair>, f: seq<nat>)
    requires Ordered(b, f) && forall p :: p in a ==> p in b
    ensures Ordered(a, f)
  {
    forall k | 0 <= k < |a| ensures a[k].0 < |f| && a[k].1 < |f| && f[a[k].0] > f[a[k].1] {
      assert a[k] in b;
    }
  }

  lemma {:induction false} NothingDropped(g: Graph, q: Query, res: Matrix, pairs: seq<Pair>, loops: nat)
    requires g.Valid() && q.Valid() && Square(res, q.n) && InOrder(pairs, q.n) && Closed(res, pairs, q.n)
    requires StartLooped(pairs, loops)
    ensures All(ProblemOf(g, q, res, loops)) == Matches(g, q, pairs)
  {
    hide Embeds, Ordered, StartLooped;
    ProblemIsMatches(g, q, res, pairs);
    var some, every := PairsOf(res, q.n, loops), PairsOf(res, q.n, q.n);
    forall p: Pair ensures p in some <==> p in every {
      if p in every {
        ReachStartsLooped(pairs, q.n, p.0, p.1, loops);
      }
    }
    forall f: seq<nat> ensures Ordered(some, f) <==> Ordered(every, f) {
      SamePairs(some, every, f);
    }
  }

  // ----- the generator -----

  method CollectSets(p: PlanIr, ghost s: Setting, k: nat) returns (sets: seq<SetIr>)
    requires IepReady(s, k) && s.p == p && p.n == s.loops + k
    ensures sets == IepSets(s, k)
  {
    hide Setting.Valid, Denotes;
    IepFacts(s, k);
    var d := p.n - k - 1;
    sets := [];
    for i := 0 to k
      invariant |sets| == i
      invariant forall j :: 0 <= j < i ==> sets[j] == IepSetAt(s, k, j)
    {
      IepSetIs(s, k, i);
      LevelDepths(s, d);
      var vset := FindIepSet(p.ops[d], p.iter[d + i], d);
      sets := sets + [vset.value];
    }
  }

  lemma {:induction false} LevelDepths(s: Setting, d: nat)
    requires s.Valid() && d < |s.p.ops|
    ensures forall t :: 0 <= t < |s.p.ops[d]| ==> s.p.ops[d][t].Valid() && s.p.ops[d][t].Depth() == d
  {
    hide Setting.Valid;
    forall t | 0 <= t < |s.p.ops[d]| ensures s.p.ops[d][t].Valid() && s.p.ops[d][t].Depth() == d {
      OpFacts(s, d, t);
    }
  }

  lemma {:induction false} GroupBlocks(sets: seq<SetIr>, groups: seq<seq<seq<nat>>>, vals: seq<int>, r: nat)
    requires GoodTables(|sets|, groups, vals) && r < |groups|
    ensures |groups| == |vals| && BlocksFitSets(sets, groups[r])
  {
    TablesFit(|sets|, groups, vals);
    TablesNonEmpty(|sets|, groups, vals, r);
  }

  method GenIepCode(sets: seq<SetIr>, groups: seq<seq<seq<nat>>>, vals: seq<int>) returns (code: seq<Instr>)
    requires GoodTables(|sets|, groups, vals)
    ensures IsIepCode(sets, groups, vals, code)
  {
    hide GoodTables, BlocksFitSets;
    TableSizes(|sets|, groups, vals);
    code := [];
    for r := 0 to |groups|
      invariant |code| == r
      invariant forall u :: 0 <= u < r ==> IsProduct(sets, groups[u], vals[u], code[u])
    {
      GroupBlocks(sets, groups, vals, r);
      var i := GenCodeIep(sets, groups[r], vals[r]);
      code := code + [i];
    }
  }

  lemma {:induction false} TableSizes(num: nat, groups: seq<seq<seq<nat>>>, vals: seq<int>)
    requires GoodTables(num, groups, vals)
    ensures |groups| == |vals|
  {
  }

  /** Appends the products to the last of the generated loops. */
  method AppendProducts(p: PlanIr, ghost s: Setting, k: nat, groups: seq<seq<seq<nat>>>, vals: seq<int>,
                        code: seq<seq<seq<Instr>>>)
    returns (prog: Program)
    requires IepReady(s, k) && s.p == p && p.n == s.loops + k && GoodTables(k, groups, vals)
    requires |code| == s.loops <= |p.ops| && forall d :: 0 <= d < s.loops ==> |code[d]| == |p.ops[d]|
    ensures IepLayout(s, k, groups, vals, prog) && |prog.code| == s.loops
    ensures forall d, t :: 0 <= d < s.loops && 0 <= t < |code[d]| ==> |prog.code[d]| > t && prog.code[d][t] == code[d][t]
  {
    hide Setting.Valid, GoodTables, IsIepCode;
    IepFacts(s, k);
    var loops := p.n - k;
    var sets := CollectSets(p, s, k);
    var products := GenIepCode(sets, groups, vals);
    var last := code[loops - 1] + [products];
    prog := Program(code[loops - 1 := last], p.iter[..loops]);
  }

  method GenIepPlan(p: PlanIr, ghost s: Setting, k: nat, groups: seq<seq<seq<nat>>>, vals: seq<int>) returns (prog: Program)
    requires IepReady(s, k) && s.p == p && p.n == s.loops + k && GoodTables(k, groups, vals)
    ensures IepRun(s, k, groups, vals, prog)
  {
    hide Setting.Valid, GoodTables, IsPieceOf, IepLayout;
    IepFacts(s, k);
    var code := GenLoops(p, s, p.n - k);
    forall d | 0 <= d < s.loops ensures |code[d]| == |p.ops[d]| {
      assert IsCodeOf(p, code[d], d);
    }
    prog := AppendProducts(p, s, k, groups, vals, code);
    forall d, t | 0 <= d < s.loops && 0 <= t < |s.p.ops[d]| && t < |prog.code[d]| ensures IsPieceOf(s.p, prog.code[d][t], d, t) {
      CodeHasPiece(p, code[d], d, t);
    }
  }

  /** From a pattern whose last k vertices are independent to loops and products that
      count on every graph. */
  method CompileIep(q: Query, pairs: seq<Pair>, k: nat, groups: seq<seq<seq<nat>>>, vals: seq<int>)
    returns (out: Option<Program>, res: Matrix)
    requires q.Valid() && !q.induced && q.n >= 3 && InOrder(pairs, q.n)
    requires 2 <= k < q.n && Independent(q.adj, q.n - k) && GoodTables(k, groups, vals)
    ensures Square(res, q.n) && Closed(res, pairs, q.n)
    ensures out.Some? <==> Connected(q.adj)
    ensures out.Some? ==> ProgramFits(out.value) && |out.value.code| > 0
    ensures out.Some? ==> forall g: Graph, ans: Answers :: g.Valid() ==>
      Run(g, ans, out.value) == |All(ProblemOf(g, q, res, q.n - k))|
    ensures out.Some? && StartLooped(pairs, q.n - k) ==> forall g: Graph, ans: Answers :: g.Valid() ==>
      Run(g, ans, out.value) == |Matches(g, q, pairs)|
  {
    hide Compiled, Closed, Run, ProgramFits, Matches, GoodTables, StartLooped, Independent, Connected, All, InOrder;
    var p;
    p, res := CreatePlan(q, pairs);
    if p.None? {
      return None, res;
    }
    PlanShape(p.value, q, res);
    ghost var s := Setting(Graph([]), q, res, p.value, (m, f) => {}, q.n - k);
    var prog := GenIepPlan(p.value, s, k, groups, vals);
    IepPlanCounts(s, k, groups, vals, prog);
    forall g: Graph, ans: Answers | g.Valid() ensures Run(g, ans, prog) == |All(ProblemOf(g, q, res, q.n - k))| {
      IepOnGraph(s, k, groups, vals, prog, g, ans);
    }
    if StartLooped(pairs, q.n - k) {
      forall g: Graph, ans: Answers | g.Valid() ensures Run(g, ans, prog) == |Matches(g, q, pairs)| {
        NothingDropped(g, q, res, pairs, q.n - k);
      }
    }
    out := Some(prog);
  }

  lemma {:induction false} PlanShape(p: PlanIr, q: Query, res: Matrix)
    requires q.Valid() && Square(res, q.n) && Compiled(p, q, res)
    ensures p.n == q.n && Graph([]).Valid()
  {
  }

  /** The program does not depend on the graph it was generated beside. */
  lemma {:induction false} IepOnGraph(s: Setting, k: nat, groups: seq<seq<seq<nat>>>, vals: seq<int>, prog: Program,
                                      g: Graph, ans: Answers)
    requires IepRun(s, k, groups, vals, prog) && g.Valid()
    ensures ProgramFits(prog) && |prog.code| > 0
    ensures Run(g, ans, prog) == |All(ProblemOf(g, s.q, s.res, s.q.n - k))|
  {
    hide Run, All, GoodTables, IsPieceOf, IsIepCode, Compiled, Independent;
    var h := s.(g := g, ans := ans);
    assert IepReady(h, k);
    forall i | 0 <= i < k ensures IepSetAt(h, k, i) == IepSetAt(s, k, i) {
    }
    assert IepSets(h, k) == IepSets(s, k);
    IepPlanCounts(h, k, groups, vals, prog);
  }
}
