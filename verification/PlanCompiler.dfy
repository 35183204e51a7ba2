/** gen_code_op: each vertex set is computed from its parent by one set operation. */
module PlanCompiler {
  import opened Counting
  import opened Patterns
  import opened Ir
  import opened LoopCode

  // ----- what a set stands for -----

  /** x satisfies the conditions of `op` towards the vertex of loop i. */
  ghost predicate Meets(g: Graph, induced: bool, op: SetIr, f: seq<nat>, i: nat, x: nat)
    requires op.Valid() && i < |op.edges| && i < |f|
  {
    && (op.edges[i] ==> g.Edge(f[i], x))
    && (!op.edges[i] ==> x != f[i] && (induced ==> !g.Edge(f[i], x)))
    && (op.restricts[i] ==> x < f[i])
  }

  ghost predicate MeetsAll(g: Graph, induced: bool, op: SetIr, f: seq<nat>, x: nat)
    requires op.Valid() && op.Depth() < |f|
  {
    forall i :: 0 <= i < |op.edges| ==> Meets(g, induced, op, f, i, x)
  }

  /** The data vertices a set holds once loops 0..Depth have chosen f. */
  ghost function Denotes(g: Graph, induced: bool, op: SetIr, f: seq<nat>): (s: set<nat>)
    requires op.Valid() && op.Depth() < |f|
    ensures forall x: nat :: x in s <==> x < |g.adj| && MeetsAll(g, induced, op, f, x)
  {
    set x | x in Below(|g.adj|) && MeetsAll(g, induced, op, f, x)
  }

  /** Later loops do not change a set. */
  lemma {:induction false} DenotesKept(g: Graph, induced: bool, op: SetIr, f: seq<nat>, h: seq<nat>)
    requires op.Valid() && op.Depth() < |f| && f <= h
    ensures Denotes(g, induced, op, h) == Denotes(g, induced, op, f)
  {
    forall x: nat ensures MeetsAll(g, induced, op, h, x) <==> MeetsAll(g, induced, op, f, x) {
      SameMeets(g, induced, op, f, h, x);
    }
  }

  lemma {:induction false} SameMeets(g: Graph, induced: bool, op: SetIr, f: seq<nat>, h: seq<nat>, x: nat)
    requires op.Valid() && op.Depth() < |f| && f <= h
    ensures MeetsAll(g, induced, op, h, x) <==> MeetsAll(g, induced, op, f, x)
  {
    forall i | 0 <= i < |op.edges| ensures Meets(g, induced, op, h, i, x) <==> Meets(g, induced, op, f, i, x) {
      assert h[i] == f[i];
    }
  }

  /** One more loop, one more condition. */
  lemma {:induction false} DenotesStep(g: Graph, induced: bool, op: SetIr, f: seq<nat>, x: nat)
    requires op.Valid() && 0 < op.Depth() < |f|
    ensures x in Denotes(g, induced, op, f)
      <==> x in Denotes(g, induced, op.UpTo(op.Depth() - 1), f) && Meets(g, induced, op, f, op.Depth(), x)
  {
    var d := op.Depth();
    var cut := op.UpTo(d - 1);
    forall i | 0 <= i < d ensures Meets(g, induced, cut, f, i, x) <==> Meets(g, induced, op, f, i, x) {
      assert cut.edges[i] == op.edges[i] && cut.restricts[i] == op.restricts[i];
    }
  }

  lemma {:induction false} DenotesTwin(g: Graph, induced: bool, op: SetIr, f: seq<nat>)
    requires op.Valid() && op.Depth() < |f| && op.Restricted()
    ensures Denotes(g, induced, op, f) == Under(Denotes(g, induced, op.Unbounded(), f), f[op.Depth()])
  {
    var d, twin := op.Depth(), op.Unbounded();
    forall x: nat ensures MeetsAll(g, induced, op, f, x) <==> MeetsAll(g, induced, twin, f, x) && x < f[d] {
      TwinMeets(g, induced, op, f, x);
    }
  }

  lemma {:induction false} TwinMeets(g: Graph, induced: bool, op: SetIr, f: seq<nat>, x: nat)
    requires op.Valid() && op.Depth() < |f| && op.Restricted()
    ensures MeetsAll(g, induced, op, f, x) <==> MeetsAll(g, induced, op.Unbounded(), f, x) && x < f[op.Depth()]
  {
    var d, twin := op.Depth(), op.Unbounded();
    forall i | 0 <= i < d ensures Meets(g, induced, op, f, i, x) <==> Meets(g, induced, twin, f, i, x) {
      assert twin.restricts[i] == op.restricts[i];
    }
    assert Meets(g, induced, op, f, d, x) <==> Meets(g, induced, twin, f, d, x) && x < f[d];
    if MeetsAll(g, induced, op, f, x) {
      assert Meets(g, induced, op, f, d, x);
    }
    if MeetsAll(g, induced, twin, f, x) && x < f[d] {
      assert Meets(g, induced, twin, f, d, x);
    }
  }

  // ----- the generated operation -----

  /** From the cut to the previous loop. */
  function StepExpr(induced: bool, op: SetIr, cut: SetIr, row: Row): Expr
    requires op.Valid()
  {
    if op.edges[op.Depth()] then
      Intersect(Saved(cut), row, op.Restricted())
    else if induced then
      Subtract(Saved(cut), row, op.Restricted())
    else if op.Restricted() then
      Bounded(Saved(cut), op.Depth())
    else
      Remove(Saved(cut), op.Depth())
  }

  /** Without a parent: the row of the newest vertex, minus what loops below k forbid. */
  function StartExpr(induced: bool, op: SetIr, k: nat): Expr
    requires op.Valid() && k <= op.Depth()
  {
    var d := op.Depth();
    if k == 0 then
      if op.Restricted() then Bounded(Whole(Adj(d)), d) else Whole(Adj(d))
    else
      var e := StartExpr(induced, op, k - 1);
      if induced then
        Subtract(e, Adj(k - 1), op.restricts[k - 1])
      else if op.restricts[k - 1] then
        Bounded(e, k - 1)
      else
        Remove(e, k - 1)
  }

  function GenCodeOp(induced: bool, isLast: bool, op: SetIr, parent: Option<SetIr>): seq<Instr>
    requires op.Valid()
  {
    match parent
    case Some(from) =>
      if |from.edges| == |op.edges| then
        [Assign(op, Bounded(Saved(from), op.Depth()))]
      else if isLast then
        [Count(StepExpr(induced, op, from, Adj(op.Depth())))]
      else
        [Assign(op, StepExpr(induced, op, from, Adj(op.Depth())))]
    case None =>
      [Assign(op, StartExpr(induced, op, op.Depth())), SkipIfEmpty(op)] + if isLast then [Count(Saved(op))] else []
  }

  // ----- each expression computes its set -----

  /** R can stand in for the row of the newest vertex when computing op from its cut. */
  ghost predicate RowServes(g: Graph, induced: bool, op: SetIr, f: seq<nat>, r: set<nat>)
    requires op.Valid() && 0 < op.Depth() < |f|
  {
    var d := op.Depth();
    forall x :: x in Denotes(g, induced, op.UpTo(d - 1), f) && (op.Restricted() ==> x < f[d]) ==>
      (x in r <==> g.Edge(f[d], x))
  }

  lemma {:induction false} StepComputes(g: Graph, ans: Answers, induced: bool, op: SetIr, cut: SetIr, row: Row,
                                        env: Env, f: seq<nat>)
    requires g.Valid() && op.Valid() && 0 < op.Depth() && |f| == op.Depth() + 1
    requires cut == op.UpTo(op.Depth() - 1) && row.at == op.Depth()
    requires Get(env, cut) == Denotes(g, induced, cut, f)
    requires op.edges[op.Depth()] || induced ==> RowServes(g, induced, op, f, RowSet(g, ans, f, row))
    ensures Fits(StepExpr(induced, op, cut, row), |f|)
    ensures Eval(g, ans, env, f, StepExpr(induced, op, cut, row)) == Denotes(g, induced, op, f)
  {
    hide Denotes, MeetsAll;
    var d, r := op.Depth(), RowSet(g, ans, f, row);
    assert Eval(g, ans, env, f, Saved(cut)) == Denotes(g, induced, cut, f);
    var s := Eval(g, ans, env, f, StepExpr(induced, op, cut, row));
    forall x: nat ensures x in s <==> x in Denotes(g, induced, op, f) {
      DenotesStep(g, induced, op, f, x);
      NoLoop(g, f[d], x);
    }
  }

  lemma {:induction false} NoLoop(g: Graph, v: nat, x: nat)
    requires g.Valid()
    ensures g.Edge(v, x) ==> x != v && x < |g.adj|
  {
    if g.Edge(v, x) {
      var k :| 0 <= k < |g.adj[v]| && g.adj[v][k] == x;
    }
  }

  lemma {:induction false} GraphRowServes(g: Graph, induced: bool, op: SetIr, f: seq<nat>)
    requires op.Valid() && 0 < op.Depth() < |f|
    ensures RowServes(g, induced, op, f, Neighbours(g, f[op.Depth()]))
  {
    hide Denotes;
  }

  /** Conditions of the newest loop and of loops below k. */
  ghost predicate MeetsSome(g: Graph, induced: bool, op: SetIr, f: seq<nat>, k: nat, x: nat)
    requires op.Valid() && k <= op.Depth() < |f|
  {
    Meets(g, induced, op, f, op.Depth(), x) && forall i :: 0 <= i < k ==> Meets(g, induced, op, f, i, x)
  }

  /** The only edge of op is the one of its own loop. */
  ghost predicate OnlyLastEdge(op: SetIr)
    requires op.Valid()
  {
    op.edges[op.Depth()] && forall i :: 0 <= i < op.Depth() ==> !op.edges[i]
  }

  lemma {:induction false} NoParentOneEdge(op: SetIr)
    requires op.Valid() && Ones(op.edges) > 0 && (op.Depth() > 0 ==> Ones(op.edges[..op.Depth()]) == 0)
    ensures OnlyLastEdge(op)
  {
    SomeOne(op.edges);
    SomeOne(op.edges[..op.Depth()]);
    forall j | 0 <= j < op.Depth() ensures !op.edges[j] {
      assert op.edges[..op.Depth()][j] == op.edges[j];
    }
    var i :| 0 <= i < |op.edges| && op.edges[i];
    assert i == op.Depth();
  }

  lemma {:induction false} StartFits(induced: bool, op: SetIr, k: nat, n: nat)
    requires op.Valid() && k <= op.Depth() < n
    ensures Fits(StartExpr(induced, op, k), n)
    decreases k
  {
    if k > 0 {
      StartFits(induced, op, k - 1, n);
    }
  }

  lemma {:induction false} StartComputes(g: Graph, ans: Answers, induced: bool, op: SetIr, env: Env, f: seq<nat>, k: nat)
    requires g.Valid() && op.Valid() && OnlyLastEdge(op) && |f| == op.Depth() + 1 && k <= op.Depth()
    ensures Fits(StartExpr(induced, op, k), |f|)
    ensures forall x: nat :: x in Eval(g, ans, env, f, StartExpr(induced, op, k)) <==> MeetsSome(g, induced, op, f, k, x)
    decreases k
  {
    StartFits(induced, op, k, |f|);
    var s := Eval(g, ans, env, f, StartExpr(induced, op, k));
    if k == 0 {
      assert Eval(g, ans, env, f, Whole(Adj(op.Depth()))) == Neighbours(g, f[op.Depth()]);
      forall x: nat ensures x in s <==> Meets(g, induced, op, f, op.Depth(), x) {
      }
    } else {
      StartComputes(g, ans, induced, op, env, f, k - 1);
      var before := Eval(g, ans, env, f, StartExpr(induced, op, k - 1));
      forall x: nat ensures x in s <==> MeetsSome(g, induced, op, f, k, x) {
        NoLoop(g, f[k - 1], x);
        assert x in s <==> x in before && Meets(g, induced, op, f, k - 1, x);
      }
    }
  }

  lemma {:induction false} StartIsDenotes(g: Graph, ans: Answers, induced: bool, op: SetIr, env: Env, f: seq<nat>)
    requires g.Valid() && op.Valid() && OnlyLastEdge(op) && |f| == op.Depth() + 1
    ensures Fits(StartExpr(induced, op, op.Depth()), |f|)
    ensures Eval(g, ans, env, f, StartExpr(induced, op, op.Depth())) == Denotes(g, induced, op, f)
  {
    var d := op.Depth();
    StartComputes(g, ans, induced, op, env, f, d);
    forall x: nat ensures MeetsSome(g, induced, op, f, d, x) <==> x < |g.adj| && MeetsAll(g, induced, op, f, x) {
      NoLoop(g, f[d], x);
    }
  }
}
