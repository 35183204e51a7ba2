/** The distributed run counts the matches: each edge weighs the matches it starts. */
module DistributedCount {
  import opened Counting
  import opened Patterns
  import opened Schedules
  import opened Completions
  import opened Matcher
  import opened Interpreter
  import opened EdgeRanges
  import opened RowPieces
  import opened Distributor
  import opened RunsEnd

  /** The graph's rows one after the other. */
  ghost predicate Rows(g: Graph, c: Csr) {
    && c.Valid() && |c.off| == |g.adj| + 1
    && forall v: nat {:trigger g.adj[v]} :: v < |g.adj| ==> IsRow(g, c, v)
  }

  ghost predicate IsRow(g: Graph, c: Csr, v: nat)
    requires c.Valid() && v < |g.adj| && |c.off| == |g.adj| + 1
  {
    c.off[v + 1] <= |c.edge| && c.off[v] <= c.off[v + 1] && c.edge[c.off[v]..c.off[v + 1]] == g.adj[v]
  }

  /** The vertex whose row holds edge e, searched from v downwards. */
  ghost function OwnerFrom(c: Csr, e: nat, v: nat): nat
    requires c.Valid() && v < |c.off|
  {
    if v == 0 || c.off[v] <= e then v else OwnerFrom(c, e, v - 1)
  }

  lemma {:induction false} OwnerIs(c: Csr, e: nat, v: nat, top: nat)
    requires c.Valid() && c.EdgeOf(v, e) && v <= top < |c.off|
    ensures OwnerFrom(c, e, top) == v
  {
    if top > v {
      assert v + 1 < top ==> c.off[v + 1] < c.off[top];
      OwnerIs(c, e, v, top - 1);
    }
  }

  /** The matches that start with the two ends of edge e. */
  ghost function EdgeWeight(p: Problem, c: Csr): Weight
    requires p.Valid() && c.Valid()
  {
    (e: nat) => if e < |c.edge| then |Extending(p, [OwnerFrom(c, e, |c.off| - 1), c.edge[e]])| else 0
  }

  lemma {:induction false} WeightOf(p: Problem, c: Csr, v: nat, e: nat)
    requires p.Valid() && c.Valid() && c.EdgeOf(v, e)
    ensures EdgeWeight(p, c)(e) == |Extending(p, [v, c.edge[e]])|
  {
    OwnerIs(c, e, v, |c.off| - 1);
  }

  lemma {:induction false} RowsValid(g: Graph, c: Csr)
    requires Rows(g, c)
    ensures c.Valid() && |c.off| == |g.adj| + 1
  {
  }

  lemma {:induction false} RowOf(g: Graph, c: Csr, v: nat)
    requires Rows(g, c) && v < |g.adj|
    ensures c.Valid() && |c.off| == |g.adj| + 1 && c.off[v] < c.off[v + 1] <= |c.edge|
    ensures c.edge[c.off[v]..c.off[v + 1]] == g.adj[v]
  {
    hide Csr.EdgeOf;
    var row := g.adj[v];
    assert IsRow(g, c, v);
  }

  lemma {:induction false} InRange(c: Csr, v: nat, e: nat)
    requires c.Valid() && v + 1 < |c.off| && c.off[v] <= e < c.off[v + 1] <= |c.edge|
    ensures c.EdgeOf(v, e)
  {
  }

  lemma {:induction false} SumStep(w: Weight, lo: nat, hi: nat)
    requires lo < hi
    ensures Sum(w, lo, hi) == Sum(w, lo, hi - 1) + w(hi - 1)
  {
  }

  /** What a thread adds for a range is the weight of the range. */
  lemma {:induction false} RangeWeighs(g: Graph, p: Problem, c: Csr, v: nat, lo: nat, hi: nat)
    requires p.Valid() && p.g == g && p.q.n > 2 && Rows(g, c) && v < |g.adj|
    requires c.off[v] <= lo <= hi <= c.off[v + 1] <= |c.edge|
    ensures |Through(p, [v], Elements(c.edge[lo..hi]))| == Sum(EdgeWeight(p, c), lo, hi)
    decreases hi - lo
  {
    hide Through, Extending, EdgeWeight, Rows, Csr.Valid;
    if lo == hi {
      assert Elements(c.edge[lo..hi]) == {};
      EmptyThrough(p, [v]);
    } else {
      hide *;
      RowsValid(g, c);
      RangeWeighs(g, p, c, v, lo, hi - 1);
      RowStep(g, p, c, v, lo, hi);
      InRange(c, v, hi - 1);
      WeightOf(p, c, v, hi - 1);
      SumStep(EdgeWeight(p, c), lo, hi);
      assert [v] + [c.edge[hi - 1]] == [v, c.edge[hi - 1]];
    }
  }

  lemma {:induction false} EmptyThrough(p: Problem, f: seq<nat>)
    requires p.Valid()
    ensures |Through(p, f, {})| == 0
  {
    assert Through(p, f, {}) == {};
  }

  lemma {:induction false} RowStep(g: Graph, p: Problem, c: Csr, v: nat, lo: nat, hi: nat)
    requires p.Valid() && p.g == g && p.q.n > 2 && Rows(g, c) && v < |g.adj|
    requires c.off[v] <= lo < hi <= c.off[v + 1] <= |c.edge|
    ensures |Through(p, [v], Elements(c.edge[lo..hi]))|
      == |Through(p, [v], Elements(c.edge[lo..hi - 1]))| + |Extending(p, [v] + [c.edge[hi - 1]])|
  {
    hide Through, Extending;
    var part, x := c.edge[lo..hi - 1], c.edge[hi - 1];
    assert c.edge[lo..hi] == part + [x];
    assert Elements(c.edge[lo..hi]) == Elements(part) + {x};
    forall k | 0 <= k < |part| ensures part[k] != x {
      assert c.EdgeOf(v, lo + k) && c.EdgeOf(v, hi - 1);
    }
    ThroughMore(p, [v], Elements(part), x);
  }

  /** The second vertex of a match is adjacent to the first. */
  lemma {:induction false} RowIsEnough(g: Graph, p: Problem, v: nat)
    requires p.Valid() && p.g == g && p.q.n > 2 && p.q.adj[1][0] && v < |g.adj|
    ensures Through(p, [v], Elements(g.adj[v])) == Extending(p, [v])
  {
    hide Through, Extending;
    forall x: nat | Next(p, [v], x) ensures x in Elements(g.adj[v]) {
      assert p.g.Edge([v][0], x);
    }
    ThroughAll(p, [v], Elements(g.adj[v]));
  }

  lemma {:induction false} AllEdgesWeigh(g: Graph, p: Problem, c: Csr, v: nat)
    requires p.Valid() && p.g == g && p.q.n > 2 && p.q.adj[1][0] && Rows(g, c) && v <= |g.adj|
    ensures Sum(EdgeWeight(p, c), 0, c.off[v]) == |Through(p, [], Below(v))|
    decreases v
  {
    hide *;
    RowsValid(g, c);
    if v == 0 {
      NothingBelow(p);
      NoSum(EdgeWeight(p, c));
      assert c.off[0] == 0 by { OffStarts(c); }
    } else {
      AllEdgesWeigh(g, p, c, v - 1);
      RowOf(g, c, v - 1);
      RangeWeighs(g, p, c, v - 1, c.off[v - 1], c.off[v]);
      RowIsEnough(g, p, v - 1);
      SumSplits(EdgeWeight(p, c), 0, c.off[v - 1], c.off[v]);
      OneMoreBelow(p, v - 1);
    }
  }

  lemma {:induction false} OffStarts(c: Csr)
    requires c.Valid()
    ensures c.off[0] == 0
  {
  }

  lemma {:induction false} NoSum(w: Weight)
    ensures Sum(w, 0, 0) == 0
  {
  }

  /** All edges together weigh all the matches. */
  lemma {:induction false} TotalWeight(g: Graph, p: Problem, c: Csr)
    requires p.Valid() && p.g == g && p.q.n > 2 && p.q.adj[1][0] && Rows(g, c)
    ensures Sum(EdgeWeight(p, c), 0, |c.edge|) == |All(p)|
  {
    AllEdgesWeigh(g, p, c, |g.adj|);
    EverythingBelow(p);
  }

  /** With a restriction on the first pattern edge, edges to greater vertices start no match. */
  lemma {:induction false} RestrictedEdgesWeighNothing(p: Problem, c: Csr, skip: bool)
    requires p.Valid() && p.q.n > 2 && c.Valid() && (skip ==> (0, 1) in p.r)
    ensures Harmless(c, skip, EdgeWeight(p, c))
  {
    hide Extending, EdgeWeight;
    if skip {
      var k :| 0 <= k < |p.r| && p.r[k] == (0, 1);
      forall v: nat, e: nat | c.EdgeOf(v, e) && c.edge[e] >= v ensures EdgeWeight(p, c)(e) == 0 {
        WeightOf(p, c, v, e);
        assert !Next(p, [v], c.edge[e]);
        NotNext(p, [v], c.edge[e]);
        assert [v] + [c.edge[e]] == [v, c.edge[e]];
      }
    }
  }

  /** skip_flag: some restriction ends in vertex 1. */
  ghost predicate SkipFlag(v: Plan)
    requires v.n > 1 && |v.restrictLast| == v.n
  {
    v.restrictLast[1] != -1
  }

  lemma {:induction false} SkipMeansFirst(g: Graph, v: Plan)
    requires g.Valid() && v.Valid() && 1 + v.optimizeNum < v.n
    ensures SkipFlag(v) ==> (0, 1) in Goal(g, v).r
  {
    hide Tree, LoopsBuilt, Connected, Plan.ExclusionFits;
    if SkipFlag(v) {
      var k := v.restrictLast[1];
      assert Seconds(v.pairs)[k] == 1;
      assert v.pairs[k] == (0, 1);
    }
  }

  lemma {:induction false} SkipHarmless(g: Graph, v: Plan, c: Csr)
    requires g.Valid() && v.Valid() && c.Valid() && !LeafFirst(v)
    ensures |v.restrictLast| == v.n && Harmless(c, SkipFlag(v), EdgeWeight(Goal(g, v), c))
  {
    hide EdgeWeight, Csr.Valid, Harmless, Tree, LoopsBuilt, Connected;
    SkipMeansFirst(g, v);
    RestrictedEdgesWeighNothing(Goal(g, v), c, SkipFlag(v));
  }

  /** What the threads do with a range of edges. */
  ghost function WorkOf(g: Graph, v: Plan, c: Csr): Work
    requires g.Valid() && v.Valid()
  {
    (x: nat, lo: nat, hi: nat) => if lo <= hi <= |c.edge| then RangeCount(g, v, x, c.edge[lo..hi]) else 0
  }

  /** A run for this plan. */
  ghost function ConfigFor(g: Graph, v: Plan, c: Csr, mpiChunk: nat, ompChunk: nat): (k: Config)
    requires g.Valid() && v.Valid() && Rows(g, c)
    requires mpiChunk > 0 && ompChunk > 0
    ensures k.Valid() && k.c == c
  {
    Config(c, SkipFlag(v), mpiChunk, ompChunk, WorkOf(g, v, c))
  }

  lemma {:induction false} RangeLoops(g: Graph, v: Plan, vertex: nat, data: seq<nat>)
    requires g.Valid() && v.Valid() && !LeafFirst(v)
    ensures RangeCount(g, v, vertex, data) == |Through(Goal(g, v), [vertex], Elements(data))|
  {
  }

  lemma {:induction false} LoopsPerEdge(g: Graph, v: Plan, c: Csr, mpiChunk: nat, ompChunk: nat)
    requires g.Valid() && v.Valid() && Rows(g, c) && mpiChunk > 0 && ompChunk > 0 && !LeafFirst(v)
    ensures PerEdge(ConfigFor(g, v, c, mpiChunk, ompChunk), EdgeWeight(Goal(g, v), c))
  {
    hide Plan.Valid, Graph.Valid, Sum, Through, EdgeWeight, Csr.EdgeOf, RangeCount, IsRow;
    var k, p := ConfigFor(g, v, c, mpiChunk, ompChunk), Goal(g, v);
    FirstEdge(g, v);
    forall x: nat, lo: nat, hi: nat {:trigger k.work(x, lo, hi)} | x < c.Vertices() && c.off[x] <= lo < hi <= c.off[x + 1]
      ensures k.work(x, lo, hi) == Sum(EdgeWeight(p, c), lo, hi)
    {
      OffInside(c, x);
      RangeLoops(g, v, x, c.edge[lo..hi]);
      RangeWeighs(g, p, c, x, lo, hi);
    }
  }

  /** The matches that start in a vertex. */
  ghost function RowWeight(p: Problem): nat -> int
    requires p.Valid()
  {
    (x: nat) => |Extending(p, [x])|
  }

  lemma {:induction false} LeavesPerRange(g: Graph, v: Plan, c: Csr, mpiChunk: nat, ompChunk: nat)
    requires g.Valid() && v.Valid() && Rows(g, c) && mpiChunk > 0 && ompChunk > 0 && LeafFirst(v)
    ensures PerRange(ConfigFor(g, v, c, mpiChunk, ompChunk), RowWeight(Goal(g, v)))
  {
    hide Plan.Valid, Graph.Valid, Extending, Csr.EdgeOf;
    var k := ConfigFor(g, v, c, mpiChunk, ompChunk);
    forall x: nat, lo: nat, hi: nat {:trigger k.work(x, lo, hi)} | x < c.Vertices() && c.off[x] <= lo < hi <= c.off[x + 1]
      ensures k.work(x, lo, hi) == RowWeight(Goal(g, v))(x)
    {
      OffInside(c, x);
    }
  }

  /** What a distributed run announces: the number of matches when depth 1 loops; when it is
      a leaf, the matches from each vertex as often as its row is cut. */
  ghost function Announced(g: Graph, v: Plan, c: Csr, mpiChunk: nat, ompChunk: nat): int
    requires g.Valid() && v.Valid() && Rows(g, c) && mpiChunk > 0 && ompChunk > 0
  {
    if LeafFirst(v) then PiecesSum(ConfigFor(g, v, c, mpiChunk, ompChunk), RowWeight(Goal(g, v)), |g.adj|)
    else |All(Goal(g, v))|
  }

  lemma {:induction false} PlannedIs(g: Graph, v: Plan, c: Csr, mpiChunk: nat, ompChunk: nat)
    requires g.Valid() && v.Valid() && Rows(g, c) && mpiChunk > 0 && ompChunk > 0
    ensures Planned(ConfigFor(g, v, c, mpiChunk, ompChunk)) == Announced(g, v, c, mpiChunk, ompChunk)
  {
    hide Plan.Valid, Graph.Valid, Csr.Valid, ServerSum, All, PerEdge, PerRange, Harmless, EdgeWeight, RowWeight, PiecesSum;
    var k, p := ConfigFor(g, v, c, mpiChunk, ompChunk), Goal(g, v);
    FirstEdge(g, v);
    if LeafFirst(v) {
      LeavesPerRange(g, v, c, mpiChunk, ompChunk);
      EveryPieceOnce(k, RowWeight(p));
    } else {
      LoopsPerEdge(g, v, c, mpiChunk, ompChunk);
      SkipHarmless(g, v, c);
      EveryEdgeOnce(k, EdgeWeight(p, c));
      TotalWeight(g, p, c);
    }
  }

  /** The distributed count, for every plan: in every run, over every interleaving, the
      server's result and the one any other node is told. */
  lemma {:induction false} DistributedCounts(g: Graph, v: Plan, c: Csr, mpiChunk: nat, ompChunk: nat,
                                             threads: seq<nat>, states: seq<State>, steps: seq<Step>, i: nat, n: nat)
    requires g.Valid() && v.Valid() && Rows(g, c) && mpiChunk > 0 && ompChunk > 0
    requires |threads| > 0 && forall m :: 0 <= m < |threads| ==> threads[m] > 0
    requires var k := ConfigFor(g, v, c, mpiChunk, ompChunk); IsRun(k, states, steps) && states[0] == Start(k, threads)
    requires i < |states| && states[i].finished
    ensures !LeafFirst(v) ==> states[i].tot == |All(Goal(g, v))|
    ensures states[i].tot == Announced(g, v, c, mpiChunk, ompChunk)
    ensures 1 <= n < |states[i].nodes| && states[i].nodes[n].final ==> states[i].nodes[n].total == states[i].tot
  {
    hide Graph.Valid, Plan.Valid, IsRun, Start, Planned, PiecesSum, All;
    EveryRunAccounts(ConfigFor(g, v, c, mpiChunk, ompChunk), threads, states, steps, i);
    PlannedIs(g, v, c, mpiChunk, ompChunk);
  }

  /** And every run gets there: none is longer than the work at the start, and one that cannot
      go on has told everybody. */
  lemma {:induction false} DistributedFinishes(g: Graph, v: Plan, c: Csr, mpiChunk: nat, ompChunk: nat,
                                               threads: seq<nat>, states: seq<State>, steps: seq<Step>)
    requires g.Valid() && v.Valid() && Rows(g, c) && mpiChunk > 0 && ompChunk > 0
    requires |threads| > 0 && forall m :: 0 <= m < |threads| ==> threads[m] > 0
    requires var k := ConfigFor(g, v, c, mpiChunk, ompChunk); IsRun(k, states, steps) && states[0] == Start(k, threads)
    ensures var k := ConfigFor(g, v, c, mpiChunk, ompChunk);
      ServerOk(c, Start(k, threads).server) && |steps| <= Potential(k, Start(k, threads))
    ensures !CanMove(ConfigFor(g, v, c, mpiChunk, ompChunk), states[|steps|]) ==>
      && states[|steps|].finished && states[|steps|].tot == Announced(g, v, c, mpiChunk, ompChunk)
      && forall n :: 1 <= n < |states[|steps|].nodes| ==>
           states[|steps|].nodes[n].final && states[|steps|].nodes[n].total == Announced(g, v, c, mpiChunk, ompChunk)
  {
    hide Graph.Valid, Plan.Valid, Start, Announced, Planned, CanMove, Potential, Enabled, Apply;
    var k := ConfigFor(g, v, c, mpiChunk, ompChunk);
    RunsAreFinite(k, threads, states, steps);
    if !CanMove(k, states[|steps|]) {
      StuckIsOver(k, threads, states, steps);
    }
    PlannedIs(g, v, c, mpiChunk, ompChunk);
  }

  lemma {:induction false} FirstEdge(g: Graph, v: Plan)
    requires g.Valid() && v.Valid()
    ensures var p := Goal(g, v); p.g == g && p.q.n == v.n && p.q.n >= 2 && p.q.adj[1][0]
  {
    hide Tree, LoopsBuilt, Restrictions, Plan.ExclusionFits;
    var r := Nbrs(v.adj, 1);
    assert v.adj[1][r[0]];
  }
}
